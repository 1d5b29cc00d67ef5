/** What holds in every reachable state of the service, and the main results about whole runs. */
module ServerSafety {
  import opened Prelude
  import opened ReplayStore
  import opened Exchange
  import opened Revocations
  import opened Server
  import Protocol = ReplayProtocol

  // ---------------------------------------------------------------- every step moves on

  lemma StoreMovesOn(lim: Limits, p: Protocol.State, l: Protocol.Label, a: Protocol.Id)
    requires Protocol.Step(lim, p, l).Some?
    requires a in p.attempts && p.attempts[a].pc.Done?
    ensures var p' := Protocol.Step(lim, p, l).value; a in p'.attempts && p'.attempts[a] == p.attempts[a]
  {
  }

  lemma StoreStaysReachable(lim: Limits, p: Protocol.State, l: Protocol.Label)
    requires Protocol.Reachable(lim, p) && Protocol.Step(lim, p, l).Some?
    ensures Protocol.Reachable(lim, Protocol.Step(lim, p, l).value)
  {
    var p0, run :| Protocol.Initial(p0) && Protocol.Exec(lim, p0, run) == Some(p);
    assert (run + [l])[..|run|] == run;
    assert Protocol.Exec(lim, p0, run + [l]) == Protocol.Step(lim, p, l);
  }

  /** The label that a step hands to the replay store, if it uses the store. */
  function StoreLabel(s: State, l: Label): Option<Protocol.Label> {
    match l
    case Submit(x, slot) =>
      if !MaySubmit(s, x, slot) then None
      else
        var c := s.exchanges[x].prepared.creds[slot];
        Some(Protocol.Enter(Protocol.Credential(x, slot), c.key, c.exp, s.exchanges[x].now.value))
    case Authenticate(n, key, exp, now) => Some(Protocol.Enter(Protocol.Online(n), key, exp, now))
    case Store(step) => Some(step)
    case _ => None
  }

  lemma StoreSteps(w: World, s: State, l: Label)
    requires Step(w, s, l).Some?
    ensures StoreLabel(s, l).None? ==> Step(w, s, l).value.proto == s.proto
    ensures StoreLabel(s, l).Some? ==> Protocol.Step(w.lim, s.proto, StoreLabel(s, l).value) == Some(Step(w, s, l).value.proto)
  {
  }

  /** Time does not go back, attempts keep their arguments, and what is done stays done. */
  ghost predicate Onward(s: State, t: State) {
    && s.clock <= t.clock
    && Protocol.Extends(s.proto, t.proto)
    && t.proto.backend.Files? == s.proto.backend.Files?
    && forall a :: Spent(s, a) ==> Spent(t, a)
  }

  lemma StepIsOnward(w: World, s: State, l: Label)
    requires Step(w, s, l).Some?
    ensures Onward(s, Step(w, s, l).value)
  {
    StoreSteps(w, s, l);
    var s' := Step(w, s, l).value;
    if StoreLabel(s, l).Some? {
      var pl := StoreLabel(s, l).value;
      Protocol.StepExtends(w.lim, s.proto, pl);
      forall a | Spent(s, a)
        ensures Spent(s', a)
      {
        StoreMovesOn(w.lim, s.proto, pl, a);
      }
    }
  }

  // ---------------------------------------------------------------- exchanges and their attempts

  ghost predicate ExchangeOk(w: World, s: State, x: nat)
    requires x in s.exchanges
  {
    var e := s.exchanges[x];
    && w.gates(e.replica, e.req, e.times) == Ok(e.prepared)
    && (e.now.Some? ==> e.now.value <= s.clock)
    && (e.issued.Some? ==>
          && e.now.Some? && e.now.value <= e.issued.value.at <= s.clock
          && RecordedUpTo(s, x, |e.prepared.creds|)
          && e.issued.value.claims == Mint(w.cfg(e.replica), e.prepared, e.now.value, e.issued.value.claims.jti))
  }

  /** An exchange's attempt carries its credential and its clock reading. */
  ghost predicate SlotOk(s: State, x: nat, i: nat) {
    Protocol.Credential(x, i) in s.proto.attempts ==>
      && x in s.exchanges && s.exchanges[x].now.Some? && i < |s.exchanges[x].prepared.creds|
      && var t, c := s.proto.attempts[Protocol.Credential(x, i)], s.exchanges[x].prepared.creds[i];
         t.key == c.key && t.exp == c.exp && t.now == s.exchanges[x].now.value
  }

  ghost predicate ReadingsPast(s: State) {
    forall a :: a in s.proto.attempts ==> s.proto.attempts[a].now <= s.clock
  }

  ghost predicate ExchangesOk(w: World, s: State) {
    && Protocol.Reachable(w.lim, s.proto)
    && ReadingsPast(s)
    && (forall x :: x in s.exchanges ==> ExchangeOk(w, s, x))
    && (forall x: nat, i: nat :: SlotOk(s, x, i))
  }

  /** All that a step can do to an exchange: admit it, stamp it, or issue its token. */
  ghost predicate ExchangeMoved(w: World, s: State, t: State, x: nat)
    requires x in t.exchanges
  {
    var f := t.exchanges[x];
    if x !in s.exchanges then w.gates(f.replica, f.req, f.times) == Ok(f.prepared) && f.now.None? && f.issued.None?
    else
      var e := s.exchanges[x];
      || f == e
      || (e.now.None? && e.issued.None? && f == e.(now := Some(s.clock)))
      || (MayIssue(s, x) && f.issued.Some? && f.now == e.now && f.prepared == e.prepared
          && f == e.(issued := Some(Issued(Mint(w.cfg(e.replica), e.prepared, e.now.value, f.issued.value.claims.jti), s.clock))))
  }

  lemma ExchangeMoves(w: World, s: State, l: Label, x: nat)
    requires Step(w, s, l).Some? && x in Step(w, s, l).value.exchanges
    requires x in s.exchanges ==> ExchangeOk(w, s, x)
    ensures ExchangeMoved(w, s, Step(w, s, l).value, x)
  {
    if !l.Admit? && !l.Stamp? && !l.Issue? {
      assert Step(w, s, l).value.exchanges == s.exchanges;
    }
  }

  lemma MoveKeepsExchange(w: World, s: State, t: State, x: nat)
    requires Onward(s, t) && x in t.exchanges && ExchangeMoved(w, s, t, x)
    requires x in s.exchanges ==> ExchangeOk(w, s, x)
    ensures ExchangeOk(w, t, x)
  {
    if x in s.exchanges {
      assert forall i :: Spent(s, Protocol.Credential(x, i)) ==> Spent(t, Protocol.Credential(x, i));
    }
  }

  /** What the replay store now holds of an attempt: what it held before, or what the call that enters it says. */
  lemma EnteredAs(lim: Limits, p: Protocol.State, l: Protocol.Label, a: Protocol.Id)
    requires Protocol.Step(lim, p, l).Some? && a in Protocol.Step(lim, p, l).value.attempts
    ensures var t := Protocol.Step(lim, p, l).value.attempts[a];
      if a in p.attempts then t.key == p.attempts[a].key && t.exp == p.attempts[a].exp && t.now == p.attempts[a].now
      else l.Enter? && l.a == a && t.key == l.key && t.exp == l.exp && t.now == l.now
  {
  }

  lemma StepKeepsReading(w: World, s: State, l: Label, a: Protocol.Id)
    requires ExchangesOk(w, s) && Step(w, s, l).Some? && a in Step(w, s, l).value.proto.attempts
    ensures Step(w, s, l).value.proto.attempts[a].now <= Step(w, s, l).value.clock
  {
    StoreSteps(w, s, l);
    if StoreLabel(s, l).Some? {
      EnteredAs(w.lim, s.proto, StoreLabel(s, l).value, a);
      assert l.Submit? ==> ExchangeOk(w, s, l.x);
    }
  }

  /** Steps add to what an exchange holds and change nothing of it. */
  lemma ExchangeStays(w: World, s: State, l: Label, x: nat)
    requires Step(w, s, l).Some? && x in s.exchanges
    ensures var s' := Step(w, s, l).value;
      && x in s'.exchanges && s'.exchanges[x].prepared == s.exchanges[x].prepared
      && (s.exchanges[x].now.Some? ==> s'.exchanges[x].now == s.exchanges[x].now)
      && (s.exchanges[x].issued.Some? ==> s'.exchanges[x].issued == s.exchanges[x].issued)
  {
  }

  lemma StepKeepsSlot(w: World, s: State, l: Label, x: nat, i: nat)
    requires SlotOk(s, x, i) && Step(w, s, l).Some?
    ensures SlotOk(Step(w, s, l).value, x, i)
  {
    var s' := Step(w, s, l).value;
    var a := Protocol.Credential(x, i);
    StoreSteps(w, s, l);
    if x in s.exchanges {
      ExchangeStays(w, s, l, x);
    }
    if a in s'.proto.attempts && StoreLabel(s, l).Some? {
      EnteredAs(w.lim, s.proto, StoreLabel(s, l).value, a);
    }
  }

  lemma StepKeepsExchanges(w: World, s: State, l: Label)
    requires ExchangesOk(w, s) && Step(w, s, l).Some?
    ensures ExchangesOk(w, Step(w, s, l).value)
  {
    var s' := Step(w, s, l).value;
    StepIsOnward(w, s, l);
    forall x | x in s'.exchanges
      ensures ExchangeOk(w, s', x)
    {
      ExchangeMoves(w, s, l, x);
      MoveKeepsExchange(w, s, s', x);
    }
    forall x: nat, i: nat
      ensures SlotOk(s', x, i)
    {
      StepKeepsSlot(w, s, l, x, i);
    }
    forall a | a in s'.proto.attempts
      ensures s'.proto.attempts[a].now <= s'.clock
    {
      StepKeepsReading(w, s, l, a);
    }
    StoreSteps(w, s, l);
    if StoreLabel(s, l).Some? {
      StoreStaysReachable(w.lim, s.proto, StoreLabel(s, l).value);
    }
  }

  // ---------------------------------------------------------------- one credential, one live token

  /** Exchange `x` has issued a token, and its i-th credential has this key and this expiry or a later one. */
  ghost predicate Bears(s: State, x: nat, i: nat, key: string, exp: int) {
    && x in s.exchanges && s.exchanges[x].issued.Some? && i < |s.exchanges[x].prepared.creds|
    && s.exchanges[x].prepared.creds[i].key == key && s.exchanges[x].prepared.creds[i].exp >= exp
  }

  ghost predicate Share(s: State, x: nat, i: nat, y: nat, j: nat, key: string, exp: int) {
    (x, i) != (y, j) && Bears(s, x, i, key, exp) && Bears(s, y, j, key, exp)
  }

  /** On disk, nobody presents the key with an earlier expiry. */
  ghost predicate NoneEarlier(s: State, key: string, exp: int) {
    s.proto.backend.Files? ==> forall a :: a in s.proto.attempts && s.proto.attempts[a].key == key ==> s.proto.attempts[a].exp >= exp
  }

  /** Of two tokens that share a credential, the later is issued only after the earlier of its expiries has passed. */
  ghost predicate LaterIsDead(s: State, x: nat, i: nat, y: nat, j: nat, key: string, exp: int) {
    Share(s, x, i, y, j, key, exp) && NoneEarlier(s, key, exp) ==>
      s.exchanges[x].issued.value.at > exp || s.exchanges[y].issued.value.at > exp
  }

  lemma TwiceRecordedIsExpired(w: World, s: State, x: nat, i: nat, y: nat, j: nat, key: string, exp: int)
    requires ExchangesOk(w, s) && Share(s, x, i, y, j, key, exp) && NoneEarlier(s, key, exp)
    ensures s.clock > exp
  {
    var a, b := Protocol.Credential(x, i), Protocol.Credential(y, j);
    assert ExchangeOk(w, s, x) && ExchangeOk(w, s, y) && Spent(s, a) && Spent(s, b) && SlotOk(s, x, i) && SlotOk(s, y, j);
    if s.clock <= exp {
      Protocol.AtMostOneAccepted(w.lim, s.proto, key, exp, a, b);
    }
  }

  lemma NewlyIssued(w: World, s: State, l: Label, x: nat)
    requires Step(w, s, l).Some? && x in Step(w, s, l).value.exchanges && Step(w, s, l).value.exchanges[x].issued.Some?
    requires x in s.exchanges ==> s.exchanges[x].issued.None?
    ensures Step(w, s, l).value.exchanges[x].issued.value.at == Step(w, s, l).value.clock
  {
  }

  lemma StepKeepsLater(w: World, s: State, l: Label, x: nat, i: nat, y: nat, j: nat, key: string, exp: int)
    requires ExchangesOk(w, s) && LaterIsDead(s, x, i, y, j, key, exp) && Step(w, s, l).Some?
    ensures LaterIsDead(Step(w, s, l).value, x, i, y, j, key, exp)
  {
    var s' := Step(w, s, l).value;
    if Share(s', x, i, y, j, key, exp) && NoneEarlier(s', key, exp) {
      StepIsOnward(w, s, l);
      assert NoneEarlier(s, key, exp);
      if Share(s, x, i, y, j, key, exp) {
        ExchangeStays(w, s, l, x);
        ExchangeStays(w, s, l, y);
      } else {
        StepKeepsExchanges(w, s, l);
        TwiceRecordedIsExpired(w, s', x, i, y, j, key, exp);
        var z := if Bears(s, x, i, key, exp) then y else x;
        if z in s.exchanges {
          ExchangeStays(w, s, l, z);
        }
        NewlyIssued(w, s, l, z);
      }
    }
  }

  // ---------------------------------------------------------------- revocations

  predicate Known(w: World, replica: nat, token: string) {
    w.decode(token).Some? && Recognised(w.cfg(replica), w.decode(token).value)
  }

  /** The token stands in the list, or it can no longer be active, or it never could. */
  ghost predicate Settled(w: World, s: State, replica: nat, token: string) {
    token in List(s, replica) || ExpiryOf(w, token) <= s.clock || !Known(w, replica, token)
  }

  /** The token was not issued in what the checking server takes for the future. */
  predicate Timely(w: World, q: Revoking) {
    w.decode(q.token).Some? ==> w.decode(q.token).value.claims.iat <= q.reading + w.cfg(q.replica).leeway
  }

  ghost predicate RevokingOk(w: World, s: State, n: nat)
    requires n in s.revokings
  {
    var q := s.revokings[n];
    && (q.phase.Stamped? ==> q.phase.now <= s.clock)
    && (q.phase == Ended(true) && Timely(w, q) ==> Settled(w, s, q.replica, q.token))
  }

  /** Some revocation of the token at this replica has succeeded. */
  ghost predicate Revoked(s: State, replica: nat, token: string) {
    exists n :: n in s.revokings && s.revokings[n].replica == replica && s.revokings[n].token == token && s.revokings[n].phase == Ended(true)
  }

  ghost predicate EntryOk(w: World, s: State, replica: nat, token: string) {
    token in List(s, replica) ==> List(s, replica)[token] == ExpiryOf(w, token) && Revoked(s, replica, token)
  }

  /** An introspection has read the clock and reports only what was active at that reading. */
  ghost predicate LookupOk(w: World, s: State, n: nat)
    requires n in s.lookups
  {
    var q := s.lookups[n];
    q.reading <= s.clock && (q.answer == Some(true) ==> Active(w, q.replica, q.token, q.reading))
  }

  ghost predicate RevocationsOk(w: World, s: State) {
    && (forall n :: n in s.revokings ==> RevokingOk(w, s, n))
    && (forall n :: n in s.lookups ==> LookupOk(w, s, n))
    && (forall r: nat, t :: EntryOk(w, s, r, t))
    && (forall r: nat :: |List(s, r)| <= w.cfg(r).maxSeen)
  }

  lemma CommitKeepsLive(w: World, s: State, n: nat, replica: nat, token: string)
    requires CommitStep(w, s, n).Some? && s.revokings[n].phase.now <= s.clock
    requires token in List(s, replica) && List(s, replica)[token] >= s.clock
    ensures token in List(CommitStep(w, s, n).value, replica)
  {
  }

  lemma AnswerKeepsLive(w: World, s: State, n: nat, replica: nat, token: string)
    requires AnswerStep(w, s, n).Some? && s.lookups[n].reading <= s.clock
    requires token in List(s, replica) && List(s, replica)[token] >= s.clock
    ensures token in List(AnswerStep(w, s, n).value, replica)
  {
  }

  /** A list loses only tokens that have expired. */
  lemma ListKeepsLive(w: World, s: State, l: Label, replica: nat, token: string)
    requires RevocationsOk(w, s) && Step(w, s, l).Some?
    requires token in List(s, replica) && ExpiryOf(w, token) >= s.clock
    ensures token in List(Step(w, s, l).value, replica)
  {
    assert EntryOk(w, s, replica, token);
    if l.Commit? {
      assert RevokingOk(w, s, l.n);
      CommitKeepsLive(w, s, l.n, replica, token);
    } else if l.Answer? {
      assert LookupOk(w, s, l.n);
      AnswerKeepsLive(w, s, l.n, replica, token);
    } else {
      assert Step(w, s, l).value.lists == s.lists;
    }
  }

  lemma StepKeepsSettled(w: World, s: State, l: Label, replica: nat, token: string)
    requires RevocationsOk(w, s) && Step(w, s, l).Some? && Settled(w, s, replica, token)
    ensures Settled(w, Step(w, s, l).value, replica, token)
  {
    StepIsOnward(w, s, l);
    if token in List(s, replica) && ExpiryOf(w, token) >= s.clock {
      ListKeepsLive(w, s, l, replica, token);
    }
  }

  /** All that a step can do to a revocation: check its token, stamp it, or commit it. */
  ghost predicate RevokingMoved(w: World, s: State, t: State, n: nat)
    requires n in t.revokings
  {
    var f := t.revokings[n];
    if n !in s.revokings then f.phase.Checked? || (f.reading == s.clock && f.phase.Ended? && !Active(w, f.replica, f.token, s.clock))
    else
      var e := s.revokings[n];
      || f == e
      || f == e.(phase := Stamped(s.clock))
      || (f.replica == e.replica && f.token == e.token && f.phase.Ended? && (f.phase.ok ==> f.token in List(t, f.replica)))
  }

  lemma RevokingMoves(w: World, s: State, l: Label, n: nat)
    requires Step(w, s, l).Some? && n in Step(w, s, l).value.revokings
    ensures RevokingMoved(w, s, Step(w, s, l).value, n)
  {
    if !l.Check? && !l.Restamp? && !l.Commit? {
      assert Step(w, s, l).value.revokings == s.revokings;
    }
  }

  lemma MoveKeepsRevoking(w: World, s: State, t: State, n: nat)
    requires s.clock <= t.clock && n in t.revokings && RevokingMoved(w, s, t, n)
    requires n in s.revokings ==> RevokingOk(w, s, n)
    requires var q := t.revokings[n]; Settled(w, s, q.replica, q.token) ==> Settled(w, t, q.replica, q.token)
    ensures RevokingOk(w, t, n)
  {
  }

  lemma StepKeepsRevoking(w: World, s: State, l: Label, n: nat)
    requires RevocationsOk(w, s) && Step(w, s, l).Some? && n in Step(w, s, l).value.revokings
    requires s.clock <= Step(w, s, l).value.clock
    ensures RevokingOk(w, Step(w, s, l).value, n)
  {
    var s' := Step(w, s, l).value;
    var q := s'.revokings[n];
    RevokingMoves(w, s, l, n);
    if Settled(w, s, q.replica, q.token) {
      StepKeepsSettled(w, s, l, q.replica, q.token);
    }
    MoveKeepsRevoking(w, s, s', n);
  }

  lemma StepKeepsRevoked(w: World, s: State, l: Label, replica: nat, token: string)
    requires Step(w, s, l).Some? && Revoked(s, replica, token)
    ensures Revoked(Step(w, s, l).value, replica, token)
  {
    var n :| n in s.revokings && s.revokings[n].replica == replica && s.revokings[n].token == token && s.revokings[n].phase == Ended(true);
    assert n in Step(w, s, l).value.revokings && Step(w, s, l).value.revokings[n] == s.revokings[n];
  }

  lemma StepKeepsEntry(w: World, s: State, l: Label, replica: nat, token: string)
    requires EntryOk(w, s, replica, token) && Step(w, s, l).Some?
    ensures EntryOk(w, Step(w, s, l).value, replica, token)
  {
    var s' := Step(w, s, l).value;
    if token in List(s', replica) {
      if token in List(s, replica) {
        StepKeepsRevoked(w, s, l, replica, token);
      } else {
        assert l.Commit? && s'.revokings[l.n].token == token;
      }
    }
  }

  lemma StepKeepsListSize(w: World, s: State, l: Label, replica: nat)
    requires |List(s, replica)| <= w.cfg(replica).maxSeen && Step(w, s, l).Some?
    ensures |List(Step(w, s, l).value, replica)| <= w.cfg(replica).maxSeen
  {
    if l.Answer? {
      PurgeIsSmaller(List(s, replica), s.lookups[l.n].reading);
    } else if l.Commit? {
      var q := s.revokings[l.n];
      EnlistMeaning(List(s, replica), q.token, ExpiryOf(w, q.token), q.phase.now, w.cfg(replica).maxSeen);
    }
  }

  lemma StepKeepsLookup(w: World, s: State, l: Label, n: nat)
    requires Step(w, s, l).Some? && n in Step(w, s, l).value.lookups
    requires n in s.lookups ==> LookupOk(w, s, n)
    ensures LookupOk(w, Step(w, s, l).value, n)
  {
  }

  lemma StepKeepsRevocations(w: World, s: State, l: Label)
    requires RevocationsOk(w, s) && Step(w, s, l).Some?
    ensures RevocationsOk(w, Step(w, s, l).value)
  {
    var s' := Step(w, s, l).value;
    forall n | n in s'.revokings
      ensures RevokingOk(w, s', n)
    {
      StepKeepsRevoking(w, s, l, n);
    }
    forall n | n in s'.lookups
      ensures LookupOk(w, s', n)
    {
      StepKeepsLookup(w, s, l, n);
    }
    forall r: nat, t
      ensures EntryOk(w, s', r, t)
    {
      StepKeepsEntry(w, s, l, r, t);
    }
    forall r: nat
      ensures |List(s', r)| <= w.cfg(r).maxSeen
    {
      StepKeepsListSize(w, s, l, r);
    }
    StepIsOnward(w, s, l);
  }

  // ---------------------------------------------------------------- callers of the online endpoints

  /** Only callers whose assertion was recorded are served. */
  ghost predicate CallersAuthenticated(s: State) {
    forall n :: n in s.lookups || n in s.revokings ==> Spent(s, Protocol.Online(n))
  }

  lemma NewlyServed(w: World, s: State, l: Label, n: nat)
    requires Step(w, s, l).Some? && n !in s.lookups && n !in s.revokings
    requires n in Step(w, s, l).value.lookups || n in Step(w, s, l).value.revokings
    ensures Spent(s, Protocol.Online(n))
  {
  }

  lemma StepKeepsCallers(w: World, s: State, l: Label)
    requires CallersAuthenticated(s) && Step(w, s, l).Some?
    ensures CallersAuthenticated(Step(w, s, l).value)
  {
    var s' := Step(w, s, l).value;
    StepIsOnward(w, s, l);
    forall n | n in s'.lookups || n in s'.revokings
      ensures Spent(s', Protocol.Online(n))
    {
      if n !in s.lookups && n !in s.revokings {
        NewlyServed(w, s, l, n);
      }
    }
  }

  // ---------------------------------------------------------------- runs

  /** What holds after every run. */
  ghost predicate Safe(w: World, s: State, x: nat, i: nat, y: nat, j: nat, key: string, exp: int) {
    ExchangesOk(w, s) && RevocationsOk(w, s) && CallersAuthenticated(s) && LaterIsDead(s, x, i, y, j, key, exp)
  }

  lemma {:induction false} RunKeeps(w: World, s0: State, run: seq<Label>, x: nat, i: nat, y: nat, j: nat, key: string, exp: int)
    requires Initial(s0) && Exec(w, s0, run).Some?
    ensures Safe(w, Exec(w, s0, run).value, x, i, y, j, key, exp)
  {
    if run == [] {
      assert Protocol.Exec(w.lim, s0.proto, []) == Some(s0.proto);
    } else {
      var before, last := run[..|run| - 1], run[|run| - 1];
      RunKeeps(w, s0, before, x, i, y, j, key, exp);
      var s := Exec(w, s0, before).value;
      StepKeepsExchanges(w, s, last);
      StepKeepsRevocations(w, s, last);
      StepKeepsCallers(w, s, last);
      StepKeepsLater(w, s, last, x, i, y, j, key, exp);
    }
  }
}
