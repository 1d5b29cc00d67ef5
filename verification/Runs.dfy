/** The main results about whole runs of the service. */
module Runs {
  import opened Prelude
  import opened Exchange
  import opened Genuine
  import opened Minting
  import opened Admission
  import opened Dpop
  import opened Server
  import opened ServerSafety
  import Protocol = ReplayProtocol
  import Form

  lemma ReachableIsSafe(w: World, s: State)
    requires Reachable(w, s)
    ensures ExchangesOk(w, s)
    ensures RevocationsOk(w, s)
  {
    var s0, run :| Initial(s0) && Exec(w, s0, run) == Some(s);
    RunKeeps(w, s0, run, 0, 0, 0, 0, "", 0);
  }

  lemma ReachableRevocations(w: World, s: State)
    requires Reachable(w, s)
    ensures RevocationsOk(w, s)
  {
    ReachableIsSafe(w, s);
  }

  /** The string is the token that exchange `x` has issued. */
  ghost predicate TokenOf(w: World, s: State, x: nat, token: string) {
    && x in s.exchanges && s.exchanges[x].issued.Some?
    && w.decode(token) == Some(Sign(w.cfg(s.exchanges[x].replica), s.exchanges[x].issued.value.claims))
  }

  // ---------------------------------------------------------------- one credential, one timely token

  /** Of two tokens that share any credential, the later is issued only after the credential has expired. */
  lemma SharedCredentialHasExpired(w: World, s: State, x: nat, i: nat, y: nat, j: nat, key: string, exp: int)
    requires Reachable(w, s) && Share(s, x, i, y, j, key, exp) && NoneEarlier(s, key, exp)
    ensures s.exchanges[x].issued.value.at > exp || s.exchanges[y].issued.value.at > exp
  {
    var s0, run :| Initial(s0) && Exec(w, s0, run) == Some(s);
    RunKeeps(w, s0, run, x, i, y, j, key, exp);
  }

  /** An exchange past its gates records exactly what its request presents. */
  lemma RecordsWhatIsPresented(w: World, s: State, x: nat)
    requires ValidWorld(w) && ExchangesOk(w, s) && x in s.exchanges
    ensures s.exchanges[x].prepared.creds == PresentedBy(w.cfg(s.exchanges[x].replica), w.env, s.exchanges[x].req)
  {
    var e := s.exchanges[x];
    assert ExchangeOk(w, s, x);
    PassesExactlyWhen(w.cfg(e.replica), w.env, e.req, e.times);
  }

  /** A proof that decodes is the last credential presented. */
  lemma ProofIsLast(sts: Sts, env: Env, req: HttpRequest, proof: string)
    requires Form.Parse(req.items).Ok? && req.dpop == [proof] && ProofPart(sts, env, [proof]) != []
    ensures var creds := PresentedBy(sts, env, req); creds != [] && creds[|creds| - 1] == ProofPart(sts, env, [proof])[0]
  {
  }

  /** From its issue on, the `iat` of the proof is outside the window. */
  ghost predicate IssuedLate(s: State, x: nat, iat: I64, leeway: I64)
    requires x in s.exchanges && s.exchanges[x].issued.Some?
  {
    forall now: I64 :: s.exchanges[x].issued.value.at <= now ==> !IatAccepted(iat, now, leeway)
  }

  lemma LateAfterExpiry(s: State, x: nat, iat: I64, leeway: I64)
    requires x in s.exchanges && s.exchanges[x].issued.Some? && s.exchanges[x].issued.value.at > SaturatingAdd(iat, Window(leeway))
    ensures IssuedLate(s, x, iat, leeway)
  {
    forall now: I64 | s.exchanges[x].issued.value.at <= now
      ensures !IatAccepted(iat, now, leeway)
    {
      EntryCoversWindow(iat, now, leeway);
    }
  }

  /** The token of `x` was issued on a request that carried this proof, at a replica that allows at least this leeway. */
  ghost predicate IssuedOnProof(w: World, s: State, x: nat, proof: string, leeway: I64) {
    && x in s.exchanges && s.exchanges[x].issued.Some? && s.exchanges[x].req.dpop == [proof]
    && Form.Parse(s.exchanges[x].req.items).Ok? && w.cfg(s.exchanges[x].replica).leeway >= leeway
  }

  /**
   * In every run, of two tokens issued on one DPoP proof the later is issued when the proof's `iat` is out of its window,
   * as the replica with the smaller leeway sees it.
   */
  lemma OneProofOneTimelyToken(w: World, s: State, x: nat, y: nat, proof: string, leeway: I64, iat: I64)
    requires ValidWorld(w) && Reachable(w, s) && x != y
    requires IssuedOnProof(w, s, x, proof, leeway) && IssuedOnProof(w, s, y, proof, leeway)
    requires w.env.proof(proof).Some? && w.env.proof(proof).value.2 == Some(iat)
    requires NoneEarlier(s, "dpop:" + w.env.digest(w.env.proof(proof).value.0, w.env.proof(proof).value.1), SaturatingAdd(iat, Window(leeway)))
    ensures IssuedLate(s, x, iat, leeway) || IssuedLate(s, y, iat, leeway)
  {
    var key, exp := "dpop:" + w.env.digest(w.env.proof(proof).value.0, w.env.proof(proof).value.1), SaturatingAdd(iat, Window(leeway));
    var i := ProofSlot(w, s, x, proof, leeway, iat, key, exp);
    var j := ProofSlot(w, s, y, proof, leeway, iat, key, exp);
    SharedCredentialHasExpired(w, s, x, i, y, j, key, exp);
    if s.exchanges[x].issued.value.at > exp {
      LateAfterExpiry(s, x, iat, leeway);
    } else {
      LateAfterExpiry(s, y, iat, leeway);
    }
  }

  lemma ProofSlot(w: World, s: State, x: nat, proof: string, leeway: I64, iat: I64, key: string, exp: int) returns (i: nat)
    requires ValidWorld(w) && Reachable(w, s) && IssuedOnProof(w, s, x, proof, leeway)
    requires w.env.proof(proof).Some? && w.env.proof(proof).value.2 == Some(iat)
    requires key == "dpop:" + w.env.digest(w.env.proof(proof).value.0, w.env.proof(proof).value.1) && exp == SaturatingAdd(iat, Window(leeway))
    ensures Bears(s, x, i, key, exp)
  {
    ReachableIsSafe(w, s);
    var e := s.exchanges[x];
    RecordsWhatIsPresented(w, s, x);
    ProofIsLast(w.cfg(e.replica), w.env, e.req, proof);
    i := |e.prepared.creds| - 1;
  }

  // ---------------------------------------------------------------- online calls

  /** The call of an online endpoint was served, and its client assertion has this key and this expiry or a later one. */
  ghost predicate ServedOnline(s: State, n: nat, key: string, exp: int) {
    && (n in s.lookups || n in s.revokings) && Protocol.Online(n) in s.proto.attempts
    && s.proto.attempts[Protocol.Online(n)].key == key && s.proto.attempts[Protocol.Online(n)].exp >= exp
  }

  /** Introspection and revocation serve recorded callers only, and one client assertion once until it expires. */
  lemma OneAssertionOneOnlineCall(w: World, s: State, m: nat, n: nat, key: string, exp: int)
    requires Reachable(w, s) && NoneEarlier(s, key, exp) && ServedOnline(s, m, key, exp) && ServedOnline(s, n, key, exp)
    ensures Spent(s, Protocol.Online(m)) && Spent(s, Protocol.Online(n)) && (m == n || s.clock > exp)
  {
    ReachableIsSafe(w, s);
    var s0, run :| Initial(s0) && Exec(w, s0, run) == Some(s);
    RunKeeps(w, s0, run, 0, 0, 0, 0, "", 0);
    if m != n && s.clock <= exp {
      Protocol.AtMostOneAccepted(w.lim, s.proto, key, exp, Protocol.Online(m), Protocol.Online(n));
    }
  }

  // ---------------------------------------------------------------- one assertion, one live token

  /** An introspection made after the token of `x` was issued has reported it active. */
  ghost predicate ReportedActive(w: World, s: State, n: nat, x: nat) {
    && n in s.lookups && s.lookups[n].answer == Some(true)
    && TokenOf(w, s, x, s.lookups[n].token) && s.exchanges[x].issued.value.at <= s.lookups[n].reading
  }

  /** The exchange records this credential first, and its token does not outlive it. */
  ghost predicate LeadsWith(p: Prepared, key: string, exp: int) {
    p.creds != [] && p.creds[0].key == key && p.creds[0].exp == exp && p.assertionExp == exp
  }

  lemma ReportedBeforeExpiry(w: World, s: State, n: nat, x: nat, key: string, exp: int)
    requires ExchangesOk(w, s) && RevocationsOk(w, s)
    requires ReportedActive(w, s, n, x) && LeadsWith(s.exchanges[x].prepared, key, exp)
    ensures s.exchanges[x].issued.value.at < exp
  {
    assert ExchangeOk(w, s, x) && LookupOk(w, s, n);
  }

  /**
   * However the steps of all exchanges and store calls interleave, the tokens issued on one primary credential that
   * introspection ever reports active are all one token.
   */
  lemma OneLiveToken(w: World, s: State, x: nat, y: nat, key: string, exp: int, m: nat, n: nat)
    requires Reachable(w, s) && NoneEarlier(s, key, exp)
    requires ReportedActive(w, s, m, x) && LeadsWith(s.exchanges[x].prepared, key, exp)
    requires ReportedActive(w, s, n, y) && LeadsWith(s.exchanges[y].prepared, key, exp)
    ensures x == y
  {
    ReachableIsSafe(w, s);
    ReportedBeforeExpiry(w, s, m, x, key, exp);
    ReportedBeforeExpiry(w, s, n, y, key, exp);
    if x != y {
      SharedCredentialHasExpired(w, s, x, 0, y, 0, key, exp);
    }
  }

  /** The request identifies its caller, in this mode, with this assertion. */
  ghost predicate Presents(sts: Sts, req: HttpRequest, mode: EffectiveMode, assertion: string) {
    && Form.Parse(req.items).Ok?
    && mode == ModeOf(sts, Form.Parse(req.items).value)
    && CallerToken(Form.Parse(req.items).value, mode) == Some(assertion)
  }

  ghost function PrimaryCredential(env: Env, mode: EffectiveMode, assertion: string): Option<Credential> {
    var j := env.assertion(assertion);
    if j.None? then None
    else if mode.Impersonation? then Some(ClientCredential(j.value.claims))
    else if j.value.claims.jti.None? then None
    else Some(ActorCredential(j.value.claims))
  }

  /** Who may call in this mode: the actors, or the clients that have an impersonation policy. */
  ghost function Callers(sts: Sts, mode: EffectiveMode): set<string> {
    if mode.Delegation? then sts.actorIds else sts.clientIds * sts.impersonation.Keys
  }

  ghost predicate Registered(sts: Sts, env: Env, mode: EffectiveMode, assertion: string) {
    env.assertion(assertion).Some? && env.assertion(assertion).value.claims.sub in Callers(sts, mode)
  }

  /** What is recorded first is determined by the mode and the assertion alone. */
  ghost predicate IsPrimary(sts: Sts, env: Env, mode: EffectiveMode, assertion: string, p: Prepared) {
    var c := PrimaryCredential(env, mode, assertion);
    c.Some? && LeadsWith(p, c.value.key, c.value.exp) && Registered(sts, env, mode, assertion)
  }

  lemma ActorIsPrimary(sts: Sts, env: Env, form: Form.TokenForm, p: Prepared, c: MintedClaims, now: int, assertion: string)
    requires ActorBacks(sts, env, form, p, c, now) && form.Get(Form.ActorToken) == Some(assertion)
    ensures IsPrimary(sts, env, Delegation, assertion, p)
  {
  }

  lemma ClientIsPrimary(sts: Sts, env: Env, form: Form.TokenForm, p: Prepared, c: MintedClaims, now: int, assertion: string)
    requires ClientBacks(sts, env, form, p, c, now) && form.Get(Form.ClientAssertion) == Some(assertion)
    ensures IsPrimary(sts, env, Impersonation, assertion, p)
  {
  }

  lemma BackedIsPrimary(sts: Sts, env: Env, form: Form.TokenForm, dpop: seq<string>, at: Times, p: Prepared, c: MintedClaims, mode: EffectiveMode, assertion: string)
    requires Backed(sts, env, form, dpop, at, p, c) && mode == ModeOf(sts, form) && CallerToken(form, mode) == Some(assertion)
    ensures IsPrimary(sts, env, mode, assertion, p)
  {
    if mode.Delegation? {
      ActorIsPrimary(sts, env, form, p, c, at.actor, assertion);
    } else {
      ClientIsPrimary(sts, env, form, p, c, at.client, assertion);
    }
  }

  lemma FormIsPrimary(sts: Sts, env: Env, form: Form.TokenForm, dpop: seq<string>, at: Times, p: Prepared, mode: EffectiveMode, assertion: string)
    requires PrepareForm(sts, env, form, dpop, at) == Ok(p)
    requires mode == ModeOf(sts, form) && CallerToken(form, mode) == Some(assertion)
    ensures IsPrimary(sts, env, mode, assertion, p)
  {
    PrepareFormIsBacked(sts, env, form, dpop, at, 0, "");
    BackedIsPrimary(sts, env, form, dpop, at, p, Mint(sts, p, 0, ""), mode, assertion);
  }

  lemma AssertionIsPrimary(sts: Sts, env: Env, req: HttpRequest, at: Times, p: Prepared, mode: EffectiveMode, assertion: string)
    requires Prepare(sts, env, req, at) == Ok(p) && Presents(sts, req, mode, assertion)
    ensures IsPrimary(sts, env, mode, assertion, p)
  {
    PreparedFromForm(sts, env, req, at, p);
    FormIsPrimary(sts, env, Form.Parse(req.items).value, req.dpop, at, p, mode, assertion);
  }

  ghost predicate ServedAssertion(w: World, e: Ongoing, mode: EffectiveMode, assertion: string) {
    Presents(w.cfg(e.replica), e.req, mode, assertion)
  }

  lemma ServedIsPrimary(w: World, s: State, x: nat, mode: EffectiveMode, assertion: string)
    requires ValidWorld(w) && ExchangesOk(w, s) && x in s.exchanges && ServedAssertion(w, s.exchanges[x], mode, assertion)
    ensures IsPrimary(w.cfg(s.exchanges[x].replica), w.env, mode, assertion, s.exchanges[x].prepared)
  {
    var e := s.exchanges[x];
    assert ExchangeOk(w, s, x);
    AssertionIsPrimary(w.cfg(e.replica), w.env, e.req, e.times, e.prepared, mode, assertion);
  }

  /** The assertion's subject is not an actor at one replica and a client with an impersonation policy at another or the same. */
  ghost predicate OneRole(w: World, assertion: string) {
    w.env.assertion(assertion).Some? ==>
      var sub := w.env.assertion(assertion).value.claims.sub;
      forall r: nat, r': nat :: sub in Callers(w.cfg(r), Delegation) ==> sub !in Callers(w.cfg(r'), Impersonation)
  }

  /**
   * One assertion yields at most one token that introspection ever reports active, in every concurrent run and although
   * assertions stay acceptable for a leeway after they expire, if it is used in one mode or its subject has one role.
   */
  lemma OneAssertionOneLiveToken(w: World, s: State, assertion: string, k: EffectiveMode, l: EffectiveMode, x: nat, y: nat, m: nat, n: nat)
    requires ValidWorld(w) && Reachable(w, s) && (k == l || OneRole(w, assertion))
    requires ReportedActive(w, s, m, x) && ServedAssertion(w, s.exchanges[x], k, assertion)
    requires ReportedActive(w, s, n, y) && ServedAssertion(w, s.exchanges[y], l, assertion)
    requires var c := PrimaryCredential(w.env, k, assertion); c.Some? ==> NoneEarlier(s, c.value.key, c.value.exp)
    ensures x == y
  {
    ReachableIsSafe(w, s);
    ServedIsPrimary(w, s, x, k, assertion);
    ServedIsPrimary(w, s, y, l, assertion);
    assert k == l;
    var c := PrimaryCredential(w.env, k, assertion).value;
    OneLiveToken(w, s, x, y, c.key, c.exp, m, n);
  }

  // ---------------------------------------------------------------- an issued token's credentials are on record

  /** The store still holds the credential: in memory with its expiry, on disk as the file that this exchange created. */
  ghost predicate Holds(s: State, x: nat, i: nat, c: Credential) {
    match s.proto.backend
    case Memory(store) => c.key in store.entries && store.entries[c.key] == c.exp
    case Files(dir, _) => c.key in dir && dir[c.key] == Protocol.Credential(x, i)
  }

  /** Whatever else runs, every credential behind an issued token stays on record until it expires. */
  lemma CredentialsStayRecorded(w: World, s: State, x: nat, i: nat)
    requires Reachable(w, s) && x in s.exchanges && s.exchanges[x].issued.Some? && i < |s.exchanges[x].prepared.creds|
    requires var c := s.exchanges[x].prepared.creds[i]; s.clock <= c.exp && NoneEarlier(s, c.key, c.exp)
    ensures Holds(s, x, i, s.exchanges[x].prepared.creds[i])
  {
    ReachableIsSafe(w, s);
    var c, a := s.exchanges[x].prepared.creds[i], Protocol.Credential(x, i);
    assert ExchangeOk(w, s, x) && Spent(s, a) && SlotOk(s, x, i);
    var p0, run :| Protocol.Initial(p0) && Protocol.Exec(w.lim, p0, run) == Some(s.proto);
    Protocol.RunKeepsHeld(w.lim, p0, run, c.key, c.exp);
    assert Protocol.Quiet(s.proto, c.key, c.exp) && Protocol.AcceptedFor(s.proto, a, c.key, c.exp);
  }

  // ---------------------------------------------------------------- revocation is permanent

  /** Lookup `m` is about to answer about the token that revocation `n` has been told is revoked. */
  ghost predicate AsksAfter(w: World, s: State, n: nat, m: nat) {
    && n in s.revokings && s.revokings[n].phase == Ended(true)
    && m in s.lookups && s.lookups[m].answer.None?
    && s.lookups[m].replica == s.revokings[n].replica && s.lookups[m].token == s.revokings[n].token
  }

  /** What introspection `m` answers if it answers now. */
  ghost function AnswerNow(w: World, s: State, m: nat): Option<bool> {
    var t := Step(w, s, Answer(m));
    if t.None? || m !in t.value.lookups then None else t.value.lookups[m].answer
  }

  /**
   * After a revocation has returned 200, introspection at the same process answers "active" only if it read the clock
   * before the token's expiry and answers at or after it. One that reads the clock as it answers never does.
   */
  lemma RevocationIsPermanent(w: World, s: State, n: nat, m: nat)
    requires Reachable(w, s) && AsksAfter(w, s, n, m) && Timely(w, s.revokings[n])
    ensures AnswerNow(w, s, m).Some?
    ensures AnswerNow(w, s, m) == Some(true) ==> s.lookups[m].reading < ExpiryOf(w, s.lookups[m].token) <= s.clock
    ensures s.lookups[m].reading == s.clock ==> AnswerNow(w, s, m) == Some(false)
  {
    ReachableIsSafe(w, s);
    var q := s.revokings[n];
    assert RevokingOk(w, s, n) && EntryOk(w, s, q.replica, q.token);
  }

  /** The same for a token of this run, when the revocation was asked for after the token was issued. */
  lemma IssuedTokenStaysRevoked(w: World, s: State, x: nat, n: nat, m: nat)
    requires ValidWorld(w) && Reachable(w, s) && AsksAfter(w, s, n, m)
    requires TokenOf(w, s, x, s.revokings[n].token) && s.exchanges[x].issued.value.at <= s.revokings[n].reading
    requires s.lookups[m].reading == s.clock
    ensures AnswerNow(w, s, m) == Some(false)
  {
    ReachableIsSafe(w, s);
    assert ExchangeOk(w, s, x) && ValidConfig(w.cfg(s.revokings[n].replica));
    RevocationIsPermanent(w, s, n, m);
  }

  // ---------------------------------------------------------------- every issued token is sound

  /** What stands behind the token of an exchange: genuine inputs, policy, and a lifetime within every bound. */
  ghost predicate Sound(w: World, e: Ongoing, c: MintedClaims) {
    var sts := w.cfg(e.replica);
    && Form.Parse(e.req.items).Ok?
    && Backed(sts, w.env, Form.Parse(e.req.items).value, e.req.dpop, e.times, e.prepared, c)
    && Capped(sts, w.env, Form.Parse(e.req.items).value, c)
    && c.iss == sts.issuer && Some(c.iat) == e.now
  }

  lemma MintedIsSound(w: World, e: Ongoing, now: int, jti: string)
    requires ValidWorld(w) && w.gates(e.replica, e.req, e.times) == Ok(e.prepared) && e.now == Some(now)
    ensures Sound(w, e, Mint(w.cfg(e.replica), e.prepared, now, jti))
  {
    MintSound(w.cfg(e.replica), w.env, e.req, e.times, now, jti);
  }

  /** Every token that any replica has issued in any run is backed by what its request presented and by policy. */
  lemma IssuedTokenIsSound(w: World, s: State, x: nat)
    requires ValidWorld(w) && Reachable(w, s) && x in s.exchanges && s.exchanges[x].issued.Some?
    ensures Sound(w, s.exchanges[x], s.exchanges[x].issued.value.claims)
  {
    ReachableIsSafe(w, s);
    var e := s.exchanges[x];
    assert ExchangeOk(w, s, x);
    MintedIsSound(w, e, e.now.value, e.issued.value.claims.jti);
  }

  // ---------------------------------------------------------------- an issued token is reported active

  lemma IssuedIsActive(w: World, e: Ongoing, later: Sts, n: int)
    requires ValidWorld(w) && w.gates(e.replica, e.req, e.times) == Ok(e.prepared)
    requires StillServes(w.cfg(e.replica), later) && e.now.Some? && e.issued.Some?
    requires e.issued.value.claims == Mint(w.cfg(e.replica), e.prepared, e.now.value, e.issued.value.claims.jti)
    requires e.now.value <= n < e.issued.value.claims.exp
    ensures ActiveAt(later, Sign(w.cfg(e.replica), e.issued.value.claims), n)
  {
    MintedIsActive(w.cfg(e.replica), later, w.env, e.req, e.times, e.now.value, e.issued.value.claims.jti, n);
  }

  lemma TokenIsActive(w: World, s: State, x: nat, token: string, r: nat, n: int)
    requires ValidWorld(w) && Reachable(w, s) && TokenOf(w, s, x, token)
    requires StillServes(w.cfg(s.exchanges[x].replica), w.cfg(r))
    requires s.exchanges[x].issued.value.claims.iat <= n < s.exchanges[x].issued.value.claims.exp
    ensures Active(w, r, token, n)
  {
    ReachableIsSafe(w, s);
    assert ExchangeOk(w, s, x);
    IssuedIsActive(w, s.exchanges[x], w.cfg(r), n);
  }

  lemma ListDecides(w: World, s: State, m: nat)
    requires RevocationsOk(w, s) && m in s.lookups && s.lookups[m].answer.None?
    requires Active(w, s.lookups[m].replica, s.lookups[m].token, s.lookups[m].reading)
    ensures AnswerNow(w, s, m) == Some(s.lookups[m].token !in List(s, s.lookups[m].replica))
  {
    assert EntryOk(w, s, s.lookups[m].replica, s.lookups[m].token);
  }

  /**
   * Any process that still publishes the signing key reports an issued token active between its `iat` and its `exp`,
   * unless the token stands in that process's list, and it stands there only if a revocation there returned 200.
   */
  lemma IssuedTokenIsReported(w: World, s: State, x: nat, m: nat)
    requires ValidWorld(w) && Reachable(w, s) && m in s.lookups && s.lookups[m].answer.None?
    requires TokenOf(w, s, x, s.lookups[m].token)
    requires StillServes(w.cfg(s.exchanges[x].replica), w.cfg(s.lookups[m].replica))
    requires s.exchanges[x].issued.value.claims.iat <= s.lookups[m].reading < s.exchanges[x].issued.value.claims.exp
    ensures var q := s.lookups[m];
      && AnswerNow(w, s, m) == Some(q.token !in List(s, q.replica))
      && (!Revoked(s, q.replica, q.token) ==> AnswerNow(w, s, m) == Some(true))
  {
    var q := s.lookups[m];
    TokenIsActive(w, s, x, q.token, q.replica, q.reading);
    ReachableRevocations(w, s);
    ListDecides(w, s, m);
    assert EntryOk(w, s, q.replica, q.token);
  }

  // ---------------------------------------------------------------- and nothing else is

  /** Whatever introspection has reported active in a run is a token of the process's own, within its time. */
  lemma ReportedIsOurs(w: World, s: State, n: nat)
    requires Reachable(w, s) && n in s.lookups && s.lookups[n].answer == Some(true)
    ensures var q := s.lookups[n];
      && w.decode(q.token).Some? && Ours(w.cfg(q.replica), w.decode(q.token).value)
      && w.decode(q.token).value.claims.iat - w.cfg(q.replica).leeway <= q.reading < w.decode(q.token).value.claims.exp
  {
    ReachableRevocations(w, s);
    assert LookupOk(w, s, n);
    ActiveExactlyWhen(w.cfg(s.lookups[n].replica), w.decode(s.lookups[n].token).value, s.lookups[n].reading);
  }

  /** A token that was signed with no key the process publishes is never answered active. */
  lemma ForgedIsNeverActive(w: World, s: State, n: nat)
    requires n in s.lookups && s.lookups[n].answer.None? && w.decode(s.lookups[n].token).Some?
    requires var sts := w.cfg(s.lookups[n].replica);
      forall k :: k in [sts.signer] + sts.extraKeys ==> k.key != w.decode(s.lookups[n].token).value.signer
    ensures AnswerNow(w, s, n) == Some(false)
  {
    var q := s.lookups[n];
    ActiveExactlyWhen(w.cfg(q.replica), w.decode(q.token).value, q.reading);
    assert !Active(w, q.replica, q.token, q.reading);
  }

  /** No process's revocation list outgrows its bound. */
  lemma RevocationListsAreBounded(w: World, s: State, r: nat)
    requires Reachable(w, s)
    ensures |List(s, r)| <= w.cfg(r).maxSeen
  {
    ReachableIsSafe(w, s);
  }
}
