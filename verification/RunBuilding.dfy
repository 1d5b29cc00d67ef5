/** Runs of the service in which nothing gets in the way: attempts that are accepted, exchanges that issue, callers that are let in. */
module RunBuilding {
  import opened Prelude
  import opened Text
  import opened ReplayStore
  import opened Exchange
  import opened Recording
  import opened Server
  import Protocol = ReplayProtocol

  // ---------------------------------------------------------------- one attempt

  ghost function Names(b: Protocol.Backend): set<string> {
    match b
    case Memory(store) => store.entries.Keys
    case Files(dir, _) => dir.Keys
  }

  /** The key is not on record or, on disk, its file has expired. */
  ghost predicate Free(b: Protocol.Backend, key: string, now: int) {
    key !in Names(b) || Protocol.Expired(b, key, now)
  }

  ghost predicate Clear(lim: Limits, b: Protocol.Backend, key: string, now: int) {
    !Blank(key) && Free(b, key, now) && |Names(b)| < lim.maxSeen
  }

  /** On disk, the key's file is in place and holds this expiry. */
  ghost predicate Written(b: Protocol.Backend, key: string, exp: int) {
    b.Files? ==> key in b.dir && b.dir[key] in b.content && b.content[b.dir[key]] == Some(exp)
  }

  /** Every file was created by an attempt. */
  ghost predicate Owned(p: Protocol.State) {
    p.backend.Files? ==> forall k :: k in p.backend.dir ==> p.backend.dir[k] in p.attempts
  }

  /** Attempt `a` has been accepted, and nothing else has happened but that its key is on record now. */
  ghost predicate Recorded(p: Protocol.State, q: Protocol.State, a: Protocol.Id, key: string, exp: int, now: int) {
    && q.attempts == p.attempts[a := Protocol.Attempt(key, exp, now, Protocol.Done(Accepted))]
    && q.backend.Files? == p.backend.Files? && Names(q.backend) <= Names(p.backend) + {key}
    && (p.backend.Files? ==> q.backend == Protocol.Files(p.backend.dir[key := a], p.backend.content[a := Some(exp)]))
  }

  /** What it leaves as it was. */
  lemma RecordedKeeps(p: Protocol.State, q: Protocol.State, a: Protocol.Id, key: string, exp: int, now: int, k: string, e: int, m: int)
    requires Recorded(p, q, a, key, exp, now) && Owned(p) && a !in p.attempts
    ensures Owned(q) && Written(q.backend, key, exp)
    ensures k != key && Written(p.backend, k, e) ==> Written(q.backend, k, e)
    ensures k != key && Free(p.backend, k, m) ==> Free(q.backend, k, m)
  {
  }

  lemma StoreStepLeads(w: World, s: State, l: Protocol.Label, p: Protocol.State, q: Protocol.State)
    requires !l.Enter? && Protocol.Step(w.lim, p, l) == Some(q)
    ensures Leads(w, s.(proto := p), s.(proto := q))
  {
    LeadsByStep(w, s.(proto := p), Label.Store(l), s.(proto := q));
  }

  /** The attempt `u` at `pc`, over the directory `b`. */
  ghost function At(p: Protocol.State, a: Protocol.Id, u: Protocol.Attempt, b: Protocol.Backend, pc: Protocol.Pc): Protocol.State {
    Protocol.State(b, p.attempts[a := u.(pc := pc)])
  }

  lemma StepOnDisk(lim: Limits, p: Protocol.State, a: Protocol.Id, u: Protocol.Attempt, b: Protocol.Backend, pc: Protocol.Pc)
    requires b.Files? && !pc.Done?
    ensures Protocol.Step(lim, At(p, a, u, b, pc), Protocol.Go(a)) ==
      Some(At(p, a, u, Protocol.NextFiles(b, a, u.(pc := pc)), Protocol.NextPc(lim, b, u.(pc := pc))))
  {
    var s := At(p, a, u, b, pc);
    var next := u.(pc := Protocol.NextPc(lim, b, u.(pc := pc)));
    assert s.attempts[a := next] == p.attempts[a := next];
  }

  lemma GoFurther(w: World, s: State, a: Protocol.Id, u: Protocol.Attempt, b: Protocol.Backend, pc: Protocol.Pc)
    requires b.Files? && !pc.Done? && Leads(w, s, s.(proto := At(s.proto, a, u, b, pc)))
    ensures Leads(w, s, s.(proto := At(s.proto, a, u, Protocol.NextFiles(b, a, u.(pc := pc)), Protocol.NextPc(w.lim, b, u.(pc := pc)))))
  {
    var p, q := At(s.proto, a, u, b, pc), At(s.proto, a, u, Protocol.NextFiles(b, a, u.(pc := pc)), Protocol.NextPc(w.lim, b, u.(pc := pc)));
    StepOnDisk(w.lim, s.proto, a, u, b, pc);
    StoreStepLeads(w, s, Protocol.Go(a), p, q);
    LeadsOn(w, s, s.(proto := p), s.(proto := q));
  }

  /** From entering to the point of creating the file. */
  lemma GoToCreating(w: World, s: State, a: Protocol.Id) returns (b: Protocol.Backend)
    requires s.proto.backend.Files? && a in s.proto.attempts && s.proto.attempts[a].pc.Entered?
    requires Clear(w.lim, s.proto.backend, s.proto.attempts[a].key, s.proto.attempts[a].now)
    ensures b == Protocol.Files(s.proto.backend.dir - {s.proto.attempts[a].key}, s.proto.backend.content)
    ensures Leads(w, s, s.(proto := At(s.proto, a, s.proto.attempts[a], b, Protocol.Creating)))
  {
    var u, d := s.proto.attempts[a], s.proto.backend;
    assert |Names(d)| == |d.dir|;
    assert s == s.(proto := At(s.proto, a, u, d, Protocol.Entered));
    LeadsNowhere(w, s);
    GoFurther(w, s, a, u, d, Protocol.Entered);
    GoFurther(w, s, a, u, d, Protocol.Counting(false));
    GoFurther(w, s, a, u, d, Protocol.Counting(true));
    GoFurther(w, s, a, u, d, Protocol.Probing);
    b := Protocol.Files(d.dir - {u.key}, d.content);
    if Protocol.Expired(d, u.key, u.now) {
      GoFurther(w, s, a, u, d, Protocol.Unlinking);
    } else {
      assert d.dir - {u.key} == d.dir;
    }
  }

  lemma GoOnDisk(w: World, s: State, a: Protocol.Id) returns (q: Protocol.State)
    requires s.proto.backend.Files? && a in s.proto.attempts && s.proto.attempts[a].pc.Entered?
    requires Clear(w.lim, s.proto.backend, s.proto.attempts[a].key, s.proto.attempts[a].now)
    ensures Leads(w, s, s.(proto := q))
    ensures Recorded(s.proto, q, a, s.proto.attempts[a].key, s.proto.attempts[a].exp, s.proto.attempts[a].now)
  {
    var u, d := s.proto.attempts[a], s.proto.backend;
    var b := GoToCreating(w, s, a);
    GoFurther(w, s, a, u, b, Protocol.Creating);
    var c := Protocol.Files(b.dir[u.key := a], b.content[a := None]);
    GoFurther(w, s, a, u, c, Protocol.Writing);
    assert b.dir[u.key := a] == d.dir[u.key := a];
    assert c.content[a := Some(u.exp)] == d.content[a := Some(u.exp)];
    q := At(s.proto, a, u, c.(content := c.content[a := Some(u.exp)]), Protocol.Done(Accepted));
  }

  lemma GoInMemory(w: World, s: State, a: Protocol.Id) returns (q: Protocol.State)
    requires s.proto.backend.Memory? && a in s.proto.attempts && s.proto.attempts[a].pc.Entered?
    requires Clear(w.lim, s.proto.backend, s.proto.attempts[a].key, s.proto.attempts[a].now)
    ensures Leads(w, s, s.(proto := q))
    ensures Recorded(s.proto, q, a, s.proto.attempts[a].key, s.proto.attempts[a].exp, s.proto.attempts[a].now)
  {
    var u, store := s.proto.attempts[a], s.proto.backend.store;
    assert |Names(s.proto.backend)| == |store.entries|;
    PurgeIsSmaller(store.entries, u.now);
    SweepMeaning(w.lim, store, u.now);
    var swept := Sweep(w.lim, store, u.now);
    q := Protocol.State(Protocol.Memory(swept.(entries := swept.entries[u.key := u.exp])), s.proto.attempts[a := u.(pc := Protocol.Done(Accepted))]);
    StoreStepLeads(w, s, Protocol.Go(a), s.proto, q);
    assert s == s.(proto := s.proto);
  }

  ghost function Entered(p: Protocol.State, a: Protocol.Id, key: string, exp: int, now: int): Protocol.State {
    p.(attempts := p.attempts[a := Protocol.Attempt(key, exp, now, Protocol.Entered)])
  }

  /** An attempt that has been entered goes on to its acceptance. */
  lemma EnterAndRecord(w: World, s: State, a: Protocol.Id, key: string, exp: int, now: int) returns (t: State)
    requires a !in s.proto.attempts && Clear(w.lim, s.proto.backend, key, now)
    requires Leads(w, s, s.(proto := Entered(s.proto, a, key, exp, now)))
    ensures Leads(w, s, t) && t == s.(proto := t.proto) && Recorded(s.proto, t.proto, a, key, exp, now)
  {
    var s1 := s.(proto := Entered(s.proto, a, key, exp, now));
    var q: Protocol.State;
    if s.proto.backend.Files? {
      q := GoOnDisk(w, s1, a);
    } else {
      q := GoInMemory(w, s1, a);
    }
    t := s1.(proto := q);
    LeadsOn(w, s, s1, t);
    RecordedSinceEntered(s.proto, q, a, key, exp, now);
  }

  lemma RecordedSinceEntered(p: Protocol.State, q: Protocol.State, a: Protocol.Id, key: string, exp: int, now: int)
    requires Recorded(Entered(p, a, key, exp, now), q, a, key, exp, now)
    ensures Recorded(p, q, a, key, exp, now)
  {
    var u := Protocol.Attempt(key, exp, now, Protocol.Done(Accepted));
    assert Entered(p, a, key, exp, now).attempts[a := u] == p.attempts[a := u];
  }

  lemma SubmitLeads(w: World, s: State, x: nat, i: nat)
    requires MaySubmit(s, x, i) && Protocol.Credential(x, i) !in s.proto.attempts && !Blank(s.exchanges[x].prepared.creds[i].key)
    ensures var c := s.exchanges[x].prepared.creds[i];
      Leads(w, s, s.(proto := Entered(s.proto, Protocol.Credential(x, i), c.key, c.exp, s.exchanges[x].now.value)))
  {
    var c := s.exchanges[x].prepared.creds[i];
    LeadsByStep(w, s, Submit(x, i), s.(proto := Entered(s.proto, Protocol.Credential(x, i), c.key, c.exp, s.exchanges[x].now.value)));
  }

  lemma AuthenticateLeads(w: World, s: State, n: nat, key: string, exp: int)
    requires Protocol.Online(n) !in s.proto.attempts && !Blank(key)
    ensures Leads(w, s, s.(proto := Entered(s.proto, Protocol.Online(n), key, exp, s.clock)))
  {
    LeadsByStep(w, s, Authenticate(n, key, exp, s.clock), s.(proto := Entered(s.proto, Protocol.Online(n), key, exp, s.clock)));
  }

  // ---------------------------------------------------------------- an exchange's credentials

  ghost function KeysOf(creds: seq<Credential>): set<string> {
    set i | 0 <= i < |creds| :: creds[i].key
  }

  /** Only attempts of exchange `x` are new. */
  ghost predicate OnlyFor(p: Protocol.State, q: Protocol.State, x: nat) {
    forall a: Protocol.Id :: !(a.Credential? && a.exchange == x) ==>
      (a in p.attempts <==> a in q.attempts) && (a in p.attempts ==> q.attempts[a] == p.attempts[a])
  }

  ghost predicate Unsubmitted(p: Protocol.State, x: nat, i: nat) {
    forall j: nat :: i <= j ==> Protocol.Credential(x, j) !in p.attempts
  }

  /** The store holds none of the keys, at least not any more, and has room for all of them. */
  ghost predicate RoomFor(lim: Limits, b: Protocol.Backend, creds: seq<Credential>, now: int) {
    && (forall i :: 0 <= i < |creds| ==> Free(b, creds[i].key, now))
    && |Names(b)| + |creds| <= lim.maxSeen
  }

  /** Files of other keys are as they were. */
  ghost predicate Keeps(b: Protocol.Backend, c: Protocol.Backend, keys: set<string>) {
    forall k, e :: k !in keys && Written(b, k, e) ==> Written(c, k, e)
  }

  /** Where the recording of credentials ends: they are all on record, and nothing else is new. */
  ghost predicate AllRecorded(p: Protocol.State, q: Protocol.State, x: nat, creds: seq<Credential>) {
    && q.backend.Files? == p.backend.Files? && OnlyFor(p, q, x) && Owned(q)
    && Names(q.backend) <= Names(p.backend) + KeysOf(creds) && Keeps(p.backend, q.backend, KeysOf(creds))
    && forall i :: 0 <= i < |creds| ==> Written(q.backend, creds[i].key, creds[i].exp)
  }

  /** One slot has been recorded, and leaves what it does not concern. */
  ghost predicate SlotRecorded(s: State, t: State, x: nat, i: nat, c: Credential, now: int) {
    && t == s.(proto := t.proto) && Recorded(s.proto, t.proto, Protocol.Credential(x, i), c.key, c.exp, now)
    && RecordedUpTo(t, x, i + 1) && Unsubmitted(t.proto, x, i + 1)
  }

  lemma RecordSlot(w: World, s: State, x: nat, i: nat) returns (t: State)
    requires MaySubmit(s, x, i) && Unsubmitted(s.proto, x, i)
    requires Clear(w.lim, s.proto.backend, s.exchanges[x].prepared.creds[i].key, s.exchanges[x].now.value)
    ensures Leads(w, s, t) && SlotRecorded(s, t, x, i, s.exchanges[x].prepared.creds[i], s.exchanges[x].now.value)
  {
    var c, a, now := s.exchanges[x].prepared.creds[i], Protocol.Credential(x, i), s.exchanges[x].now.value;
    SubmitLeads(w, s, x, i);
    t := EnterAndRecord(w, s, a, c.key, c.exp, now);
    forall j: nat | j < i + 1
      ensures Spent(t, Protocol.Credential(x, j))
    {
      assert j < i ==> Spent(s, Protocol.Credential(x, j));
    }
  }

  lemma RoomForRest(w: World, s: State, t: State, x: nat, i: nat, creds: seq<Credential>, now: int)
    requires Usable(creds) && creds != [] && RoomFor(w.lim, s.proto.backend, creds, now) && Owned(s.proto) && Unsubmitted(s.proto, x, i)
    requires SlotRecorded(s, t, x, i, creds[0], now)
    ensures RoomFor(w.lim, t.proto.backend, creds[1..], now)
  {
    SubsetSize(Names(t.proto.backend), Names(s.proto.backend) + {creds[0].key});
    forall j | 0 <= j < |creds| - 1
      ensures Free(t.proto.backend, creds[1..][j].key, now)
    {
      assert Free(s.proto.backend, creds[j + 1].key, now);
      RecordedKeeps(s.proto, t.proto, Protocol.Credential(x, i), creds[0].key, creds[0].exp, now, creds[j + 1].key, 0, now);
    }
  }

  lemma SlotKeeps(s: State, t: State, x: nat, i: nat, c: Credential, now: int)
    requires Owned(s.proto) && Unsubmitted(s.proto, x, i) && SlotRecorded(s, t, x, i, c, now)
    ensures OnlyFor(s.proto, t.proto, x) && Owned(t.proto) && Keeps(s.proto.backend, t.proto.backend, {c.key}) && Written(t.proto.backend, c.key, c.exp)
  {
    forall k, e | k != c.key && Written(s.proto.backend, k, e)
      ensures Written(t.proto.backend, k, e)
    {
      RecordedKeeps(s.proto, t.proto, Protocol.Credential(x, i), c.key, c.exp, now, k, e, 0);
    }
    RecordedKeeps(s.proto, t.proto, Protocol.Credential(x, i), c.key, c.exp, now, c.key, 0, 0);
  }

  lemma RecordedInTurn(s: State, s1: State, t: State, x: nat, i: nat, creds: seq<Credential>, now: int)
    requires creds != [] && Usable(creds) && Owned(s.proto) && Unsubmitted(s.proto, x, i)
    requires SlotRecorded(s, s1, x, i, creds[0], now) && AllRecorded(s1.proto, t.proto, x, creds[1..])
    ensures AllRecorded(s.proto, t.proto, x, creds)
  {
    SlotKeeps(s, s1, x, i, creds[0], now);
    UsableRest(creds);
    KeysOfRest(creds);
    forall j | 0 <= j < |creds|
      ensures Written(t.proto.backend, creds[j].key, creds[j].exp)
    {
      if j > 0 {
        assert Written(t.proto.backend, creds[1..][j - 1].key, creds[1..][j - 1].exp);
      }
    }
  }

  lemma {:induction false} RecordSlots(w: World, s: State, x: nat, i: nat) returns (t: State)
    requires x in s.exchanges && s.exchanges[x].now.Some? && i <= |s.exchanges[x].prepared.creds|
    requires RecordedUpTo(s, x, i) && Unsubmitted(s.proto, x, i) && Owned(s.proto)
    requires Usable(s.exchanges[x].prepared.creds[i..]) && RoomFor(w.lim, s.proto.backend, s.exchanges[x].prepared.creds[i..], s.exchanges[x].now.value)
    ensures Leads(w, s, t) && t == s.(proto := t.proto) && AllRecorded(s.proto, t.proto, x, s.exchanges[x].prepared.creds[i..])
    ensures RecordedUpTo(t, x, |s.exchanges[x].prepared.creds|)
    decreases |s.exchanges[x].prepared.creds| - i
  {
    var creds, now := s.exchanges[x].prepared.creds, s.exchanges[x].now.value;
    if i == |creds| {
      t := s;
      LeadsNowhere(w, s);
    } else {
      var rest := creds[i..];
      assert rest[0] == creds[i] && rest[1..] == creds[i + 1..];
      assert Free(s.proto.backend, rest[0].key, now);
      var s1 := RecordSlot(w, s, x, i);
      SlotKeeps(s, s1, x, i, creds[i], now);
      RoomForRest(w, s, s1, x, i, rest, now);
      UsableRest(rest);
      t := RecordSlots(w, s1, x, i + 1);
      LeadsOn(w, s, s1, t);
      RecordedInTurn(s, s1, t, x, i, rest, now);
    }
  }

  lemma UsableRest(creds: seq<Credential>)
    requires Usable(creds) && creds != []
    ensures Usable(creds[1..]) && creds[0].key !in KeysOf(creds[1..])
  {
  }

  lemma KeysOfRest(creds: seq<Credential>)
    requires creds != []
    ensures KeysOf(creds) == {creds[0].key} + KeysOf(creds[1..])
  {
    forall k | k in KeysOf(creds)
      ensures k in {creds[0].key} + KeysOf(creds[1..])
    {
      var i :| 0 <= i < |creds| && creds[i].key == k;
      if i > 0 {
        assert creds[1..][i - 1].key == k;
      }
    }
    forall k | k in KeysOf(creds[1..])
      ensures k in KeysOf(creds)
    {
      var i :| 0 <= i < |creds| - 1 && creds[1..][i].key == k;
      assert creds[i + 1].key == k;
    }
  }

  lemma {:induction false} FewKeys(creds: seq<Credential>)
    ensures |KeysOf(creds)| <= |creds|
  {
    if creds != [] {
      FewKeys(creds[1..]);
      KeysOfRest(creds);
    }
  }

  // ---------------------------------------------------------------- an exchange

  /** A request at a replica, what the gates make of it, and the token that it is to yield. */
  datatype Plan = Plan(replica: nat, req: HttpRequest, at: Times, prepared: Prepared, jti: string, token: string)

  function MintedBy(w: World, plan: Plan, n: int): MintedClaims {
    Mint(w.cfg(plan.replica), plan.prepared, n, plan.jti)
  }

  function IssuedAs(w: World, plan: Plan, n: int): Ongoing {
    Ongoing(plan.replica, plan.req, plan.at, plan.prepared, Some(n), Some(Issued(MintedBy(w, plan, n), n)))
  }

  /** At time `n` the request has passed the gates, with credentials that a store takes. */
  ghost predicate Passed(w: World, plan: Plan, n: int) {
    && w.gates(plan.replica, plan.req, plan.at) == Ok(plan.prepared)
    && plan.at.client <= plan.at.dpop <= plan.at.subject <= plan.at.actor <= n
    && Usable(plan.prepared.creds)
  }

  /** From `s` to `t` exchange `x` was carried out, and nothing else. */
  ghost predicate CarriedOut(w: World, s: State, t: State, x: nat, plan: Plan) {
    && t == s.(proto := t.proto, exchanges := s.exchanges[x := IssuedAs(w, plan, s.clock)])
    && AllRecorded(s.proto, t.proto, x, plan.prepared.creds)
  }

  lemma AdmitAndStamp(w: World, s: State, x: nat, plan: Plan) returns (t: State)
    requires Serves(s, plan.replica) && Passed(w, plan, s.clock) && x !in s.exchanges
    ensures t == s.(exchanges := s.exchanges[x := IssuedAs(w, plan, s.clock).(issued := None)]) && Leads(w, s, t)
  {
    var s1 := s.(exchanges := s.exchanges[x := IssuedAs(w, plan, s.clock).(now := None, issued := None)]);
    t := s.(exchanges := s.exchanges[x := IssuedAs(w, plan, s.clock).(issued := None)]);
    assert s1.exchanges[x := IssuedAs(w, plan, s.clock).(issued := None)] == t.exchanges;
    LeadsByStep(w, s, Admit(x, plan.replica, plan.req, plan.at), s1);
    LeadsByStep(w, s1, Stamp(x), t);
    LeadsOn(w, s, s1, t);
  }

  ghost predicate MayCarryOut(w: World, s: State, x: nat, plan: Plan) {
    && Serves(s, plan.replica) && Passed(w, plan, s.clock) && x !in s.exchanges
    && Unsubmitted(s.proto, x, 0) && Owned(s.proto) && RoomFor(w.lim, s.proto.backend, plan.prepared.creds, s.clock)
  }

  lemma IssueLeads(w: World, s: State, x: nat, plan: Plan, n: int)
    requires x in s.exchanges && s.exchanges[x] == IssuedAs(w, plan, n).(issued := None) && s.clock == n
    requires RecordedUpTo(s, x, |plan.prepared.creds|)
    ensures Leads(w, s, s.(exchanges := s.exchanges[x := IssuedAs(w, plan, n)]))
  {
    LeadsByStep(w, s, Issue(x, plan.jti), s.(exchanges := s.exchanges[x := IssuedAs(w, plan, n)]));
  }

  lemma RecordPlan(w: World, s: State, x: nat, plan: Plan) returns (t: State)
    requires x in s.exchanges && s.exchanges[x] == IssuedAs(w, plan, s.clock).(issued := None)
    requires Usable(plan.prepared.creds) && Unsubmitted(s.proto, x, 0) && Owned(s.proto) && RoomFor(w.lim, s.proto.backend, plan.prepared.creds, s.clock)
    ensures Leads(w, s, t) && t == s.(proto := t.proto) && AllRecorded(s.proto, t.proto, x, plan.prepared.creds) && RecordedUpTo(t, x, |plan.prepared.creds|)
  {
    assert plan.prepared.creds[0..] == plan.prepared.creds;
    t := RecordSlots(w, s, x, 0);
  }

  lemma IssueOne(w: World, s: State, x: nat, plan: Plan) returns (t: State)
    requires MayCarryOut(w, s, x, plan)
    ensures Leads(w, s, t) && CarriedOut(w, s, t, x, plan)
  {
    var s1 := AdmitAndStamp(w, s, x, plan);
    var s2 := RecordPlan(w, s1, x, plan);
    LeadsOn(w, s, s1, s2);
    t := FinishPlan(w, s, s2, x, plan);
  }

  lemma FinishPlan(w: World, s: State, s2: State, x: nat, plan: Plan) returns (t: State)
    requires s2 == s.(proto := s2.proto, exchanges := s.exchanges[x := IssuedAs(w, plan, s.clock).(issued := None)]) && Leads(w, s, s2)
    requires AllRecorded(s.proto, s2.proto, x, plan.prepared.creds) && RecordedUpTo(s2, x, |plan.prepared.creds|)
    ensures Leads(w, s, t) && CarriedOut(w, s, t, x, plan)
  {
    IssueLeads(w, s2, x, plan, s.clock);
    t := s2.(exchanges := s2.exchanges[x := IssuedAs(w, plan, s.clock)]);
    assert t.exchanges == s.exchanges[x := IssuedAs(w, plan, s.clock)];
    LeadsOn(w, s, s2, t);
  }

  // ---------------------------------------------------------------- callers of the online endpoints

  /** Exactly the callers below `m` have been let in. */
  ghost predicate Called(s: State, m: nat) {
    forall n: nat :: if n < m then Spent(s, Protocol.Online(n)) else Protocol.Online(n) !in s.proto.attempts
  }

  /** Callers whose keys are not on record and fit in. */
  ghost predicate Welcome(w: World, s: State, keys: seq<string>) {
    && (forall i :: 0 <= i < |keys| ==> !Blank(keys[i]) && keys[i] !in Names(s.proto.backend))
    && (forall i, j :: 0 <= i < j < |keys| ==> keys[i] != keys[j])
    && |Names(s.proto.backend)| + |keys| <= w.lim.maxSeen
  }

  lemma CallOne(w: World, s: State, m: nat, keys: seq<string>) returns (t: State)
    requires Called(s, m) && keys != [] && Welcome(w, s, keys)
    ensures Leads(w, s, t) && t == s.(proto := t.proto) && t.proto.backend.Files? == s.proto.backend.Files?
    ensures Called(t, m + 1) && Welcome(w, t, keys[1..])
  {
    assert Protocol.Online(m) !in s.proto.attempts;
    AuthenticateLeads(w, s, m, keys[0], s.clock);
    t := EnterAndRecord(w, s, Protocol.Online(m), keys[0], s.clock, s.clock);
    SubsetSize(Names(t.proto.backend), Names(s.proto.backend) + {keys[0]});
    forall n: nat
      ensures if n < m + 1 then Spent(t, Protocol.Online(n)) else Protocol.Online(n) !in t.proto.attempts
    {
      assert if n < m then Spent(s, Protocol.Online(n)) else Protocol.Online(n) !in s.proto.attempts;
    }
  }

  lemma {:induction false} CallAll(w: World, s: State, m: nat, keys: seq<string>) returns (t: State)
    requires Called(s, m) && Welcome(w, s, keys)
    ensures Leads(w, s, t) && t == s.(proto := t.proto) && t.proto.backend.Files? == s.proto.backend.Files? && Called(t, m + |keys|)
    decreases |keys|
  {
    if keys == [] {
      t := s;
      LeadsNowhere(w, s);
    } else {
      var s1 := CallOne(w, s, m, keys);
      t := CallAll(w, s1, m + 1, keys[1..]);
      LeadsOn(w, s, s1, t);
    }
  }

  // ---------------------------------------------------------------- introspections and revocations

  lemma TickLeads(w: World, s: State, clock: int)
    requires s.clock <= clock
    ensures Leads(w, s, s.(clock := clock))
  {
    LeadsByStep(w, s, Tick(clock), s.(clock := clock));
  }

  /** A caller that has been let in and not been served. */
  ghost predicate Waits(s: State, n: nat) {
    Spent(s, Protocol.Online(n)) && n !in s.lookups && n !in s.revokings
  }

  ghost function AsRead(s: State, n: nat, r: nat, token: string): State {
    s.(lookups := s.lookups[n := Lookup(r, token, s.clock, None)])
  }

  lemma ReadLeads(w: World, s: State, n: nat, r: nat, token: string)
    requires Serves(s, r) && Waits(s, n)
    ensures Leads(w, s, AsRead(s, n, r, token))
  {
    LeadsByStep(w, s, Read(n, r, token), AsRead(s, n, r, token));
  }

  /** The answer about a token that was active at the reading, and what the lookup leaves of the list. */
  ghost function AsAnswered(s: State, n: nat): State
    requires n in s.lookups
  {
    var q := s.lookups[n];
    var live := Purge(List(s, q.replica), q.reading);
    s.(lookups := s.lookups[n := q.(answer := Some(q.token !in live))], lists := s.lists[q.replica := live])
  }

  lemma AnswerLeads(w: World, s: State, n: nat)
    requires n in s.lookups && s.lookups[n].answer.None? && Active(w, s.lookups[n].replica, s.lookups[n].token, s.lookups[n].reading)
    ensures Leads(w, s, AsAnswered(s, n))
  {
    LeadsByStep(w, s, Answer(n), AsAnswered(s, n));
  }

  /** A revocation that finds nothing to revoke. */
  lemma VainRevocationLeads(w: World, s: State, n: nat, r: nat, token: string)
    requires Serves(s, r) && Waits(s, n) && !Active(w, r, token, s.clock)
    ensures Leads(w, s, s.(revokings := s.revokings[n := Revoking(r, token, s.clock, Ended(true))]))
  {
    LeadsByStep(w, s, Check(n, r, token), s.(revokings := s.revokings[n := Revoking(r, token, s.clock, Ended(true))]));
  }

  ghost function AsRevoked(w: World, s: State, n: nat, r: nat, token: string): State {
    s.(revokings := s.revokings[n := Revoking(r, token, s.clock, Ended(true))],
       lists := s.lists[r := Purge(List(s, r), s.clock)[token := ExpiryOf(w, token)]])
  }

  lemma CheckLeads(w: World, s: State, n: nat, r: nat, token: string)
    requires Serves(s, r) && Waits(s, n) && Active(w, r, token, s.clock)
    ensures Leads(w, s, s.(revokings := s.revokings[n := Revoking(r, token, s.clock, Stamped(s.clock))]))
  {
    var s1 := s.(revokings := s.revokings[n := Revoking(r, token, s.clock, Checked)]);
    var t := s.(revokings := s.revokings[n := Revoking(r, token, s.clock, Stamped(s.clock))]);
    LeadsByStep(w, s, Check(n, r, token), s1);
    assert s1.revokings[n := Revoking(r, token, s.clock, Stamped(s.clock))] == t.revokings;
    LeadsByStep(w, s1, Restamp(n), t);
    LeadsOn(w, s, s1, t);
  }

  /** A revocation of an active token that finds room in the list. */
  lemma RevocationLeads(w: World, s: State, n: nat, r: nat, token: string)
    requires Serves(s, r) && Waits(s, n) && Active(w, r, token, s.clock)
    requires |Purge(List(s, r), s.clock)| < w.cfg(r).maxSeen
    ensures Leads(w, s, AsRevoked(w, s, n, r, token))
  {
    CheckLeads(w, s, n, r, token);
    var s1 := s.(revokings := s.revokings[n := Revoking(r, token, s.clock, Stamped(s.clock))]);
    var t := AsRevoked(w, s, n, r, token);
    assert s1.revokings[n := Revoking(r, token, s.clock, Ended(true))] == t.revokings;
    LeadsByStep(w, s1, Commit(n), t);
    LeadsOn(w, s, s1, t);
  }
}
