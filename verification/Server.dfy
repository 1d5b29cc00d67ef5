/**
 * Whole runs of the service: replicas that share a replay store serve exchanges, introspections and revocations
 * concurrently, on one clock that never goes back. Every step may come at any time after the one before it.
 */
module Server {
  import opened Prelude
  import opened ReplayStore
  import opened Exchange
  import opened Revocations
  import Protocol = ReplayProtocol

  /**
   * What is fixed for a run: each replica's configuration, the store's limits, how a string decodes to one of our
   * tokens, and the gates that a request has to pass.
   */
  datatype World = World(
    cfg: nat -> Sts, env: Env, lim: Limits,
    decode: string -> Option<Jws<MintedClaims>>,
    gates: (nat, HttpRequest, Times) -> Result<Prepared, HttpError>)

  ghost predicate ValidWorld(w: World) {
    && (forall r, req, at :: w.gates(r, req, at) == Prepare(w.cfg(r), w.env, req, at))
    && (forall r :: ValidConfig(w.cfg(r)))
  }

  // ---------------------------------------------------------------- state

  datatype Issued = Issued(claims: MintedClaims, at: int)

  /** A token request that is past its gates; `now` is the reading for recording and minting. */
  datatype Ongoing = Ongoing(replica: nat, req: HttpRequest, times: Times, prepared: Prepared, now: Option<int>, issued: Option<Issued>)

  /** An introspection: the clock reading it took and, later, whether it reported the token active. */
  datatype Lookup = Lookup(replica: nat, token: string, reading: int, answer: Option<bool>)

  datatype Phase = Checked | Stamped(now: int) | Ended(ok: bool)

  /** A revocation; `reading` is the clock reading under which it checked the token. */
  datatype Revoking = Revoking(replica: nat, token: string, reading: int, phase: Phase)

  datatype State = State(
    clock: int, proto: Protocol.State, exchanges: map<nat, Ongoing>,
    lookups: map<nat, Lookup>, revokings: map<nat, Revoking>, lists: map<nat, Entries>)

  datatype Label =
    | Tick(clock: int)
    | Admit(x: nat, replica: nat, req: HttpRequest, times: Times)
    | Stamp(x: nat)                                         // the exchange reads the clock
    | Submit(x: nat, slot: nat)                             // it goes on to record its next credential
    | Issue(x: nat, jti: string)
    | Authenticate(n: nat, key: string, exp: int, now: int) // an online endpoint records its caller's assertion
    | Store(step: Protocol.Label)                           // some attempt's next step in the replay store
    | Read(n: nat, replica: nat, token: string)             // an introspection reads the clock
    | Answer(n: nat)
    | Check(n: nat, replica: nat, token: string)            // a revocation verifies its token
    | Restamp(n: nat)                                       // and reads the clock again
    | Commit(n: nat)

  /** The in-memory store belongs to a single process. */
  predicate Serves(s: State, replica: nat) {
    s.proto.backend.Files? || replica == 0
  }

  predicate Spent(s: State, a: Protocol.Id) {
    a in s.proto.attempts && s.proto.attempts[a].pc == Protocol.Done(Verdict.Accepted)
  }

  predicate Active(w: World, replica: nat, token: string, now: int) {
    w.decode(token).Some? && ActiveAt(w.cfg(replica), w.decode(token).value, now)
  }

  function ExpiryOf(w: World, token: string): int {
    if w.decode(token).Some? then w.decode(token).value.claims.exp else 0
  }

  function List(s: State, replica: nat): Entries {
    if replica in s.lists then s.lists[replica] else map[]
  }

  // ---------------------------------------------------------------- steps

  function WithProto(s: State, proto: Option<Protocol.State>): Option<State> {
    if proto.None? then None else Some(s.(proto := proto.value))
  }

  function AdmitStep(w: World, s: State, x: nat, replica: nat, req: HttpRequest, at: Times): Option<State> {
    var r := w.gates(replica, req, at);
    if x in s.exchanges || !Serves(s, replica) || !(at.client <= at.dpop <= at.subject <= at.actor <= s.clock) || r.Err? then None
    else Some(s.(exchanges := s.exchanges[x := Ongoing(replica, req, at, r.value, None, None)]))
  }

  function StampStep(s: State, x: nat): Option<State> {
    if x !in s.exchanges || s.exchanges[x].now.Some? then None
    else Some(s.(exchanges := s.exchanges[x := s.exchanges[x].(now := Some(s.clock))]))
  }

  predicate RecordedUpTo(s: State, x: nat, n: nat) {
    forall i: nat :: i < n ==> Spent(s, Protocol.Credential(x, i))
  }

  predicate MaySubmit(s: State, x: nat, slot: nat) {
    && x in s.exchanges && s.exchanges[x].now.Some? && slot < |s.exchanges[x].prepared.creds|
    && RecordedUpTo(s, x, slot)
  }

  function SubmitStep(w: World, s: State, x: nat, slot: nat): Option<State> {
    if !MaySubmit(s, x, slot) then None
    else
      var c := s.exchanges[x].prepared.creds[slot];
      WithProto(s, Protocol.Step(w.lim, s.proto, Protocol.Enter(Protocol.Credential(x, slot), c.key, c.exp, s.exchanges[x].now.value)))
  }

  predicate MayIssue(s: State, x: nat) {
    && x in s.exchanges && s.exchanges[x].now.Some? && s.exchanges[x].issued.None?
    && RecordedUpTo(s, x, |s.exchanges[x].prepared.creds|)
  }

  function IssueStep(w: World, s: State, x: nat, jti: string): Option<State> {
    if !MayIssue(s, x) then None
    else
      var e := s.exchanges[x];
      Some(s.(exchanges := s.exchanges[x := e.(issued := Some(Issued(Mint(w.cfg(e.replica), e.prepared, e.now.value, jti), s.clock)))]))
  }

  function ReadStep(s: State, n: nat, replica: nat, token: string): Option<State> {
    if n in s.lookups || n in s.revokings || !Serves(s, replica) || !Spent(s, Protocol.Online(n)) then None
    else Some(s.(lookups := s.lookups[n := Lookup(replica, token, s.clock, None)]))
  }

  function AnswerStep(w: World, s: State, n: nat): Option<State> {
    if n !in s.lookups || s.lookups[n].answer.Some? then None
    else
      var q := s.lookups[n];
      if !Active(w, q.replica, q.token, q.reading) then Some(s.(lookups := s.lookups[n := q.(answer := Some(false))]))
      else
        var (list, found) := Look(List(s, q.replica), q.token, q.reading);
        Some(s.(lookups := s.lookups[n := q.(answer := Some(!found))], lists := s.lists[q.replica := list]))
  }

  function CheckStep(w: World, s: State, n: nat, replica: nat, token: string): Option<State> {
    if n in s.lookups || n in s.revokings || !Serves(s, replica) || !Spent(s, Protocol.Online(n)) then None
    else
      var phase := if Active(w, replica, token, s.clock) then Checked else Ended(true);
      Some(s.(revokings := s.revokings[n := Revoking(replica, token, s.clock, phase)]))
  }

  function RestampStep(s: State, n: nat): Option<State> {
    if n !in s.revokings || !s.revokings[n].phase.Checked? then None
    else Some(s.(revokings := s.revokings[n := s.revokings[n].(phase := Stamped(s.clock))]))
  }

  function CommitStep(w: World, s: State, n: nat): Option<State> {
    if n !in s.revokings || !s.revokings[n].phase.Stamped? then None
    else
      var q := s.revokings[n];
      var (list, ok) := Enlist(List(s, q.replica), q.token, ExpiryOf(w, q.token), q.phase.now, w.cfg(q.replica).maxSeen);
      Some(s.(revokings := s.revokings[n := q.(phase := Ended(ok))], lists := s.lists[q.replica := list]))
  }

  function Step(w: World, s: State, l: Label): Option<State> {
    match l
    case Tick(clock) => if s.clock <= clock then Some(s.(clock := clock)) else None
    case Admit(x, replica, req, at) => AdmitStep(w, s, x, replica, req, at)
    case Stamp(x) => StampStep(s, x)
    case Submit(x, slot) => SubmitStep(w, s, x, slot)
    case Issue(x, jti) => IssueStep(w, s, x, jti)
    case Authenticate(n, key, exp, now) =>
      if now <= s.clock then WithProto(s, Protocol.Step(w.lim, s.proto, Protocol.Enter(Protocol.Online(n), key, exp, now))) else None
    case Store(step) => if step.Enter? then None else WithProto(s, Protocol.Step(w.lim, s.proto, step))
    case Read(n, replica, token) => ReadStep(s, n, replica, token)
    case Answer(n) => AnswerStep(w, s, n)
    case Check(n, replica, token) => CheckStep(w, s, n, replica, token)
    case Restamp(n) => RestampStep(s, n)
    case Commit(n) => CommitStep(w, s, n)
  }

  function Exec(w: World, s: State, run: seq<Label>): Option<State> {
    if run == [] then Some(s)
    else
      var t := Exec(w, s, run[..|run| - 1]);
      if t.None? then None else Step(w, t.value, run[|run| - 1])
  }

  predicate Initial(s: State) {
    Protocol.Initial(s.proto) && s.exchanges == map[] && s.lookups == map[] && s.revokings == map[] && s.lists == map[]
  }

  ghost predicate Reachable(w: World, s: State) {
    exists s0: State, run: seq<Label> :: Initial(s0) && Exec(w, s0, run) == Some(s)
  }

  // ---------------------------------------------------------------- building runs

  ghost predicate Leads(w: World, s: State, t: State) {
    exists run: seq<Label> :: Exec(w, s, run) == Some(t)
  }

  lemma {:induction false} ExecConcat(w: World, s: State, p: seq<Label>, q: seq<Label>)
    requires Exec(w, s, p).Some?
    ensures Exec(w, s, p + q) == Exec(w, Exec(w, s, p).value, q)
  {
    if q == [] {
      assert p + q == p;
    } else {
      ExecConcat(w, s, p, q[..|q| - 1]);
      assert (p + q)[..|p + q| - 1] == p + q[..|q| - 1];
    }
  }

  lemma LeadsOn(w: World, s: State, t: State, u: State)
    requires Leads(w, s, t) && Leads(w, t, u)
    ensures Leads(w, s, u)
  {
    var p: seq<Label> :| Exec(w, s, p) == Some(t);
    var q: seq<Label> :| Exec(w, t, q) == Some(u);
    ExecConcat(w, s, p, q);
  }

  lemma LeadsByStep(w: World, s: State, l: Label, t: State)
    requires Step(w, s, l) == Some(t)
    ensures Leads(w, s, t)
  {
    assert [l][..0] == [];
    assert Exec(w, s, [l]) == Some(t);
  }

  lemma LeadsNowhere(w: World, s: State)
    ensures Leads(w, s, s)
  {
    assert Exec(w, s, []) == Some(s);
  }

  lemma StaysReachable(w: World, s: State, t: State)
    requires Reachable(w, s) && Leads(w, s, t)
    ensures Reachable(w, t)
  {
    var s0: State, p: seq<Label> :| Initial(s0) && Exec(w, s0, p) == Some(s);
    var q: seq<Label> :| Exec(w, s, q) == Some(t);
    ExecConcat(w, s0, p, q);
  }
}
