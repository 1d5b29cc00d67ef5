/**
 * When two tokens can live side by side: exchanges that share no credential do not get in each other's way, and on disk
 * they may even share one that has expired by the time of the second.
 */
module TwoTokens {
  import opened Prelude
  import opened Text
  import opened ReplayStore
  import opened Exchange
  import opened Admission
  import opened Minting
  import opened Server
  import opened Runs
  import opened RunBuilding
  import Protocol = ReplayProtocol
  import Form

  // ---------------------------------------------------------------- two exchanges

  /**
   * Exchange `a`, then `b` at time `m`, then callers with these keys: what they have in common has expired by then, on disk,
   * and the store is large enough for all of them.
   */
  ghost predicate Apart(w: World, a: Plan, b: Plan, m: int, callers: seq<string>, files: bool) {
    && (forall i, j :: 0 <= i < |a.prepared.creds| && 0 <= j < |b.prepared.creds| && a.prepared.creds[i].key == b.prepared.creds[j].key ==>
          files && a.prepared.creds[i].exp < m)
    && Strangers(w, a, b, callers)
  }

  /** The callers' keys are none of the exchanges' and all different, and there is room for everything. */
  ghost predicate Strangers(w: World, a: Plan, b: Plan, callers: seq<string>) {
    && (forall i :: 0 <= i < |callers| ==> !Blank(callers[i]) && callers[i] !in KeysOf(a.prepared.creds) + KeysOf(b.prepared.creds))
    && (forall i, j :: 0 <= i < j < |callers| ==> callers[i] != callers[j])
    && |a.prepared.creds| + |b.prepared.creds| + |callers| <= w.lim.maxSeen
  }

  ghost predicate Fits(s: State, a: Plan, b: Plan, files: bool) {
    s.proto.backend.Files? == files && Serves(s, a.replica) && Serves(s, b.replica)
  }

  lemma ReadyForFirst(w: World, s: State, a: Plan, b: Plan, m: int, callers: seq<string>, files: bool)
    requires Initial(s) && Fits(s, a, b, files) && Passed(w, a, s.clock) && Apart(w, a, b, m, callers, files)
    ensures MayCarryOut(w, s, 0, a)
  {
    assert Names(s.proto.backend) == {};
  }

  lemma FreeForSecond(w: World, s: State, t: State, a: Plan, b: Plan, m: int, callers: seq<string>, files: bool, j: nat)
    requires Initial(s) && s.proto.backend.Files? == files && CarriedOut(w, s, t, 0, a) && Apart(w, a, b, m, callers, files)
    requires j < |b.prepared.creds|
    ensures Free(t.proto.backend, b.prepared.creds[j].key, m)
  {
    var key := b.prepared.creds[j].key;
    assert Names(s.proto.backend) == {};
    if key in KeysOf(a.prepared.creds) {
      var i :| 0 <= i < |a.prepared.creds| && a.prepared.creds[i].key == key;
      assert Written(t.proto.backend, key, a.prepared.creds[i].exp);
    }
  }

  lemma ReadyForSecond(w: World, s: State, t: State, a: Plan, b: Plan, m: int, callers: seq<string>, files: bool)
    requires Initial(s) && Fits(s, a, b, files) && CarriedOut(w, s, t, 0, a) && Passed(w, b, m) && Apart(w, a, b, m, callers, files)
    ensures MayCarryOut(w, t.(clock := m), 1, b)
  {
    FewKeys(a.prepared.creds);
    SubsetSize(Names(t.proto.backend), KeysOf(a.prepared.creds));
    forall j | 0 <= j < |b.prepared.creds|
      ensures Free(t.proto.backend, b.prepared.creds[j].key, m)
    {
      FreeForSecond(w, s, t, a, b, m, callers, files, j);
    }
  }

  /** Both exchanges have been carried out, nobody has been let in online yet. */
  ghost predicate BothIssued(w: World, s: State, t: State, a: Plan, b: Plan, m: int) {
    && t == s.(clock := m, proto := t.proto, exchanges := map[0 := IssuedAs(w, a, s.clock), 1 := IssuedAs(w, b, m)])
    && t.proto.backend.Files? == s.proto.backend.Files? && Called(t, 0)
    && Names(t.proto.backend) <= KeysOf(a.prepared.creds) + KeysOf(b.prepared.creds)
  }

  lemma BothIssuedInTurn(w: World, s: State, s1: State, t: State, a: Plan, b: Plan, m: int)
    requires Initial(s) && CarriedOut(w, s, s1, 0, a) && CarriedOut(w, s1.(clock := m), t, 1, b)
    ensures BothIssued(w, s, t, a, b, m)
  {
  }

  lemma IssueBoth(w: World, s: State, a: Plan, b: Plan, m: int, callers: seq<string>, files: bool) returns (t: State)
    requires Initial(s) && Fits(s, a, b, files) && s.clock <= m && Passed(w, a, s.clock) && Passed(w, b, m) && Apart(w, a, b, m, callers, files)
    ensures Leads(w, s, t) && BothIssued(w, s, t, a, b, m)
  {
    ReadyForFirst(w, s, a, b, m, callers, files);
    var s1 := IssueOne(w, s, 0, a);
    ReadyForSecond(w, s, s1, a, b, m, callers, files);
    LeadsByStep(w, s1, Tick(m), s1.(clock := m));
    t := IssueOne(w, s1.(clock := m), 1, b);
    LeadsOn(w, s, s1, s1.(clock := m));
    LeadsOn(w, s, s1.(clock := m), t);
    BothIssuedInTurn(w, s, s1, t, a, b, m);
  }

  /** Both tokens have been issued, and the callers have been let in. */
  ghost predicate Ready(w: World, s: State, a: Plan, b: Plan, n: int, m: int, callers: nat, files: bool) {
    && Reachable(w, s) && Fits(s, a, b, files) && s.clock == m && s.lookups == map[] && s.revokings == map[] && s.lists == map[]
    && s.exchanges == map[0 := IssuedAs(w, a, n), 1 := IssuedAs(w, b, m)] && Called(s, callers)
  }

  lemma CallersAreWelcome(w: World, s: State, a: Plan, b: Plan, m: int, callers: seq<string>, files: bool)
    requires Apart(w, a, b, m, callers, files) && Names(s.proto.backend) <= KeysOf(a.prepared.creds) + KeysOf(b.prepared.creds)
    ensures Welcome(w, s, callers)
  {
    FewKeys(a.prepared.creds);
    FewKeys(b.prepared.creds);
    SubsetSize(Names(s.proto.backend), KeysOf(a.prepared.creds) + KeysOf(b.prepared.creds));
  }

  lemma GetReady(w: World, a: Plan, b: Plan, n: int, m: int, callers: seq<string>, files: bool) returns (t: State)
    requires n <= m && Passed(w, a, n) && Passed(w, b, m) && Apart(w, a, b, m, callers, files)
    requires files || a.replica == b.replica == 0
    ensures Ready(w, t, a, b, n, m, |callers|, files)
  {
    var backend := if files then Protocol.Files(map[], map[]) else Protocol.Memory(Store.Store(map[], 0));
    var s := State(n, Protocol.State(backend, map[]), map[], map[], map[], map[]);
    assert Initial(s) && Exec(w, s, []) == Some(s);
    var s1 := IssueBoth(w, s, a, b, m, callers, files);
    CallersAreWelcome(w, s1, a, b, m, callers, files);
    t := CallAll(w, s1, 0, callers);
    LeadsOn(w, s, s1, t);
    StaysReachable(w, s, t);
  }

  // ---------------------------------------------------------------- two live tokens

  ghost predicate NoneRevoked(s: State) {
    forall r: nat :: List(s, r) == map[]
  }

  lemma ReadAndAnswer(w: World, s: State, n: nat, plan: Plan) returns (t: State)
    requires Serves(s, plan.replica) && Waits(s, n) && NoneRevoked(s) && Active(w, plan.replica, plan.token, s.clock)
    ensures t == s.(lookups := s.lookups[n := Lookup(plan.replica, plan.token, s.clock, Some(true))], lists := t.lists)
    ensures Leads(w, s, t) && NoneRevoked(t)
  {
    var s1 := AsRead(s, n, plan.replica, plan.token);
    ReadLeads(w, s, n, plan.replica, plan.token);
    AnswerLeads(w, s1, n);
    t := AsAnswered(s1, n);
    LeadsOn(w, s, s1, t);
    NothingListed(s, n, plan);
  }

  lemma NothingListed(s: State, n: nat, plan: Plan)
    requires NoneRevoked(s)
    ensures var t := AsAnswered(AsRead(s, n, plan.replica, plan.token), n);
      && t == s.(lookups := s.lookups[n := Lookup(plan.replica, plan.token, s.clock, Some(true))], lists := t.lists)
      && NoneRevoked(t)
  {
    var s1 := AsRead(s, n, plan.replica, plan.token);
    assert List(s1, plan.replica) == List(s, plan.replica) == map[];
    assert Purge(map[], s.clock) == map[];
    var t := AsAnswered(s1, n);
    assert t.lookups == s.lookups[n := Lookup(plan.replica, plan.token, s.clock, Some(true))];
    forall r: nat
      ensures List(t, r) == map[]
    {
      assert List(s, r) == map[];
    }
  }

  lemma ConfirmBoth(w: World, s: State, a: Plan, b: Plan, n: int, m: int, files: bool) returns (t: State)
    requires Ready(w, s, a, b, n, m, 2, files) && Active(w, a.replica, a.token, m) && Active(w, b.replica, b.token, m)
    ensures Leads(w, s, t) && t.exchanges == s.exchanges && t.proto == s.proto
    ensures t.lookups == map[0 := Lookup(a.replica, a.token, m, Some(true)), 1 := Lookup(b.replica, b.token, m, Some(true))]
  {
    assert Spent(s, Protocol.Online(0)) && Spent(s, Protocol.Online(1));
    var s1 := ReadAndAnswer(w, s, 0, a);
    t := ReadAndAnswer(w, s1, 1, b);
    LeadsOn(w, s, s1, t);
  }

  /** The plan's token is the one that its exchange issues at time `n`, and it is active at time `m`. */
  ghost predicate Lives(w: World, plan: Plan, n: int, m: int) {
    w.decode(plan.token) == Some(Sign(w.cfg(plan.replica), MintedBy(w, plan, n))) && Active(w, plan.replica, plan.token, m)
  }

  /** Some run on this kind of store carries out `a` at `n` and `b` at `m` and then reports both tokens active. */
  ghost predicate BothLive(w: World, a: Plan, b: Plan, n: int, m: int, files: bool) {
    exists s: State ::
      && Reachable(w, s) && s.proto.backend.Files? == files
      && ReportedActive(w, s, 0, 0) && s.exchanges[0] == IssuedAs(w, a, n)
      && ReportedActive(w, s, 1, 1) && s.exchanges[1] == IssuedAs(w, b, m)
  }

  lemma ConfirmedIsReported(w: World, s: State, t: State, a: Plan, b: Plan, n: int, m: int, files: bool)
    requires Ready(w, s, a, b, n, m, 2, files) && n <= m && Lives(w, a, n, m) && Lives(w, b, m, m)
    requires t.exchanges == s.exchanges
    requires t.lookups == map[0 := Lookup(a.replica, a.token, m, Some(true)), 1 := Lookup(b.replica, b.token, m, Some(true))]
    ensures ReportedActive(w, t, 0, 0) && ReportedActive(w, t, 1, 1)
  {
  }

  /**
   * Exchanges with no credential in common, or on disk with none that has not expired by the second, can both yield a live
   * token: what `SharedCredentialHasExpired` leaves open does happen.
   */
  lemma NothingLiveSharedBothLive(w: World, a: Plan, b: Plan, n: int, m: int, callers: seq<string>, files: bool)
    requires n <= m && Passed(w, a, n) && Passed(w, b, m) && Lives(w, a, n, m) && Lives(w, b, m, m)
    requires |callers| == 2 && Apart(w, a, b, m, callers, files) && (files || a.replica == b.replica == 0)
    ensures BothLive(w, a, b, n, m, files)
  {
    var s := GetReady(w, a, b, n, m, callers, files);
    var t := ConfirmBoth(w, s, a, b, n, m, files);
    StaysReachable(w, s, t);
    ConfirmedIsReported(w, s, t, a, b, n, m, files);
  }

  /** The request passes the gates, and its token, issued at `n`, has not expired at `m`. */
  ghost predicate Fruitful(w: World, plan: Plan, n: int, m: int) {
    && w.gates(plan.replica, plan.req, plan.at) == Ok(plan.prepared)
    && plan.at.client <= plan.at.dpop <= plan.at.subject <= plan.at.actor <= n
    && w.decode(plan.token) == Some(Sign(w.cfg(plan.replica), MintedBy(w, plan, n)))
    && n <= m < MintedBy(w, plan, n).exp
  }

  lemma FruitfulPasses(w: World, plan: Plan, n: int, m: int)
    requires ValidWorld(w) && Fruitful(w, plan, n, m)
    ensures Passed(w, plan, n)
  {
    PassesExactlyWhen(w.cfg(plan.replica), w.env, plan.req, plan.at);
    PresentedIsUsable(w.cfg(plan.replica), w.env, Form.Parse(plan.req.items).value, plan.req.dpop);
  }

  lemma FruitfulLives(w: World, plan: Plan, n: int, m: int)
    requires ValidWorld(w) && Fruitful(w, plan, n, m)
    ensures Lives(w, plan, n, m)
  {
    var sts := w.cfg(plan.replica);
    assert ValidConfig(sts);
    ServesItself(sts);
    MintedIsActive(sts, sts, w.env, plan.req, plan.at, n, plan.jti, m);
  }

  lemma FruitfulBothLive(w: World, a: Plan, b: Plan, n: int, m: int, callers: seq<string>, files: bool)
    requires ValidWorld(w) && Fruitful(w, a, n, m) && Fruitful(w, b, m, m)
    requires |callers| == 2 && Apart(w, a, b, m, callers, files) && (files || a.replica == b.replica == 0)
    ensures BothLive(w, a, b, n, m, files)
  {
    FruitfulPasses(w, a, n, m);
    FruitfulPasses(w, b, m, m);
    FruitfulLives(w, a, n, m);
    FruitfulLives(w, b, m, m);
    NothingLiveSharedBothLive(w, a, b, n, m, callers, files);
  }

  // ---------------------------------------------------------------- a client assertion beside two delegations

  /** The request brings this client assertion, whose credential is this one. */
  ghost predicate BringsClient(w: World, plan: Plan, assertion: string, c: Credential) {
    && Form.Parse(plan.req.items).Ok? && Form.Parse(plan.req.items).value.Get(Form.ClientAssertion) == Some(assertion)
    && w.env.assertion(assertion).Some? && c == ClientCredential(w.env.assertion(assertion).value.claims)
  }

  /** No credential but this one is in common. */
  ghost predicate ShareOnly(a: Plan, b: Plan, c: Credential) {
    forall i, j :: 0 <= i < |a.prepared.creds| && 0 <= j < |b.prepared.creds| && a.prepared.creds[i].key == b.prepared.creds[j].key ==>
      a.prepared.creds[i] == c
  }

  lemma ShareOnlyIsApart(w: World, a: Plan, b: Plan, c: Credential, m: int, callers: seq<string>)
    requires ShareOnly(a, b, c) && c.exp < m && Strangers(w, a, b, callers)
    ensures Apart(w, a, b, m, callers, true)
  {
  }

  lemma ClientIsPresented(w: World, plan: Plan, n: int, m: int, assertion: string, c: Credential)
    requires ValidWorld(w) && Fruitful(w, plan, n, m) && BringsClient(w, plan, assertion, c)
    ensures c in plan.prepared.creds
  {
    PassesExactlyWhen(w.cfg(plan.replica), w.env, plan.req, plan.at);
    assert ClientCredentials(ClaimsOf(w.env, Some(assertion))) == [c];
    assert [c][0] == c;
  }

  /**
   * A client assertion does not cap the token of a delegation that it accompanies, so it can back two live tokens: whenever
   * two requests bring it, the second after it has expired but while it is still accepted, and they share nothing else.
   */
  lemma AccompanyingAssertionTwoLiveTokens(w: World, assertion: string, c: Credential, a: Plan, b: Plan, n: int, m: int, callers: seq<string>)
    requires ValidWorld(w) && Fruitful(w, a, n, m) && Fruitful(w, b, m, m)
    requires BringsClient(w, a, assertion, c) && BringsClient(w, b, assertion, c) && c.exp < m && ShareOnly(a, b, c)
    requires |callers| == 2 && Strangers(w, a, b, callers)
    ensures c in a.prepared.creds && c in b.prepared.creds && BothLive(w, a, b, n, m, true)
  {
    ClientIsPresented(w, a, n, m, assertion, c);
    ClientIsPresented(w, b, m, m, assertion, c);
    ShareOnlyIsApart(w, a, b, c, m, callers);
    FruitfulBothLive(w, a, b, n, m, callers, true);
  }
}
