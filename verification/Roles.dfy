/**
 * An assertion in two roles. Where clients are the actors, share their keys and have an impersonation policy, the assertion
 * of any delegation is good for an impersonation as well, and both tokens live.
 */
module Roles {
  import opened Prelude
  import opened Text
  import opened Dpop
  import opened ReplayStore
  import opened Exchange
  import opened Admission
  import opened Minting
  import opened Server
  import opened Runs
  import opened RunBuilding
  import opened TwoTokens
  import Form

  // ---------------------------------------------------------------- the same request in the other role

  function MoveKey(key: Form.Key): Form.Key {
    if key.ActorToken? then Form.ClientAssertion else if key.ActorTokenType? then Form.ClientAssertionType else key
  }

  function MoveValue(key: Form.Key, value: string, kind: string): string {
    if key.ActorTokenType? && value != "" then kind else value
  }

  /** The actor's assertion is sent as a client assertion, of the given type, instead. */
  function MoveItem(x: Form.Item, kind: string): Form.Item {
    if x.Known? then Form.Known(MoveKey(x.key), MoveValue(x.key, x.value, kind)) else x
  }

  function MoveAll(items: seq<Form.Item>, kind: string): seq<Form.Item> {
    seq(|items|, i requires 0 <= i < |items| => MoveItem(items[i], kind))
  }

  function Moved(form: Form.TokenForm, kind: string): Form.TokenForm {
    Form.TokenForm(
      form.fields - {Form.ActorToken, Form.ActorTokenType}
      + (if Form.ActorToken in form.fields then map[Form.ClientAssertion := form.fields[Form.ActorToken]] else map[])
      + (if Form.ActorTokenType in form.fields then map[Form.ClientAssertionType := kind] else map[]),
      false)
  }

  predicate IsClientKey(key: Form.Key) {
    key.ClientAssertion? || key.ClientAssertionType? || key.ClientId?
  }

  ghost predicate NoClientItems(items: seq<Form.Item>) {
    forall i :: 0 <= i < |items| && items[i].Known? ==> !IsClientKey(items[i].key)
  }

  /** What the moved form says of each key. */
  lemma MovedGet(form: Form.TokenForm, kind: string, key: Form.Key)
    requires NoClient(form)
    ensures Moved(form, kind).Get(key) ==
      if key.ActorToken? || key.ActorTokenType? then None
      else if key.ClientAssertion? then form.Get(Form.ActorToken)
      else if key.ClientAssertionType? then (if form.Get(Form.ActorTokenType).Some? then Some(kind) else None)
      else form.Get(key)
  {
  }

  lemma SameForm(f: Form.TokenForm, g: Form.TokenForm)
    requires f.emptyActorTokenSupplied == g.emptyActorTokenSupplied && forall key: Form.Key :: f.Get(key) == g.Get(key)
    ensures f == g
  {
    assert forall key :: key in f.fields <==> f.Get(key).Some?;
    assert forall key :: key in g.fields <==> g.Get(key).Some?;
    assert f.fields == g.fields;
  }

  lemma AssignGet(form: Form.TokenForm, key: Form.Key, value: string, k: Form.Key)
    ensures Form.Assign(form, key, value).Get(k) == if k != key then form.Get(k) else if value != "" then Some(value) else None
  {
  }

  lemma AssignMovedGet(form: Form.TokenForm, key: Form.Key, value: string, kind: string, k: Form.Key)
    requires NoClient(form) && !IsClientKey(key) && kind != "" && NoClient(Form.Assign(form, key, value))
    ensures Moved(Form.Assign(form, key, value), kind).Get(k) == Form.Assign(Moved(form, kind), MoveKey(key), MoveValue(key, value, kind)).Get(k)
  {
    MovedGet(form, kind, k);
    MovedGet(Form.Assign(form, key, value), kind, k);
    AssignGet(Moved(form, kind), MoveKey(key), MoveValue(key, value, kind), k);
    AssignGet(form, key, value, k);
    AssignGet(form, key, value, Form.ActorToken);
    AssignGet(form, key, value, Form.ActorTokenType);
  }

  lemma AssignsNoClient(form: Form.TokenForm, key: Form.Key, value: string)
    requires NoClient(form) && !IsClientKey(key)
    ensures NoClient(Form.Assign(form, key, value))
  {
  }

  lemma AssignMoved(form: Form.TokenForm, key: Form.Key, value: string, kind: string)
    requires NoClient(form) && !IsClientKey(key) && kind != ""
    ensures Moved(Form.Assign(form, key, value), kind) == Form.Assign(Moved(form, kind), MoveKey(key), MoveValue(key, value, kind))
    ensures NoClient(Form.Assign(form, key, value))
  {
    AssignsNoClient(form, key, value);
    var left, right := Moved(Form.Assign(form, key, value), kind), Form.Assign(Moved(form, kind), MoveKey(key), MoveValue(key, value, kind));
    forall k: Form.Key
      ensures left.Get(k) == right.Get(k)
    {
      AssignMovedGet(form, key, value, kind, k);
    }
    SameForm(left, right);
  }

  lemma HasKeyMoved(items: seq<Form.Item>, key: Form.Key, kind: string)
    requires NoClientItems(items) && !IsClientKey(key)
    ensures Form.HasKey(MoveAll(items, kind), MoveKey(key)) <==> Form.HasKey(items, key)
  {
    var all := MoveAll(items, kind);
    if i :| 0 <= i < |items| && items[i].Known? && items[i].key == key {
      assert all[i].Known? && all[i].key == MoveKey(key);
    }
    if i :| 0 <= i < |all| && all[i].Known? && all[i].key == MoveKey(key) {
      assert items[i].Known? && items[i].key == key;
    }
  }

  /** Moving the items moves the form. */
  lemma {:induction false} MoveParses(items: seq<Form.Item>, kind: string)
    requires NoClientItems(items) && Form.Parse(items).Ok? && kind != ""
    ensures Form.Parse(MoveAll(items, kind)) == Ok(Moved(Form.Parse(items).value, kind)) && NoClient(Form.Parse(items).value)
  {
    if items == [] {
      assert Moved(Form.TokenForm(map[], false), kind) == Form.TokenForm(map[], false);
    } else {
      var rest, x := items[..|items| - 1], items[|items| - 1];
      assert items == rest + [x];
      MoveParses(rest, kind);
      assert MoveAll(items, kind) == MoveAll(rest, kind) + [MoveItem(x, kind)];
      Form.ParseAppended(rest, x);
      Form.ParseAppended(MoveAll(rest, kind), MoveItem(x, kind));
      if x.Known? {
        HasKeyMoved(rest, x.key, kind);
        AssignMoved(Form.Parse(rest).value, x.key, x.value, kind);
      }
    }
  }

  // ---------------------------------------------------------------- is as much in order

  /** Clients are the actors and verify under the same keys, as configuration has it by default, and both modes are on. */
  predicate DualRole(sts: Sts) {
    sts.mode.Both? && sts.clientIds == sts.actorIds && sts.clientJwks == sts.actorJwks
  }

  ghost predicate PlainDelegation(form: Form.TokenForm, assertion: string) {
    NoClient(form) && form.Get(Form.ActorToken) == Some(assertion) && form.Get(Form.ActorTokenType).Some? && !Blank(assertion)
  }

  /** The subject of the assertion may impersonate the subject at the target. */
  ghost predicate MayImpersonate(sts: Sts, env: Env, form: Form.TokenForm, assertion: string) {
    && SubjectOf(env, form).Some? && SubjectOf(env, form).value.claims.sub.Some? && TargetOf(form).Some?
    && ClientPermitted(sts, ClaimsOf(env, Some(assertion)), TargetOf(form).value, SubjectOf(env, form).value.claims.sub.value)
  }

  /** The request with its assertion sent as the client's. */
  ghost function AsClient(form: Form.TokenForm): Form.TokenForm {
    Moved(form, ASSERTION_TYPE)
  }

  lemma AsClientGets(form: Form.TokenForm, assertion: string)
    requires PlainDelegation(form, assertion)
    ensures AsClient(form).Get(Form.ActorToken).None? && AsClient(form).Get(Form.ActorTokenType).None? && AsClient(form).Get(Form.ClientId).None?
    ensures AsClient(form).Get(Form.ClientAssertion) == Some(assertion) && AsClient(form).Get(Form.ClientAssertionType) == Some(ASSERTION_TYPE)
    ensures forall key: Form.Key :: !IsClientKey(key) && !key.ActorToken? && !key.ActorTokenType? ==> AsClient(form).Get(key) == form.Get(key)
  {
    forall key: Form.Key | !IsClientKey(key) && !key.ActorToken? && !key.ActorTokenType?
      ensures AsClient(form).Get(key) == form.Get(key)
    {
      MovedGet(form, ASSERTION_TYPE, key);
    }
    MovedGet(form, ASSERTION_TYPE, Form.ClientAssertion);
    MovedGet(form, ASSERTION_TYPE, Form.ClientAssertionType);
  }

  /** Both forms ask for the same on the same subject token. */
  ghost predicate SameRequest(f: Form.TokenForm, g: Form.TokenForm) {
    && f.Get(Form.SubjectToken) == g.Get(Form.SubjectToken) && f.Get(Form.Scope) == g.Get(Form.Scope)
    && f.Get(Form.Audience) == g.Get(Form.Audience) && f.Get(Form.Resource) == g.Get(Form.Resource)
  }

  /** `g` sends as a client's what `f` sends as an actor's. */
  ghost predicate Swapped(f: Form.TokenForm, g: Form.TokenForm, assertion: string) {
    && PlainDelegation(f, assertion) && SameRequest(f, g) && !g.emptyActorTokenSupplied
    && g.Get(Form.ActorToken).None? && g.Get(Form.ClientId).None?
    && g.Get(Form.ClientAssertion) == Some(assertion) && g.Get(Form.ClientAssertionType) == Some(ASSERTION_TYPE)
  }

  lemma AsClientIsSwapped(form: Form.TokenForm, assertion: string)
    requires PlainDelegation(form, assertion)
    ensures Swapped(form, AsClient(form), assertion)
  {
    AsClientGets(form, assertion);
  }

  lemma ActorIsIdentified(sts: Sts, env: Env, f: Form.TokenForm, g: Form.TokenForm, assertion: string, subject: SubjectClaims, now: int)
    requires DualRole(sts) && Swapped(f, g, assertion) && ActorInOrder(sts, env, f, subject, now)
    ensures ClientIdentified(sts, env, g, now)
  {
  }

  lemma ScopeRemainsAlike(sts: Sts, f: Form.TokenForm, g: Form.TokenForm, subject: SubjectClaims, policy: TargetPolicy)
    requires SameRequest(f, g) && ScopeRemains(sts, f, subject, policy)
    ensures ScopeRemains(sts, g, subject, policy)
  {
    assert Wanted(f, policy) == Wanted(g, policy);
  }

  lemma SubjectStaysInOrder(sts: Sts, env: Env, f: Form.TokenForm, g: Form.TokenForm, now: int)
    requires SameRequest(f, g) && SubjectInOrder(sts, env, f, now)
    ensures SubjectInOrder(sts, env, g, now) && SubjectOf(env, g) == SubjectOf(env, f) && TargetOf(g) == TargetOf(f)
  {
    ScopeRemainsAlike(sts, f, g, SubjectOf(env, f).value.claims, sts.targets[TargetOf(f).value]);
  }

  lemma DelegationParts(sts: Sts, env: Env, form: Form.TokenForm, at: Times)
    requires sts.mode.Both? && form.Get(Form.ActorToken).Some? && FormInOrder(sts, env, form, [], at)
    ensures SubjectInOrder(sts, env, form, at.subject) && ActorInOrder(sts, env, form, SubjectOf(env, form).value.claims, at.actor)
    ensures SigningAllowed(sts, sts.targets[TargetOf(form).value])
  {
  }

  lemma ImpersonationFromParts(sts: Sts, env: Env, form: Form.TokenForm, at: Times)
    requires sts.mode.Both? && form.Get(Form.ActorToken).None? && !form.emptyActorTokenSupplied && form.Get(Form.ClientAssertion).Some?
    requires ClientIdentified(sts, env, form, at.client) && SubjectInOrder(sts, env, form, at.subject)
    requires MayImpersonate(sts, env, form, form.Get(Form.ClientAssertion).value) && SigningAllowed(sts, sts.targets[TargetOf(form).value])
    ensures FormInOrder(sts, env, form, [], at)
  {
  }

  lemma MayImpersonateAlike(sts: Sts, env: Env, f: Form.TokenForm, g: Form.TokenForm, assertion: string)
    requires SameRequest(f, g) && MayImpersonate(sts, env, f, assertion)
    ensures MayImpersonate(sts, env, g, assertion) && TargetOf(g) == TargetOf(f)
  {
  }

  /** A delegation in order is in order as an impersonation, if policy lets its actor impersonate. */
  lemma SwappedIsInOrder(sts: Sts, env: Env, f: Form.TokenForm, g: Form.TokenForm, assertion: string, n: I64)
    requires DualRole(sts) && Swapped(f, g, assertion) && MayImpersonate(sts, env, f, assertion)
    requires FormInOrder(sts, env, f, [], Times(n, n, n, n))
    ensures FormInOrder(sts, env, g, [], Times(n, n, n, n))
  {
    DelegationParts(sts, env, f, Times(n, n, n, n));
    SubjectStaysInOrder(sts, env, f, g, n);
    ActorIsIdentified(sts, env, f, g, assertion, SubjectOf(env, f).value.claims, n);
    MayImpersonateAlike(sts, env, f, g, assertion);
    ImpersonationFromParts(sts, env, g, Times(n, n, n, n));
  }

  lemma ParamsStayInOrder(form: Form.TokenForm, assertion: string, max: nat)
    requires PlainDelegation(form, assertion) && ParamsInOrder(form, max)
    ensures ParamsInOrder(AsClient(form), max)
  {
    AsClientGets(form, assertion);
  }

  function MoveRequest(req: HttpRequest): HttpRequest {
    req.(items := MoveAll(req.items, ASSERTION_TYPE))
  }

  /** The request is a delegation without client parameters or proof, on this assertion. */
  ghost predicate PlainRequest(req: HttpRequest, assertion: string) {
    && NoClientItems(req.items) && req.dpop == [] && Form.Parse(req.items).Ok?
    && PlainDelegation(Form.Parse(req.items).value, assertion)
  }

  lemma MovedRequestIsInOrder(sts: Sts, env: Env, req: HttpRequest, assertion: string, n: I64)
    requires DualRole(sts) && PlainRequest(req, assertion) && MayImpersonate(sts, env, Form.Parse(req.items).value, assertion)
    requires RequestInOrder(sts, env, req, Times(n, n, n, n))
    ensures RequestInOrder(sts, env, MoveRequest(req), Times(n, n, n, n))
  {
    var form := Form.Parse(req.items).value;
    MovedParses(req, assertion);
    AsClientIsSwapped(form, assertion);
    SwappedIsInOrder(sts, env, form, AsClient(form), assertion, n);
    ParamsStayInOrder(form, assertion, sts.maxTokenLen);
  }

  // ---------------------------------------------------------------- two live tokens on one assertion

  /**
   * Whenever one request presents an assertion as the actor's and another as the client's, both pass the gates and share no
   * live credential, the subject has both roles and some run has introspection report both tokens active.
   */
  lemma TwoRolesTwoLiveTokens(w: World, assertion: string, a: Plan, b: Plan, n: int, m: int, callers: seq<string>, files: bool)
    requires ValidWorld(w) && Fruitful(w, a, n, m) && Fruitful(w, b, m, m)
    requires |callers| == 2 && Apart(w, a, b, m, callers, files) && (files || a.replica == b.replica == 0)
    requires Presents(w.cfg(a.replica), a.req, Delegation, assertion) && Presents(w.cfg(b.replica), b.req, Impersonation, assertion)
    ensures BothLive(w, a, b, n, m, files) && !OneRole(w, assertion)
  {
    FruitfulBothLive(w, a, b, n, m, callers, files);
    AssertionIsPrimary(w.cfg(a.replica), w.env, a.req, a.at, a.prepared, Delegation, assertion);
    AssertionIsPrimary(w.cfg(b.replica), w.env, b.req, b.at, b.prepared, Impersonation, assertion);
  }

  /** The keys of an assertion in its two roles. */
  ghost function RoleKeys(env: Env, assertion: string): set<string> {
    var a, b := PrimaryCredential(env, Delegation, assertion), PrimaryCredential(env, Impersonation, assertion);
    (if a.Some? then {a.value.key} else {}) + (if b.Some? then {b.value.key} else {})
  }

  /** The two roles of an assertion have keys of their own. */
  lemma RolesHaveOwnKeys(env: Env, assertion: string)
    requires PrimaryCredential(env, Delegation, assertion).Some?
    ensures PrimaryCredential(env, Delegation, assertion).value.key != PrimaryCredential(env, Impersonation, assertion).value.key
  {
    var a, b := PrimaryCredential(env, Delegation, assertion).value.key, PrimaryCredential(env, Impersonation, assertion).value.key;
    assert a[0] == 'a' && b[0] == 'c';
  }

  /** A plain request in either role records its assertion and nothing else. */
  lemma RecordsOnlyAssertion(sts: Sts, env: Env, form: Form.TokenForm, mode: EffectiveMode, assertion: string)
    requires mode == ModeOf(sts, form) && CallerToken(form, mode) == Some(assertion)
    requires mode.Delegation? ==> form.Get(Form.ClientAssertion).None?
    requires PrimaryCredential(env, mode, assertion).Some?
    ensures Presented(sts, env, form, []) == [PrimaryCredential(env, mode, assertion).value]
  {
  }

  lemma MovedParses(req: HttpRequest, assertion: string)
    requires PlainRequest(req, assertion)
    ensures Form.Parse(MoveRequest(req).items) == Ok(AsClient(Form.Parse(req.items).value))
  {
    assert ASSERTION_TYPE[0] == 'u';
    MoveParses(req.items, ASSERTION_TYPE);
  }

  lemma MovedPresents(sts: Sts, req: HttpRequest, assertion: string)
    requires DualRole(sts) && PlainRequest(req, assertion)
    ensures Presents(sts, req, Delegation, assertion) && Presents(sts, MoveRequest(req), Impersonation, assertion)
  {
    MovedParses(req, assertion);
    AsClientIsSwapped(Form.Parse(req.items).value, assertion);
  }

  /** The second token can be written as a string. */
  ghost predicate Writes(w: World, a: Plan, n: int, jti: string, token: string) {
    forall p :: w.gates(a.replica, MoveRequest(a.req), a.at) == Ok(p) ==>
      w.decode(token) == Some(Sign(w.cfg(a.replica), Mint(w.cfg(a.replica), p, n, jti)))
  }

  /** Read at one time, the same request in the other role passes the gates as well. */
  lemma MovedPasses(sts: Sts, env: Env, req: HttpRequest, assertion: string, n: I64)
    requires DualRole(sts) && PlainRequest(req, assertion) && MayImpersonate(sts, env, Form.Parse(req.items).value, assertion)
    requires Prepare(sts, env, req, Times(n, n, n, n)).Ok?
    ensures Prepare(sts, env, MoveRequest(req), Times(n, n, n, n)).Ok?
  {
    PassesExactlyWhen(sts, env, req, Times(n, n, n, n));
    MovedRequestIsInOrder(sts, env, req, assertion, n);
    PassesExactlyWhen(sts, env, MoveRequest(req), Times(n, n, n, n));
  }

  /** And its token expires at the same time. */
  lemma MovedExpiresAlike(sts: Sts, env: Env, req: HttpRequest, assertion: string, at: Times, n: int, jti: string, jti': string)
    requires DualRole(sts) && PlainRequest(req, assertion) && Prepare(sts, env, req, at).Ok? && Prepare(sts, env, MoveRequest(req), at).Ok?
    ensures Mint(sts, Prepare(sts, env, req, at).value, n, jti).exp == Mint(sts, Prepare(sts, env, MoveRequest(req), at).value, n, jti').exp
  {
    MintSound(sts, env, req, at, n, jti);
    MintSound(sts, env, MoveRequest(req), at, n, jti');
    MovedParses(req, assertion);
    CappedAlike(sts, env, Form.Parse(req.items).value, AsClient(Form.Parse(req.items).value), assertion,
                Mint(sts, Prepare(sts, env, req, at).value, n, jti), Mint(sts, Prepare(sts, env, MoveRequest(req), at).value, n, jti'));
  }

  lemma CappedAlike(sts: Sts, env: Env, f: Form.TokenForm, g: Form.TokenForm, assertion: string, c: MintedClaims, d: MintedClaims)
    requires sts.mode.Both? && PlainDelegation(f, assertion) && g == AsClient(f) && Capped(sts, env, f, c) && Capped(sts, env, g, d) && c.iat == d.iat
    ensures c.exp == d.exp
  {
    AsClientIsSwapped(f, assertion);
  }

  lemma SecondPlan(w: World, assertion: string, a: Plan, n: I64, jti: string, token: string) returns (b: Plan)
    requires ValidWorld(w) && Fruitful(w, a, n, n) && a.at == Times(n, n, n, n) && DualRole(w.cfg(a.replica)) && PlainRequest(a.req, assertion)
    requires MayImpersonate(w.cfg(a.replica), w.env, Form.Parse(a.req.items).value, assertion) && Writes(w, a, n, jti, token)
    ensures b == Plan(a.replica, MoveRequest(a.req), a.at, b.prepared, jti, token) && Fruitful(w, b, n, n)
  {
    var sts := w.cfg(a.replica);
    MovedPasses(sts, w.env, a.req, assertion, n);
    var p := Prepare(sts, w.env, MoveRequest(a.req), a.at).value;
    assert w.gates(a.replica, MoveRequest(a.req), a.at) == Ok(p);
    MovedExpiresAlike(sts, w.env, a.req, assertion, a.at, n, a.jti, jti);
    b := Plan(a.replica, MoveRequest(a.req), a.at, p, jti, token);
  }

  lemma RecordedByBoth(w: World, assertion: string, a: Plan, b: Plan, n: int)
    requires ValidWorld(w) && Fruitful(w, a, n, n) && Fruitful(w, b, n, n) && a.replica == b.replica && b.req == MoveRequest(a.req)
    requires DualRole(w.cfg(a.replica)) && PlainRequest(a.req, assertion)
    ensures var c, d := PrimaryCredential(w.env, Delegation, assertion), PrimaryCredential(w.env, Impersonation, assertion);
      c.Some? && d.Some? && a.prepared.creds == [c.value] && b.prepared.creds == [d.value]
  {
    var sts, f := w.cfg(a.replica), Form.Parse(a.req.items).value;
    MovedPresents(sts, a.req, assertion);
    MovedParses(a.req, assertion);
    AsClientIsSwapped(f, assertion);
    AssertionIsPrimary(sts, w.env, a.req, a.at, a.prepared, Delegation, assertion);
    PassesExactlyWhen(sts, w.env, a.req, a.at);
    PassesExactlyWhen(sts, w.env, b.req, b.at);
    RecordsOnlyAssertion(sts, w.env, f, Delegation, assertion);
    RecordsOnlyAssertion(sts, w.env, AsClient(f), Impersonation, assertion);
  }

  lemma RolesApart(w: World, assertion: string, a: Plan, b: Plan, n: int, callers: seq<string>, files: bool)
    requires PrimaryCredential(w.env, Delegation, assertion).Some? && a.prepared.creds == [PrimaryCredential(w.env, Delegation, assertion).value]
    requires b.prepared.creds == [PrimaryCredential(w.env, Impersonation, assertion).value]
    requires |callers| == 2 && callers[0] != callers[1] && w.lim.maxSeen >= 4
    requires forall i :: 0 <= i < 2 ==> !Blank(callers[i]) && callers[i] !in RoleKeys(w.env, assertion)
    ensures Apart(w, a, b, n, callers, files)
  {
    RolesHaveOwnKeys(w.env, assertion);
    assert KeysOf(a.prepared.creds) + KeysOf(b.prepared.creds) <= RoleKeys(w.env, assertion);
  }

  /**
   * One delegation is enough: where clients are the actors and may impersonate, the assertion of every plain delegation
   * that passes the gates yields a second token, and introspection reports both active, on either store.
   */
  lemma OneDelegationTwoLiveTokens(w: World, assertion: string, a: Plan, n: I64, jti: string, token: string, callers: seq<string>, files: bool) returns (b: Plan)
    requires ValidWorld(w) && Fruitful(w, a, n, n) && a.at == Times(n, n, n, n) && DualRole(w.cfg(a.replica)) && PlainRequest(a.req, assertion)
    requires MayImpersonate(w.cfg(a.replica), w.env, Form.Parse(a.req.items).value, assertion) && Writes(w, a, n, jti, token)
    requires |callers| == 2 && callers[0] != callers[1] && w.lim.maxSeen >= 4 && (files || a.replica == 0)
    requires forall i :: 0 <= i < 2 ==> !Blank(callers[i]) && callers[i] !in RoleKeys(w.env, assertion)
    ensures b.replica == a.replica && b.req == MoveRequest(a.req) && BothLive(w, a, b, n, n, files)
    ensures Presents(w.cfg(a.replica), a.req, Delegation, assertion) && Presents(w.cfg(b.replica), b.req, Impersonation, assertion)
  {
    b := SecondPlan(w, assertion, a, n, jti, token);
    MovedPresents(w.cfg(a.replica), a.req, assertion);
    RecordedByBoth(w, assertion, a, b, n);
    RolesApart(w, assertion, a, b, n, callers, files);
    FruitfulBothLive(w, a, b, n, n, callers, files);
  }

  // ---------------------------------------------------------------- in every such service

  /** A single process with this configuration, in which the strings "1" and "2" are the tokens of these two exchanges. */
  ghost function OneProcess(sts: Sts, env: Env, lim: Limits, p: Prepared, q: Prepared, n: int): World {
    World(r => sts, env, lim,
          token =>
            if token == "1" then Some(Sign(sts, Mint(sts, p, n, "1")))
            else if token == "2" then Some(Sign(sts, Mint(sts, q, n, "2")))
            else None,
          (r, req, at) => Prepare(sts, env, req, at))
  }

  lemma OneProcessIsValid(sts: Sts, env: Env, lim: Limits, p: Prepared, q: Prepared, n: int)
    requires ValidConfig(sts)
    ensures ValidWorld(OneProcess(sts, env, lim, p, q, n))
  {
  }

  lemma FirstIsFruitful(w: World, sts: Sts, env: Env, lim: Limits, a: Plan, q: Prepared, n: I64)
    requires w == OneProcess(sts, env, lim, a.prepared, q, n) && a.at == Times(n, n, n, n) && a.jti == a.token == "1"
    requires Prepare(sts, env, a.req, a.at) == Ok(a.prepared) && n < Mint(sts, a.prepared, n, "1").exp
    ensures Fruitful(w, a, n, n)
  {
  }

  lemma SecondIsWritten(w: World, sts: Sts, env: Env, lim: Limits, a: Plan, q: Prepared, n: I64)
    requires w == OneProcess(sts, env, lim, a.prepared, q, n) && Prepare(sts, env, MoveRequest(a.req), a.at) == Ok(q)
    ensures Writes(w, a, n, "2", "2")
  {
  }

  /**
   * Every configuration in which clients are the actors and may impersonate: the assertion of each plain delegation that
   * passes the gates and has not expired backs two tokens that a process with that configuration reports active.
   */
  lemma EveryDualServiceHasTwo(sts: Sts, env: Env, lim: Limits, req: HttpRequest, assertion: string, n: I64, callers: seq<string>, files: bool)
    returns (w: World, a: Plan, b: Plan)
    requires ValidConfig(sts) && DualRole(sts) && PlainRequest(req, assertion) && MayImpersonate(sts, env, Form.Parse(req.items).value, assertion)
    requires Prepare(sts, env, req, Times(n, n, n, n)).Ok? && n < Mint(sts, Prepare(sts, env, req, Times(n, n, n, n)).value, n, "1").exp
    requires |callers| == 2 && callers[0] != callers[1] && lim.maxSeen >= 4
    requires forall i :: 0 <= i < 2 ==> !Blank(callers[i]) && callers[i] !in RoleKeys(env, assertion)
    ensures ValidWorld(w) && w.cfg(0) == sts && w.env == env && w.lim == lim && BothLive(w, a, b, n, n, files)
    ensures Presents(w.cfg(a.replica), a.req, Delegation, assertion) && Presents(w.cfg(b.replica), b.req, Impersonation, assertion)
  {
    var at := Times(n, n, n, n);
    MovedPasses(sts, env, req, assertion, n);
    var p, q := Prepare(sts, env, req, at).value, Prepare(sts, env, MoveRequest(req), at).value;
    w, a := OneProcess(sts, env, lim, p, q, n), Plan(0, req, at, p, "1", "1");
    OneProcessIsValid(sts, env, lim, p, q, n);
    FirstIsFruitful(w, sts, env, lim, a, q, n);
    SecondIsWritten(w, sts, env, lim, a, q, n);
    b := OneDelegationTwoLiveTokens(w, assertion, a, n, "2", "2", callers, files);
  }
}
