/** A small service in which one assertion is good for two live tokens. */
module Example {
  import opened Prelude
  import opened Text
  import opened ActorChain
  import opened Jwks
  import opened ReplayStore
  import opened Exchange
  import opened Genuine
  import opened Admission
  import opened Minting
  import opened Server
  import opened Runs
  import opened RunBuilding
  import opened TwoTokens
  import opened Roles
  import Form

  /** One identity, which is an actor and a client and may impersonate anybody anywhere; one target with one scope. */
  function Service(): Sts {
    Sts("i", "e", "p", ["s"], [Jwk("k", "RS256", 0)], [Jwk("x", "RS256", 1)], [Jwk("x", "RS256", 1)],
        {"x"}, {"x"}, ["RS256"], Both, false, 0, 60, 60, false, 100, map["a" := TargetPolicy(["r"], [], {}, false)], false,
        map["x" := ImpersonationEntry(Any, Any)], false, {}, false, Jwk("g", "RS256", 2), [], 10)
  }

  function Subject(): Jws<SubjectClaims> {
    Jws("RS256", Some("k"), None, 0, SubjectClaims("p", Some("u"), Str("s"), None, None, 100, None, None, None, AuthContext(None, None, [])))
  }

  function Assertion(): Jws<AssertionClaims> {
    Jws("RS256", Some("x"), None, 1, AssertionClaims("x", "x", Str("i"), 100, Some(50), Some("j"), None))
  }

  /** Every string decodes to the one subject token and to the one assertion. */
  function Tokens(): Env {
    Env(_ => Some(Subject()), _ => Some(Assertion()), _ => None, s => s, (a, b) => a + b)
  }

  /** A delegation as the command line is asked for it. */
  function Args(): Form.ExchangeArgs {
    Form.ExchangeArgs(GRANT_TYPE, "b", JWT_TOKEN_TYPE, Some("b"), JWT_TOKEN_TYPE, None, ASSERTION_TYPE, None, ["a"], [], Some("r"), None)
  }

  lemma UrnsAreNotBlank()
    ensures !Blank(GRANT_TYPE) && !Blank(JWT_TOKEN_TYPE)
  {
    assert GRANT_TYPE[0] == URN[0] == 'u' && JWT_TOKEN_TYPE[0] == URN[0];
  }

  lemma ArgsAreNotBlank()
    ensures Form.NoBlanks(Form.ArgValues(Args()))
  {
    UrnsAreNotBlank();
    assert !IsSpace("a"[0]) && !IsSpace("b"[0]) && !IsSpace("r"[0]);
  }

  /** What the server reads in it. */
  ghost predicate Says(form: Form.TokenForm) {
    && form.Get(Form.GrantType) == Some(GRANT_TYPE) && form.Get(Form.SubjectToken) == Some("b") && form.Get(Form.SubjectTokenType) == Some(JWT_TOKEN_TYPE)
    && form.Get(Form.ActorToken) == Some("b") && form.Get(Form.ActorTokenType) == Some(JWT_TOKEN_TYPE) && NoClient(form)
    && form.Get(Form.Audience) == Some("a") && form.Get(Form.Resource) == None && form.Get(Form.Scope) == Some("r")
    && form.Get(Form.RequestedTokenType) == None
  }

  lemma ArgsAreSaid(form: Form.TokenForm)
    requires Form.GivesBack(form, Form.ArgValues(Args()))
    ensures Says(form)
  {
  }

  lemma OneWord(c: char)
    requires !IsSpace(c)
    ensures Trim([c]) == [c] && Split([c]) == [[c]]
  {
    assert Join([[c]]) == [c];
    SplitJoin([[c]]);
  }

  lemma SubjectIsGenuine()
    ensures SubjectGenuine(Service(), Subject(), 50)
  {
    var keys, audiences := Service().subjectJwks, Service().subjectAudiences;
    assert SignedWith(Subject(), keys[0]);
    assert audiences[0] == "s" && "s" in audiences;
  }

  lemma AssertionIsGenuine()
    ensures AssertionGenuine(Service(), Assertion(), Service().actorJwks, None, 50)
  {
    var keys, audiences := Service().actorJwks, [Service().issuer, Service().tokenEndpoint];
    assert SignedWith(Assertion(), keys[0]);
    assert audiences[0] == "i" && "i" in audiences;
    assert Service().inboundAlgs[0] == "RS256";
  }

  lemma NoSubjectScope(w: string)
    ensures !CarriesWord(Subject().claims, w)
  {
  }

  lemma SomethingRemains(form: Form.TokenForm, policy: TargetPolicy)
    requires Says(form) && policy == TargetPolicy(["r"], [], {}, false)
    ensures ScopeRemains(Service(), form, Subject().claims, policy)
  {
    OneWord('r');
    assert Split("r")[0] == "r" && Wanted(form, policy) == Split("r");
    assert policy.allowed[0] == "r" && TargetAllows(policy, "r");
    forall w
      ensures !CarriesWord(Subject().claims, w)
    {
      NoSubjectScope(w);
    }
    assert MayGrant(Service(), policy, Subject().claims, "r");
  }

  lemma TargetIsKnown(form: Form.TokenForm)
    requires Says(form)
    ensures TargetOf(form) == Some("a") && Service().targets == map["a" := TargetPolicy(["r"], [], {}, false)]
  {
    OneWord('a');
  }

  lemma SubjectIsInOrder(form: Form.TokenForm)
    requires Says(form)
    ensures SubjectInOrder(Service(), Tokens(), form, 50)
  {
    SubjectIsGenuine();
    TargetIsKnown(form);
    SomethingRemains(form, Service().targets["a"]);
    assert !IsSpace("u"[0]);
  }

  lemma ActorFromParts(sts: Sts, env: Env, form: Form.TokenForm, subject: SubjectClaims, j: Jws<AssertionClaims>, token: string, now: int)
    requires form.Get(Form.ActorToken) == Some(token) && env.assertion(token) == Some(j) && !sts.requireSubjectBinding
    requires AssertionGenuine(sts, j, sts.actorJwks, None, now) && ActorPermitted(sts, subject, j.claims)
    ensures ActorInOrder(sts, env, form, subject, now)
  {
  }

  lemma ActorIsPermitted()
    ensures ActorPermitted(Service(), Subject().claims, Assertion().claims)
  {
    assert !IsSpace("j"[0]);
  }

  lemma ActorIsInOrder(form: Form.TokenForm)
    requires Says(form)
    ensures ActorInOrder(Service(), Tokens(), form, Subject().claims, 50)
  {
    AssertionIsGenuine();
    ActorIsPermitted();
    ActorFromParts(Service(), Tokens(), form, Subject().claims, Assertion(), "b", 50);
  }

  lemma DelegationFromParts(sts: Sts, env: Env, form: Form.TokenForm, at: Times)
    requires sts.mode.Both? && form.Get(Form.ActorToken).Some? && NoClient(form) && !sts.clientAuthRequired
    requires SubjectInOrder(sts, env, form, at.subject) && ActorInOrder(sts, env, form, SubjectOf(env, form).value.claims, at.actor)
    requires SigningAllowed(sts, sts.targets[TargetOf(form).value])
    ensures FormInOrder(sts, env, form, [], at)
  {
  }

  lemma FormIsInOrder(form: Form.TokenForm)
    requires Says(form)
    ensures FormInOrder(Service(), Tokens(), form, [], Times(50, 50, 50, 50))
  {
    SubjectIsInOrder(form);
    ActorIsInOrder(form);
    TargetIsKnown(form);
    DelegationFromParts(Service(), Tokens(), form, Times(50, 50, 50, 50));
  }

  lemma ParamsAreInOrder(form: Form.TokenForm)
    requires Says(form)
    ensures ParamsInOrder(form, 100)
  {
  }

  // ---------------------------------------------------------------- the request and the run

  function Request(keys: seq<Form.Key>): HttpRequest {
    HttpRequest(true, false, Form.Pushed(Form.ArgValues(Args()), keys), [])
  }

  lemma RequestParses(keys: seq<Form.Key>)
    requires Form.Complete(keys)
    ensures Form.Parse(Request(keys).items).Ok? && Says(Form.Parse(Request(keys).items).value)
  {
    var values := Form.ArgValues(Args());
    ArgsAreNotBlank();
    Form.FormRoundTrip(Args(), keys);
    Form.PushedIsKnown(values, keys);
    Form.ClassifyWire(Form.Pushed(values, keys));
    ArgsAreSaid(Form.Parse(Request(keys).items).value);
  }

  lemma NoClientIsPushed(keys: seq<Form.Key>, values: Form.Values)
    requires Form.Complete(keys) && forall key: Form.Key :: IsClientKey(key) ==> values(key) == []
    ensures NoClientItems(Form.Pushed(values, keys))
  {
    var items := Form.Pushed(values, keys);
    forall i | 0 <= i < |items| && items[i].Known?
      ensures !IsClientKey(items[i].key)
    {
      assert items[i] in multiset(items) && items[i] == Form.Known(items[i].key, items[i].value);
      Form.PushedCount(values, keys, items[i].key, items[i].value);
    }
  }

  lemma FormIsPlain(form: Form.TokenForm)
    requires Says(form)
    ensures PlainDelegation(form, "b") && MayImpersonate(Service(), Tokens(), form, "b")
  {
    TargetIsKnown(form);
    assert !IsSpace("b"[0]);
  }

  lemma RequestFromParts(sts: Sts, env: Env, req: HttpRequest, at: Times, form: Form.TokenForm)
    requires req.formEncoded && !req.hasAuthorization && Form.Parse(req.items) == Ok(form)
    requires ParamsInOrder(form, sts.maxTokenLen) && FormInOrder(sts, env, form, req.dpop, at)
    ensures Prepare(sts, env, req, at).Ok?
  {
    PassesExactlyWhen(sts, env, req, at);
  }

  lemma RequestPasses(keys: seq<Form.Key>)
    requires Form.Complete(keys)
    ensures Prepare(Service(), Tokens(), Request(keys), Times(50, 50, 50, 50)).Ok?
  {
    RequestParses(keys);
    var form := Form.Parse(Request(keys).items).value;
    FormIsInOrder(form);
    ParamsAreInOrder(form);
    RequestFromParts(Service(), Tokens(), Request(keys), Times(50, 50, 50, 50), form);
  }

  lemma ServiceIsValid()
    ensures ValidConfig(Service()) && DualRole(Service())
  {
    assert !IsSpace("x"[0]);
  }

  lemma LivesLongEnough(form: Form.TokenForm, c: MintedClaims)
    requires Says(form) && Capped(Service(), Tokens(), form, c) && c.iat == 50
    ensures c.exp == 100
  {
  }

  lemma TokenLivesLongEnough(keys: seq<Form.Key>)
    requires Form.Complete(keys) && Prepare(Service(), Tokens(), Request(keys), Times(50, 50, 50, 50)).Ok?
    ensures 50 < Mint(Service(), Prepare(Service(), Tokens(), Request(keys), Times(50, 50, 50, 50)).value, 50, "1").exp
  {
    RequestParses(keys);
    MintSound(Service(), Tokens(), Request(keys), Times(50, 50, 50, 50), 50, "1");
    LivesLongEnough(Form.Parse(Request(keys).items).value, Mint(Service(), Prepare(Service(), Tokens(), Request(keys), Times(50, 50, 50, 50)).value, 50, "1"));
  }

  lemma CallersAreStrangers(callers: seq<string>)
    requires callers == ["1", "2"]
    ensures callers[0] != callers[1] && forall i :: 0 <= i < 2 ==> !Blank(callers[i]) && callers[i] !in RoleKeys(Tokens(), "b")
  {
    var a, b := PrimaryCredential(Tokens(), Delegation, "b").value.key, PrimaryCredential(Tokens(), Impersonation, "b").value.key;
    assert a[0] == 'a' && b[0] == 'c' && callers[0][0] == '1' && callers[1][0] == '2';
  }

  lemma RequestIsPlain(keys: seq<Form.Key>)
    requires Form.Complete(keys)
    ensures PlainRequest(Request(keys), "b") && MayImpersonate(Service(), Tokens(), Form.Parse(Request(keys).items).value, "b")
  {
    RequestParses(keys);
    NoClientIsPushed(keys, Form.ArgValues(Args()));
    FormIsPlain(Form.Parse(Request(keys).items).value);
  }

  /** So one assertion, sent once as the actor's and once as the client's, does yield two live tokens. */
  lemma OneAssertionTwoTokens() returns (w: World, a: Plan, b: Plan)
    ensures ValidWorld(w) && BothLive(w, a, b, 50, 50, false)
    ensures Presents(w.cfg(a.replica), a.req, Delegation, "b") && Presents(w.cfg(b.replica), b.req, Impersonation, "b")
  {
    var keys := [
      Form.GrantType, Form.SubjectToken, Form.SubjectTokenType, Form.ActorToken, Form.ActorTokenType, Form.ClientAssertion,
      Form.ClientAssertionType, Form.ClientId, Form.Audience, Form.Resource, Form.Scope, Form.RequestedTokenType];
    assert Form.InOrder(keys);
    Form.ListsEveryKey(keys);
    w, a, b := WithKeys(keys);
  }

  lemma WithKeys(keys: seq<Form.Key>) returns (w: World, a: Plan, b: Plan)
    requires Form.Complete(keys)
    ensures ValidWorld(w) && BothLive(w, a, b, 50, 50, false)
    ensures Presents(w.cfg(a.replica), a.req, Delegation, "b") && Presents(w.cfg(b.replica), b.req, Impersonation, "b")
  {
    ServiceIsValid();
    RequestIsPlain(keys);
    RequestPasses(keys);
    TokenLivesLongEnough(keys);
    CallersAreStrangers(["1", "2"]);
    w, a, b := EveryDualServiceHasTwo(Service(), Tokens(), Limits(10, 1), Request(keys), "b", 50, ["1", "2"], false);
  }
}
