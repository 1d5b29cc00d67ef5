/** Exactly which requests the gates of the token endpoint let through, and which credentials they then leave to record. */
module Admission {
  import opened Prelude
  import opened Text
  import opened Scopes
  import opened ActorChain
  import opened Dpop
  import opened Exchange
  import opened Genuine
  import opened Recording
  import Form

  // ---------------------------------------------------------------- scope

  ghost predicate TargetAllows(policy: TargetPolicy, w: string) {
    exists i :: 0 <= i < |policy.allowed| && w in Split(policy.allowed[i])
  }

  /** The subject token's scopes bind if it carries any and strictness is configured or one of them meets the target. */
  ghost predicate SubjectScopesBind(sts: Sts, policy: TargetPolicy, subject: SubjectClaims) {
    && (exists w :: CarriesWord(subject, w))
    && (sts.scopeBoundRequired || exists w :: TargetAllows(policy, w) && CarriesWord(subject, w))
  }

  ghost predicate MayGrant(sts: Sts, policy: TargetPolicy, subject: SubjectClaims, w: string) {
    TargetAllows(policy, w) && (SubjectScopesBind(sts, policy, subject) ==> CarriesWord(subject, w))
  }

  /** The words of the request's own scope or, when it has none, the target's defaults. */
  ghost function Wanted(form: Form.TokenForm, policy: TargetPolicy): seq<string> {
    var own := Split(OrEmpty(form.Get(Form.Scope)));
    if own != [] then own else Split(Join(policy.defaults))
  }

  /** The scope is what was wanted with exactly the words that may not be granted struck out, and is not empty. */
  ghost predicate Grants(sts: Sts, form: Form.TokenForm, policy: TargetPolicy, subject: SubjectClaims, scope: string) {
    && Split(scope) != [] && Subsequence(Split(scope), Wanted(form, policy))
    && forall w :: multiset(Split(scope))[w] == if MayGrant(sts, policy, subject, w) then multiset(Wanted(form, policy))[w] else 0
  }

  lemma WantedIsAsked(form: Form.TokenForm, policy: TargetPolicy)
    ensures Asked(RequestedScope(form, policy)) == Wanted(form, policy)
  {
    var own := OrEmpty(form.Get(Form.Scope));
    SplitTrim(own);
    BlankHasNoWords(own);
  }

  lemma TargetWords(policy: TargetPolicy)
    ensures forall w :: w in Split(Join(policy.allowed)) <==> TargetAllows(policy, w)
  {
    forall w
      ensures w in Split(Join(policy.allowed)) <==> TargetAllows(policy, w)
    {
      WordsOfJoined(policy.allowed, w);
    }
  }

  lemma SubjectBindsAlike(sts: Sts, policy: TargetPolicy, subject: SubjectClaims)
    requires SubjectScope(subject).Some?
    ensures SubjectBinds(Split(Join(policy.allowed)), SubjectWords(SubjectScope(subject).value), sts.scopeBoundRequired)
      <==> SubjectScopesBind(sts, policy, subject)
  {
    SubjectScopeMeaning(subject);
    TargetWords(policy);
    var own := SubjectScope(subject).value;
    if own.Some? {
      assert Split(own.value)[0] in Split(own.value);
    }
  }

  lemma PermittedIsMayGrant(sts: Sts, policy: TargetPolicy, subject: SubjectClaims, w: string)
    requires SubjectScope(subject).Some?
    ensures Permitted(w, Split(Join(policy.allowed)), SubjectWords(SubjectScope(subject).value), sts.scopeBoundRequired)
      <==> MayGrant(sts, policy, subject, w)
  {
    SubjectBindsAlike(sts, policy, subject);
    SubjectScopeMeaning(subject);
    TargetWords(policy);
  }

  /** A scope is granted exactly when some wanted word may be; then all such words are. */
  lemma ScopeExactlyWhen(sts: Sts, form: Form.TokenForm, subject: SubjectClaims, policy: TargetPolicy)
    ensures var r := ResolveScope(sts, form, subject, policy);
      && (r.Ok? <==> ScopeRemains(sts, form, subject, policy))
      && (r.Ok? ==> Grants(sts, form, policy, subject, r.value))
  {
    var own := SubjectScope(subject);
    SubjectScopeMeaning(subject);
    WantedIsAsked(form, policy);
    if own.Some? {
      DownscopeMeaning(RequestedScope(form, policy), Join(policy.allowed), own.value, sts.scopeBoundRequired);
      forall w
        ensures Permitted(w, Split(Join(policy.allowed)), SubjectWords(own.value), sts.scopeBoundRequired) <==> MayGrant(sts, policy, subject, w)
      {
        PermittedIsMayGrant(sts, policy, subject, w);
      }
    }
  }

  // ---------------------------------------------------------------- what a request has to bring

  ghost function ClaimsOf(env: Env, token: Option<string>): Option<AssertionClaims> {
    if token.Some? && env.assertion(token.value).Some? then Some(env.assertion(token.value).value.claims) else None
  }

  /** Delegation or impersonation; in `Both` mode sending an `actor_token`, even an empty one, asks for delegation. */
  ghost function ModeOf(sts: Sts, form: Form.TokenForm): EffectiveMode {
    if sts.mode.ImpersonationOnly? || (sts.mode.Both? && form.Get(Form.ActorToken).None? && !form.emptyActorTokenSupplied) then Impersonation
    else Delegation
  }

  ghost predicate NoClient(form: Form.TokenForm) {
    form.Get(Form.ClientAssertion).None? && form.Get(Form.ClientAssertionType).None? && form.Get(Form.ClientId).None?
  }

  /** A genuine assertion of a registered client, who is the one named in the form if one is, with a `jti` to record. */
  ghost predicate ClientIdentified(sts: Sts, env: Env, form: Form.TokenForm, now: int) {
    var token := form.Get(Form.ClientAssertion);
    && token.Some? && env.assertion(token.value).Some?
    && ParamsIdentify(sts, env, form, AssertionGenuine(sts, env.assertion(token.value).value, sts.clientJwks, None, now))
  }

  /** Impersonation needs a client and no actor; a delegation may bring a client beside its actor, and must if configured so. */
  ghost predicate ClientInOrder(sts: Sts, env: Env, form: Form.TokenForm, mode: EffectiveMode, now: int) {
    ClientSuits(sts, form, mode, ClientIdentified(sts, env, form, now))
  }

  ghost predicate ClientSuits(sts: Sts, form: Form.TokenForm, mode: EffectiveMode, identified: bool) {
    if mode.Impersonation? then form.Get(Form.ActorToken).None? && form.Get(Form.ClientAssertion).Some? && identified
    else if NoClient(form) then !sts.clientAuthRequired
    else form.Get(Form.ActorToken).Some? && form.Get(Form.ClientAssertion).Some? && identified
  }

  ghost predicate ProofInOrder(sts: Sts, env: Env, dpop: seq<string>, now: I64) {
    dpop != [] ==>
      && |dpop| == 1 && env.proof(dpop[0]).Some?
      && var iat, l := env.proof(dpop[0]).value.2, NonNegative(sts.leeway); iat.Some? && iat.value - l <= now <= iat.value + l
  }

  ghost function NonNegative(x: int): int {
    if x < 0 then 0 else x
  }

  ghost function TargetOf(form: Form.TokenForm): Option<string> {
    ResolveTarget(form.Get(Form.Audience), form.Get(Form.Resource))
  }

  /** Audience and resource, whichever are given, name the target; a resource is an absolute URI without a fragment. */
  ghost predicate NamesTarget(form: Form.TokenForm, target: string) {
    var audience, resource := form.Get(Form.Audience), form.Get(Form.Resource);
    && target != "" && (audience.Some? || resource.Some?)
    && (audience.Some? ==> Trim(audience.value) == target)
    && (resource.Some? ==> Trim(resource.value) == target && HasScheme(target) && target[0] != '/' && '#' !in target)
  }

  ghost predicate HasScheme(uri: string) {
    exists i :: 0 <= i <= |uri| - 3 && uri[i..][..3] == "://"
  }

  lemma {:induction false} ContainsExactlyWhen(s: string, part: string)
    ensures Contains(s, part) <==> exists i :: 0 <= i <= |s| - |part| && s[i..][..|part|] == part
    decreases |s|
  {
    if part <= s {
      assert s[0..][..|part|] == part;
    } else if s != "" {
      ContainsExactlyWhen(s[1..], part);
      assert s[0..] == s;
      if i :| 0 <= i <= |s[1..]| - |part| && s[1..][i..][..|part|] == part {
        assert s[i + 1..] == s[1..][i..];
      }
      if i :| 0 <= i <= |s| - |part| && s[i..][..|part|] == part {
        if i > 0 {
          assert s[1..][i - 1..] == s[i..];
        }
      }
    }
  }

  lemma TargetExactlyWhen(form: Form.TokenForm, target: string)
    ensures TargetOf(form) == Some(target) <==> NamesTarget(form, target)
  {
    var resource := form.Get(Form.Resource);
    if resource.Some? {
      ContainsExactlyWhen(Trim(resource.value), "://");
    }
  }

  /** A genuine subject token that names its subject, a configured target, and something to grant. */
  ghost predicate SubjectInOrder(sts: Sts, env: Env, form: Form.TokenForm, now: int) {
    var j, target := env.subject(OrEmpty(form.Get(Form.SubjectToken))), TargetOf(form);
    && j.Some? && SubjectGenuine(sts, j.value, now)
    && j.value.claims.sub.Some? && !Blank(j.value.claims.sub.value)
    && form.Get(Form.Audience) != Some("") && target.Some? && target.value in sts.targets
    && ScopeRemains(sts, form, j.value.claims, sts.targets[target.value])
  }

  ghost predicate ScopeRemains(sts: Sts, form: Form.TokenForm, subject: SubjectClaims, policy: TargetPolicy) {
    !MalformedScope(subject.scp) && exists w :: w in Wanted(form, policy) && MayGrant(sts, policy, subject, w)
  }

  /** The key that the server signs with suits the target and the configured preference. */
  ghost predicate SigningAllowed(sts: Sts, policy: TargetPolicy) {
    var alg := sts.signer.alg;
    && (policy.acceptedAlgs == {} || alg in policy.acceptedAlgs)
    && (policy.pqcRequired ==> IsMlDsa(alg))
    && (sts.pqcPreferred ==> if IsMlDsa(alg) then alg in sts.pqcPreferredAlgs else sts.allowNonPqc)
  }

  /** A genuine assertion of a permitted actor whom the subject lets act, with a `jti` to record and a chain to extend. */
  ghost predicate ActorInOrder(sts: Sts, env: Env, form: Form.TokenForm, subject: SubjectClaims, now: int) {
    var token := form.Get(Form.ActorToken);
    && token.Some? && env.assertion(token.value).Some?
    && AssertionGenuine(sts, env.assertion(token.value).value, sts.actorJwks, BoundTo(sts, env, form), now)
    && ActorPermitted(sts, subject, env.assertion(token.value).value.claims)
  }

  /** The hash that an assertion has to carry where assertions are bound to the subject token. */
  ghost function BoundTo(sts: Sts, env: Env, form: Form.TokenForm): Option<string> {
    if sts.requireSubjectBinding && form.Get(Form.SubjectToken).Some? then Some(env.hash(form.Get(Form.SubjectToken).value))
    else if sts.requireSubjectBinding then Some(env.hash(""))
    else None
  }

  /** The subject token has no `may_act`, or an object there that names this actor, as its issuer too if it names one. */
  ghost predicate Authorizes(subject: SubjectClaims, actor: string) {
    subject.mayAct.Some? ==>
      && subject.mayAct.value.Obj?
      && var v := subject.mayAct.value.members;
         "sub" in v && v["sub"] == Str(actor) && ("iss" in v ==> v["iss"] == Str(actor))
  }

  lemma MayActExactlyWhen(subject: SubjectClaims, actor: AssertionClaims)
    requires actor.iss == actor.sub
    ensures MayAct(subject, actor) <==> Authorizes(subject, actor.sub)
  {
  }

  ghost predicate ActorPermitted(sts: Sts, subject: SubjectClaims, actor: AssertionClaims) {
    && actor.sub in sts.actorIds && actor.iss == actor.sub && Authorizes(subject, actor.sub)
    && actor.jti.Some? && !Blank(actor.jti.value)
    && (subject.act.Some? ==> Parse(subject.act.value).Some?)
  }

  /** The list is open, or holds the value. */
  ghost predicate Holds(list: Selector, v: string) {
    list == Any || (list.Values? && v in list.values)
  }

  /** The client's policy allows the target and the subject. */
  ghost predicate ClientPermitted(sts: Sts, client: Option<AssertionClaims>, target: string, sub: string) {
    && client.Some? && client.value.sub in sts.impersonation
    && Holds(sts.impersonation[client.value.sub].targets, target) && Holds(sts.impersonation[client.value.sub].subjects, sub)
  }

  ghost predicate CallerInOrder(sts: Sts, env: Env, form: Form.TokenForm, mode: EffectiveMode, subject: SubjectClaims, sub: string, target: string, now: int) {
    if mode.Delegation? then ActorInOrder(sts, env, form, subject, now)
    else ClientPermitted(sts, ClaimsOf(env, form.Get(Form.ClientAssertion)), target, sub)
  }

  /** Everything that a form, its proof and its tokens have to be. */
  ghost predicate FormInOrder(sts: Sts, env: Env, form: Form.TokenForm, dpop: seq<string>, at: Times) {
    var mode := ModeOf(sts, form);
    && ClientInOrder(sts, env, form, mode, at.client)
    && ProofInOrder(sts, env, dpop, at.dpop)
    && SubjectInOrder(sts, env, form, at.subject)
    && var subject := env.subject(OrEmpty(form.Get(Form.SubjectToken))).value.claims;
       && CallerInOrder(sts, env, form, mode, subject, subject.sub.value, TargetOf(form).value, at.actor)
       && SigningAllowed(sts, sts.targets[TargetOf(form).value])
  }

  ghost predicate InputType(t: Option<string>) {
    t == Some(ACCESS_TOKEN_TYPE) || t == Some(JWT_TOKEN_TYPE)
  }

  ghost predicate Within(v: Option<string>, max: nat) {
    v.Some? ==> |v.value| <= max
  }

  ghost predicate ParamsInOrder(form: Form.TokenForm, max: nat) {
    var subject, actor, actorType := form.Get(Form.SubjectToken), form.Get(Form.ActorToken), form.Get(Form.ActorTokenType);
    && form.Get(Form.GrantType) == Some(GRANT_TYPE)
    && subject.Some? && 0 < |subject.value| <= max && InputType(form.Get(Form.SubjectTokenType))
    && (actor.Some? <==> actorType.Some?) && (actor.Some? ==> 0 < |actor.value| <= max && InputType(actorType))
    && form.Get(Form.RequestedTokenType) in {None, Some(ACCESS_TOKEN_TYPE)}
    && Within(form.Get(Form.Scope), max) && Within(form.Get(Form.Audience), max) && Within(form.Get(Form.Resource), max)
    && Within(form.Get(Form.ClientAssertion), max)
  }

  /** Everything that a request has to be to get as far as recording. */
  ghost predicate RequestInOrder(sts: Sts, env: Env, req: HttpRequest, at: Times) {
    && req.formEncoded && !req.hasAuthorization
    && Form.Parse(req.items).Ok?
    && ParamsInOrder(Form.Parse(req.items).value, sts.maxTokenLen)
    && FormInOrder(sts, env, Form.Parse(req.items).value, req.dpop, at)
  }

  // ---------------------------------------------------------------- what it leaves to record

  ghost function ActorPart(actor: Option<AssertionClaims>): seq<Credential> {
    if actor.Some? && actor.value.jti.Some? then
      [Credential(ActorAssertion, "act:" + actor.value.sub + ":" + actor.value.jti.value, actor.value.exp)]
    else []
  }

  ghost function ClientPart(client: Option<AssertionClaims>): seq<Credential> {
    if client.Some? then
      [Credential(ClientAssertion, "ca:" + client.value.sub + ":" + Trim(OrEmpty(client.value.jti)), client.value.exp)]
    else []
  }

  ghost function ProofPart(sts: Sts, env: Env, dpop: seq<string>): seq<Credential> {
    if |dpop| != 1 || env.proof(dpop[0]).None? || env.proof(dpop[0]).value.2.None? then []
    else
      var (jkt, jti, iat) := env.proof(dpop[0]).value;
      [Credential(Proof, "dpop:" + env.digest(jkt, jti), Min(iat.value + NonNegative(sts.leeway), I64_MAX))]
  }

  /** The actor's assertion in a delegation, the client's assertion if there is one, the proof if there is one. */
  ghost function Presented(sts: Sts, env: Env, form: Form.TokenForm, dpop: seq<string>): seq<Credential> {
    (if ModeOf(sts, form).Delegation? then ActorPart(ClaimsOf(env, form.Get(Form.ActorToken))) else [])
    + ClientPart(ClaimsOf(env, form.Get(Form.ClientAssertion)))
    + ProofPart(sts, env, dpop)
  }

  ghost function PresentedBy(sts: Sts, env: Env, req: HttpRequest): seq<Credential> {
    if Form.Parse(req.items).Ok? then Presented(sts, env, Form.Parse(req.items).value, req.dpop) else []
  }

  ghost predicate StartsWith(creds: seq<Credential>, c: char) {
    |creds| <= 1 && (creds != [] ==> creds[0].key != "" && creds[0].key[0] == c)
  }

  lemma ThreeKinds(a: seq<Credential>, b: seq<Credential>, c: seq<Credential>)
    requires StartsWith(a, 'a') && StartsWith(b, 'c') && StartsWith(c, 'd')
    ensures Usable(a + b + c)
  {
    var all := a + b + c;
    assert forall i :: 0 <= i < |all| ==> all[i].key != "" && !IsSpace(all[i].key[0]);
  }

  /** The three kinds of credential have keys of their own. */
  lemma PresentedIsUsable(sts: Sts, env: Env, form: Form.TokenForm, dpop: seq<string>)
    ensures Usable(Presented(sts, env, form, dpop))
  {
    var a := if ModeOf(sts, form).Delegation? then ActorPart(ClaimsOf(env, form.Get(Form.ActorToken))) else [];
    ThreeKinds(a, ClientPart(ClaimsOf(env, form.Get(Form.ClientAssertion))), ProofPart(sts, env, dpop));
  }

  // ---------------------------------------------------------------- the gates ask for exactly that

  /** What the client's parameters have to be, given whether the assertion is genuine. */
  ghost predicate ParamsIdentify(sts: Sts, env: Env, form: Form.TokenForm, genuine: bool) {
    var token, id := form.Get(Form.ClientAssertion), form.Get(Form.ClientId);
    && form.Get(Form.ClientAssertionType) == Some(ASSERTION_TYPE)
    && token.Some? && !Blank(token.value) && env.assertion(token.value).Some? && genuine
    && var client := env.assertion(token.value).value.claims;
       && client.sub in sts.clientIds && client.jti.Some? && !Blank(client.jti.value)
       && (id.Some? ==> id.value == client.sub && !Blank(client.sub))
  }

  lemma ClientParamsGiven(sts: Sts, env: Env, form: Form.TokenForm, now: int, genuine: bool)
    requires var token := form.Get(Form.ClientAssertion);
      token.Some? && env.assertion(token.value).Some? ==>
        (AssertionChecks(sts, env.assertion(token.value).value, sts.clientJwks, None, now) <==> genuine)
    ensures var r := VerifyClient(sts, env, form, now);
      && (r.Ok? <==> ParamsIdentify(sts, env, form, genuine))
      && (r.Ok? ==> Some(r.value) == ClaimsOf(env, form.Get(Form.ClientAssertion)))
  {
    assert !IsSpace(ASSERTION_TYPE[0]);
  }

  lemma ClientParams(sts: Sts, env: Env, form: Form.TokenForm, now: int)
    ensures var r := VerifyClient(sts, env, form, now);
      && (r.Ok? <==> ClientIdentified(sts, env, form, now))
      && (r.Ok? ==> Some(r.value) == ClaimsOf(env, form.Get(Form.ClientAssertion)))
  {
    var token := form.Get(Form.ClientAssertion);
    if token.Some? && env.assertion(token.value).Some? {
      var j := env.assertion(token.value).value;
      AssertionExactlyWhen(sts, j, sts.clientJwks, None, now);
      ClientParamsGiven(sts, env, form, now, AssertionGenuine(sts, j, sts.clientJwks, None, now));
    } else {
      ClientParamsGiven(sts, env, form, now, false);
    }
  }

  lemma ClientSuitsExactly(sts: Sts, form: Form.TokenForm, mode: EffectiveMode, verified: Result<AssertionClaims, HttpError>, identified: bool, claims: Option<AssertionClaims>)
    requires verified.Ok? <==> identified
    requires verified.Ok? ==> form.Get(Form.ClientAssertion).Some? && claims == Some(verified.value)
    requires form.Get(Form.ClientAssertion).None? ==> claims == None
    ensures var r := AuthenticateIfPresent(sts, form, mode, verified);
      && (r.Ok? <==> ClientSuits(sts, form, mode, identified))
      && (r.Ok? ==> r.value == claims)
  {
  }

  lemma ClientGate(sts: Sts, env: Env, form: Form.TokenForm, mode: EffectiveMode, now: int)
    ensures var r := AuthenticateClient(sts, env, form, mode, now);
      && (r.Ok? <==> ClientInOrder(sts, env, form, mode, now))
      && (r.Ok? ==> r.value == ClaimsOf(env, form.Get(Form.ClientAssertion)))
  {
    ClientParams(sts, env, form, now);
    ClientSuitsExactly(sts, form, mode, VerifyClient(sts, env, form, now), ClientIdentified(sts, env, form, now), ClaimsOf(env, form.Get(Form.ClientAssertion)));
  }

  lemma ProofGate(sts: Sts, env: Env, dpop: seq<string>, now: I64)
    ensures var r := ValidateDpop(sts, env, dpop, now);
      && (r.Ok? <==> ProofInOrder(sts, env, dpop, now))
      && (r.Ok? ==> ProofCredentials(env, r.value) == ProofPart(sts, env, dpop))
  {
  }

  /** The exchange that is handed on holds what the form and its tokens say. */
  ghost predicate Admitted(sts: Sts, env: Env, form: Form.TokenForm, now: int, x: VerifiedExchange) {
    var j := env.subject(OrEmpty(form.Get(Form.SubjectToken)));
    && x.form == form && j.Some? && SubjectGenuine(sts, j.value, now) && x.subject == j.value.claims
    && Some(x.subjectSub) == x.subject.sub && !Blank(x.subjectSub)
    && Some(x.target) == TargetOf(form) && x.target in sts.targets
    && Grants(sts, form, sts.targets[x.target], x.subject, x.scope)
  }

  lemma SubjectGateGiven(sts: Sts, env: Env, form: Form.TokenForm, now: int, client: Option<AssertionClaims>, binding: Option<Binding>, remains: bool)
    requires var j, target := env.subject(OrEmpty(form.Get(Form.SubjectToken))), TargetOf(form);
      j.Some? && target.Some? && target.value in sts.targets ==>
        (ResolveScope(sts, form, j.value.claims, sts.targets[target.value]).Ok? <==> remains)
    ensures AdmitSubject(sts, env, form, now, client, binding).Ok? <==>
      var j, target := env.subject(OrEmpty(form.Get(Form.SubjectToken))), TargetOf(form);
      && j.Some? && SubjectGenuine(sts, j.value, now)
      && j.value.claims.sub.Some? && !Blank(j.value.claims.sub.value)
      && form.Get(Form.Audience) != Some("") && target.Some? && target.value in sts.targets && remains
  {
    var j := env.subject(OrEmpty(form.Get(Form.SubjectToken)));
    if j.Some? {
      SubjectExactlyWhen(sts, j.value, now);
    }
  }

  lemma SubjectGate(sts: Sts, env: Env, form: Form.TokenForm, now: int, client: Option<AssertionClaims>, binding: Option<Binding>)
    ensures AdmitSubject(sts, env, form, now, client, binding).Ok? <==> SubjectInOrder(sts, env, form, now)
  {
    var j, target := env.subject(OrEmpty(form.Get(Form.SubjectToken))), TargetOf(form);
    if j.Some? && target.Some? && target.value in sts.targets {
      var remains := ScopeRemains(sts, form, j.value.claims, sts.targets[target.value]);
      ScopeExactlyWhen(sts, form, j.value.claims, sts.targets[target.value]);
      SubjectGateGiven(sts, env, form, now, client, binding, remains);
    } else {
      SubjectGateGiven(sts, env, form, now, client, binding, false);
    }
  }

  lemma AdmittedMeaning(sts: Sts, env: Env, form: Form.TokenForm, now: int, client: Option<AssertionClaims>, binding: Option<Binding>)
    requires AdmitSubject(sts, env, form, now, client, binding).Ok?
    ensures var x := AdmitSubject(sts, env, form, now, client, binding).value;
      Admitted(sts, env, form, now, x) && x.client == client && x.binding == binding
  {
    var j, target := env.subject(OrEmpty(form.Get(Form.SubjectToken))), TargetOf(form);
    SubjectExactlyWhen(sts, j.value, now);
    ScopeExactlyWhen(sts, form, j.value.claims, sts.targets[target.value]);
  }

  lemma SigningGate(sts: Sts, policy: TargetPolicy)
    ensures DecideSigning(sts, policy).Some? <==> SigningAllowed(sts, policy)
  {
    PqcIsMlDsa(sts.signer.alg);
  }

  lemma ActorGate(sts: Sts, env: Env, x: VerifiedExchange, actor: AssertionClaims)
    requires x.target in sts.targets
    ensures var r := PrepareActor(sts, env, x, actor);
      && (r.Ok? <==> ActorPermitted(sts, x.subject, actor) && SigningAllowed(sts, sts.targets[x.target]))
      && (r.Ok? ==> r.value.creds == ActorPart(Some(actor)) + ClientPart(x.client) + ProofCredentials(env, x.binding))
  {
    SigningGate(sts, sts.targets[x.target]);
    if actor.iss == actor.sub {
      MayActExactlyWhen(x.subject, actor);
    }
  }

  ghost predicate DelegationLeaves(env: Env, x: VerifiedExchange, creds: seq<Credential>) {
    creds == ActorPart(ClaimsOf(env, x.form.Get(Form.ActorToken))) + ClientPart(x.client) + ProofCredentials(env, x.binding)
  }

  lemma DelegationGate(sts: Sts, env: Env, x: VerifiedExchange, now: int)
    requires x.target in sts.targets
    ensures var r := PrepareDelegation(sts, env, x, now);
      && (r.Ok? <==> ActorInOrder(sts, env, x.form, x.subject, now) && SigningAllowed(sts, sts.targets[x.target]))
      && (r.Ok? ==> DelegationLeaves(env, x, r.value.creds))
  {
    var token := x.form.Get(Form.ActorToken);
    if token.Some? && env.assertion(token.value).Some? {
      AssertionExactlyWhen(sts, env.assertion(token.value).value, sts.actorJwks, SubjectBinding(sts, env, x.form), now);
      ActorGate(sts, env, x, env.assertion(token.value).value.claims);
    }
  }

  lemma ImpersonationGate(sts: Sts, env: Env, x: VerifiedExchange)
    requires x.target in sts.targets && x.form.Get(Form.ActorToken).None?
    ensures var r := PrepareImpersonation(sts, env, x);
      && (r.Ok? <==> ClientPermitted(sts, x.client, x.target, x.subjectSub) && SigningAllowed(sts, sts.targets[x.target]))
      && (r.Ok? ==> r.value.creds == ClientPart(x.client) + ProofCredentials(env, x.binding))
  {
    SigningGate(sts, sts.targets[x.target]);
  }

  lemma CommonGates(sts: Sts, env: Env, form: Form.TokenForm, dpop: seq<string>, at: Times)
    ensures AdmitForm(sts, env, form, dpop, at).Ok? <==>
      && ClientInOrder(sts, env, form, ModeOf(sts, form), at.client)
      && ProofInOrder(sts, env, dpop, at.dpop)
      && SubjectInOrder(sts, env, form, at.subject)
  {
    var mode := ModeOf(sts, form);
    ClientGate(sts, env, form, mode, at.client);
    ProofGate(sts, env, dpop, at.dpop);
    var client, binding := AuthenticateClient(sts, env, form, mode, at.client), ValidateDpop(sts, env, dpop, at.dpop);
    if client.Ok? && binding.Ok? {
      SubjectGate(sts, env, form, at.subject, client.value, binding.value);
    }
  }

  /** The exchange holds the form's client and proof as well. */
  ghost predicate Brings(sts: Sts, env: Env, dpop: seq<string>, x: VerifiedExchange) {
    && x.client == ClaimsOf(env, x.form.Get(Form.ClientAssertion))
    && ProofCredentials(env, x.binding) == ProofPart(sts, env, dpop)
  }

  /** What passes the common gates, taken apart. */
  lemma AdmittedForm(sts: Sts, env: Env, form: Form.TokenForm, dpop: seq<string>, at: Times)
    requires AdmitForm(sts, env, form, dpop, at).Ok?
    ensures var (mode, x) := AdmitForm(sts, env, form, dpop, at).value;
      && mode == ModeOf(sts, form) && Admitted(sts, env, form, at.subject, x) && Brings(sts, env, dpop, x)
      && AuthenticateClient(sts, env, form, mode, at.client) == Ok(x.client) && ValidateDpop(sts, env, dpop, at.dpop) == Ok(x.binding)
  {
    var mode := ModeOf(sts, form);
    ClientGate(sts, env, form, mode, at.client);
    ProofGate(sts, env, dpop, at.dpop);
    var client, binding := AuthenticateClient(sts, env, form, mode, at.client), ValidateDpop(sts, env, dpop, at.dpop);
    AdmittedMeaning(sts, env, form, at.subject, client.value, binding.value);
  }

  /** The gates past dispatch, and what they leave to record. */
  lemma CallerGate(sts: Sts, env: Env, dpop: seq<string>, mode: EffectiveMode, x: VerifiedExchange, now: int)
    requires x.target in sts.targets && Brings(sts, env, dpop, x) && (mode.Impersonation? ==> x.form.Get(Form.ActorToken).None?)
    requires mode == ModeOf(sts, x.form)
    ensures var r := if mode.Delegation? then PrepareDelegation(sts, env, x, now) else PrepareImpersonation(sts, env, x);
      && (r.Ok? <==> CallerInOrder(sts, env, x.form, mode, x.subject, x.subjectSub, x.target, now) && SigningAllowed(sts, sts.targets[x.target]))
      && (r.Ok? ==> r.value.creds == Presented(sts, env, x.form, dpop))
  {
    if mode.Delegation? {
      DelegationGate(sts, env, x, now);
    } else {
      ImpersonationGate(sts, env, x);
      assert [] + ClientPart(x.client) == ClientPart(x.client);
    }
  }

  lemma FormGates(sts: Sts, env: Env, form: Form.TokenForm, dpop: seq<string>, at: Times)
    ensures PrepareForm(sts, env, form, dpop, at).Ok? <==> FormInOrder(sts, env, form, dpop, at)
    ensures PrepareForm(sts, env, form, dpop, at).Ok? ==> PrepareForm(sts, env, form, dpop, at).value.creds == Presented(sts, env, form, dpop)
  {
    CommonGates(sts, env, form, dpop, at);
    if AdmitForm(sts, env, form, dpop, at).Ok? {
      AdmittedForm(sts, env, form, dpop, at);
      var (mode, x) := AdmitForm(sts, env, form, dpop, at).value;
      CallerGate(sts, env, dpop, mode, x, at.actor);
    }
  }

  lemma ParamGate(form: Form.TokenForm, max: nat)
    ensures ParamError(form, max).None? <==> ParamsInOrder(form, max)
  {
  }

  /** A request gets as far as recording exactly when it is in order, and then leaves exactly what it presented to record. */
  lemma PassesExactlyWhen(sts: Sts, env: Env, req: HttpRequest, at: Times)
    ensures Prepare(sts, env, req, at).Ok? <==> RequestInOrder(sts, env, req, at)
    ensures Prepare(sts, env, req, at).Ok? ==> Prepare(sts, env, req, at).value.creds == PresentedBy(sts, env, req)
  {
    if Form.Parse(req.items).Ok? {
      var form := Form.Parse(req.items).value;
      ParamGate(form, sts.maxTokenLen);
      FormGates(sts, env, form, req.dpop, at);
    }
  }
}
