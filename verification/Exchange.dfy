/** The token exchange of `sts-http`: gates, then replay recording, then a capped lifetime, then signing. */
module Exchange {
  import opened Prelude
  import opened Text
  import opened WordSet
  import opened Scopes
  import opened ActorChain
  import opened KeyOwnership
  import opened Jwks
  import opened Dpop
  import Form

  /** OAuth error families at the HTTP boundary. */
  datatype HttpError =
    | BadRequest | BadClient | BadGrant | BadTarget | BadScope | BadProof | BadGrantType | BadAuthorization | Unavailable

  // ---------------------------------------------------------------- tokens

  /** A compact JWS after decoding. `signer` is the key that made the signature; signatures are ideal. */
  datatype Jws<C> = Jws(alg: string, kid: Option<string>, typ: Option<string>, signer: nat, claims: C)

  predicate IsPqc(alg: string) {
    alg == "ML-DSA-44" || alg == "ML-DSA-65" || alg == "ML-DSA-87"
  }

  /** `verify_claims_against_jwks_inner` */
  predicate Verifies<C>(jws: Jws<C>, keys: seq<Jwk>, allowed: Option<seq<string>>) {
    && (allowed.Some? ==> jws.alg in allowed.value)
    && jws.kid.Some?
    && var found := Find(keys, jws.kid.value);
       found.Some? && (jws.alg == "RS256" || IsPqc(jws.alg)) && found.value.alg == jws.alg && found.value.key == jws.signer
  }

  datatype AuthContext = AuthContext(authTime: Option<int>, acr: Option<string>, amr: seq<string>)

  datatype SubjectClaims = SubjectClaims(
    iss: string, sub: Option<string>, aud: Json, scope: Option<string>, scp: Option<Json>, exp: int, nbf: Option<int>,
    act: Option<Json>, mayAct: Option<Json>, auth: AuthContext)

  datatype AssertionClaims = AssertionClaims(
    iss: string, sub: string, aud: Json, exp: int, iat: Option<int>, jti: Option<string>, subTokHash: Option<string>)

  datatype MintedClaims = MintedClaims(
    iss: string, sub: string, aud: string, scope: string, iat: int, exp: int, jti: string, clientId: string,
    act: Option<ActClaim>, cnf: Option<string>, auth: AuthContext)

  /** Decoding and hashing, left to libraries. A proof decodes to its thumbprint, `jti` and numeric `iat`. */
  datatype Env = Env(
    subject: string -> Option<Jws<SubjectClaims>>,
    assertion: string -> Option<Jws<AssertionClaims>>,
    proof: string -> Option<(string, string, Option<I64>)>,
    hash: string -> string,
    digest: (string, string) -> string)

  // ---------------------------------------------------------------- configuration

  datatype ExchangeMode = DelegationOnly | ImpersonationOnly | Both

  /** Scope sets are listed in their sorted order. */
  datatype TargetPolicy = TargetPolicy(allowed: seq<string>, defaults: seq<string>, acceptedAlgs: set<string>, pqcRequired: bool)

  datatype Selector = Any | Values(values: set<string>) {
    predicate Allows(v: string) {
      Any? || v in values
    }
  }

  datatype ImpersonationEntry = ImpersonationEntry(targets: Selector, subjects: Selector)

  datatype Sts = Sts(
    issuer: string, tokenEndpoint: string, idpIssuer: string, subjectAudiences: seq<string>,
    subjectJwks: seq<Jwk>, actorJwks: seq<Jwk>, clientJwks: seq<Jwk>,
    actorIds: set<string>, clientIds: set<string>, inboundAlgs: seq<string>,
    mode: ExchangeMode, clientAuthRequired: bool, leeway: I64, ttl: int, assertionMaxTtl: int,
    requireSubjectBinding: bool, maxTokenLen: nat, targets: map<string, TargetPolicy>, scopeBoundRequired: bool,
    impersonation: map<string, ImpersonationEntry>,
    pqcPreferred: bool, pqcPreferredAlgs: set<string>, allowNonPqc: bool,
    signer: Jwk, extraKeys: seq<Jwk>, maxSeen: nat)

  /** What configuration loading guarantees. */
  ghost predicate ValidConfig(sts: Sts) {
    && (forall id :: id in sts.actorIds || id in sts.clientIds ==> !Blank(id))
    && sts.ttl >= 1 && sts.leeway >= 0 && sts.maxSeen >= 1
    && (sts.signer.alg == "RS256" || IsPqc(sts.signer.alg))
  }

  /** A request as it reaches the token endpoint; `dpop` lists the DPoP header fields. */
  datatype HttpRequest = HttpRequest(formEncoded: bool, hasAuthorization: bool, items: seq<Form.Item>, dpop: seq<string>)

  /** Each gate reads the clock for itself. */
  datatype Times = Times(client: I64, dpop: I64, subject: I64, actor: I64)

  // ---------------------------------------------------------------- verification gates

  predicate InWindow(exp: int, nbf: Option<int>, leeway: int, now: int) {
    exp + leeway >= now && (nbf.Some? ==> nbf.value - leeway <= now)
  }

  predicate AudienceMatches(aud: Json, expected: string) {
    match aud
    case Str(s) => s == expected
    case Arr(items) => exists i :: 0 <= i < |items| && items[i] == Str(expected)
    case _ => false
  }

  predicate AnyAudience(aud: Json, expected: seq<string>) {
    exists i :: 0 <= i < |expected| && AudienceMatches(aud, expected[i])
  }

  predicate SubjectChecks(sts: Sts, j: Jws<SubjectClaims>, now: int) {
    && Verifies(j, sts.subjectJwks, Some(["RS256"]))
    && j.claims.iss == sts.idpIssuer
    && InWindow(j.claims.exp, j.claims.nbf, sts.leeway, now)
    && AnyAudience(j.claims.aud, sts.subjectAudiences)
  }

  function VerifySubject(sts: Sts, env: Env, token: string, now: int): Result<SubjectClaims, HttpError> {
    var j := env.subject(token);
    if j.Some? && SubjectChecks(sts, j.value, now) then Ok(j.value.claims) else Err(BadGrant)
  }

  /** `verify_assertion_with_allowed_alg_refs`; `binding` is the hash that a bound assertion must carry. */
  predicate AssertionChecks(sts: Sts, j: Jws<AssertionClaims>, keys: seq<Jwk>, binding: Option<string>, now: int) {
    var c := j.claims;
    && Verifies(j, keys, Some(sts.inboundAlgs))
    && c.iss == c.sub
    && AnyAudience(c.aud, [sts.issuer, sts.tokenEndpoint])
    && Belongs(j.kid.value, c.sub, sts.actorIds + sts.clientIds)
    && InWindow(c.exp, None, sts.leeway, now)
    && c.exp - (if c.iat.Some? then c.iat.value else now) <= sts.assertionMaxTtl + sts.leeway
    && (binding.Some? ==> (if c.subTokHash.Some? then c.subTokHash.value else "") == binding.value)
  }

  function VerifyAssertion(sts: Sts, env: Env, token: string, keys: seq<Jwk>, binding: Option<string>, now: int): Result<AssertionClaims, HttpError> {
    var j := env.assertion(token);
    if j.Some? && AssertionChecks(sts, j.value, keys, binding, now) then Ok(j.value.claims) else Err(BadClient)
  }

  // ---------------------------------------------------------------- request gates

  const URN := "urn:ietf:params:oauth:"
  const GRANT_TYPE := URN + "grant-type:token-exchange"
  const ACCESS_TOKEN_TYPE := URN + "token-type:access_token"
  const JWT_TOKEN_TYPE := URN + "token-type:jwt"
  const ASSERTION_TYPE := URN + "client-assertion-type:jwt-bearer"

  predicate SupportedInput(t: string) {
    t == ACCESS_TOKEN_TYPE || t == JWT_TOKEN_TYPE
  }

  function OrEmpty(v: Option<string>): string {
    if v.Some? then v.value else ""
  }

  predicate TooLong(v: Option<string>, max: nat) {
    v.Some? && |v.value| > max
  }

  /** `validate_request_params`; `None` when every check passes. */
  function ParamError(form: Form.TokenForm, max: nat): Option<HttpError> {
    var subject, subjectType := OrEmpty(form.Get(Form.SubjectToken)), OrEmpty(form.Get(Form.SubjectTokenType));
    var actor, actorType := form.Get(Form.ActorToken), form.Get(Form.ActorTokenType);
    var requested := form.Get(Form.RequestedTokenType);
    if OrEmpty(form.Get(Form.GrantType)) == "" then Some(BadRequest)
    else if OrEmpty(form.Get(Form.GrantType)) != GRANT_TYPE then Some(BadGrantType)
    else if subject == "" || subjectType == "" || |subject| > max then Some(BadRequest)
    else if actor.Some? && (actor.value == "" || |actor.value| > max || OrEmpty(actorType) == "") then Some(BadRequest)
    else if actorType.Some? && actor.None? then Some(BadRequest)
    else if !SupportedInput(subjectType) || (actorType.Some? && !SupportedInput(actorType.value)) then Some(BadRequest)
    else if requested.Some? && requested.value != ACCESS_TOKEN_TYPE then Some(BadRequest)
    else if TooLong(form.Get(Form.Scope), max) || TooLong(form.Get(Form.Audience), max) || TooLong(form.Get(Form.Resource), max)
      || TooLong(form.Get(Form.ClientAssertion), max) then Some(BadRequest)
    else None
  }

  datatype EffectiveMode = Delegation | Impersonation

  function EffectiveExchangeMode(mode: ExchangeMode, form: Form.TokenForm): EffectiveMode {
    match mode
    case DelegationOnly => Delegation
    case ImpersonationOnly => Impersonation
    case Both => if form.Get(Form.ActorToken).Some? || form.emptyActorTokenSupplied then Delegation else Impersonation
  }

  function TrimmedJti(c: AssertionClaims): string {
    if c.jti.Some? then Trim(c.jti.value) else ""
  }

  predicate PresentButBlank(v: Option<string>) {
    v.Some? && Blank(v.value)
  }

  /** `authenticate_client_if_present`: stateless, nothing is recorded here. */
  function AuthenticateClient(sts: Sts, env: Env, form: Form.TokenForm, mode: EffectiveMode, now: int): Result<Option<AssertionClaims>, HttpError> {
    AuthenticateIfPresent(sts, form, mode, VerifyClient(sts, env, form, now))
  }

  /** Whether the mode demands or forbids what the form brings; `verified` is what becomes of the client parameters. */
  function AuthenticateIfPresent(sts: Sts, form: Form.TokenForm, mode: EffectiveMode, verified: Result<AssertionClaims, HttpError>): Result<Option<AssertionClaims>, HttpError> {
    var present := form.Get(Form.ClientAssertion).Some? || form.Get(Form.ClientAssertionType).Some? || form.Get(Form.ClientId).Some?;
    var actor := form.Get(Form.ActorToken);
    if mode.Impersonation? && (actor.Some? || !present) then Err(BadClient)
    else if sts.clientAuthRequired && !present then Err(BadClient)
    else if !present then Ok(None)
    else if verified.Err? then Err(verified.error)
    else if mode.Delegation? && actor.None? then Err(BadRequest)
    else Ok(Some(verified.value))
  }

  /** Its checks on the client parameters, once there are any. */
  function VerifyClient(sts: Sts, env: Env, form: Form.TokenForm, now: int): Result<AssertionClaims, HttpError> {
    var assertion, kind, id := form.Get(Form.ClientAssertion), form.Get(Form.ClientAssertionType), form.Get(Form.ClientId);
    if PresentButBlank(assertion) || PresentButBlank(kind) || PresentButBlank(id) then Err(BadClient)
    else if kind != Some(ASSERTION_TYPE) || assertion.None? then Err(BadClient)
    else
      var r := VerifyAssertion(sts, env, assertion.value, sts.clientJwks, None, now);
      if r.Err? then Err(r.error)
      else if r.value.sub !in sts.clientIds || (id.Some? && id.value != r.value.sub) || TrimmedJti(r.value) == "" then Err(BadClient)
      else Ok(r.value)
  }

  /** `validate_dpop_header` */
  function ValidateDpop(sts: Sts, env: Env, headers: seq<string>, now: I64): Result<Option<Binding>, HttpError> {
    if headers == [] then Ok(None)
    else if |headers| > 1 then Err(BadProof)
    else
      var claims := env.proof(headers[0]);
      if claims.None? then Err(BadProof)
      else
        var b := Bind(claims.value.0, claims.value.1, claims.value.2, now, sts.leeway);
        if b.None? then Err(BadProof) else Ok(b)
  }

  predicate Contains(s: string, part: string) {
    part <= s || (s != "" && Contains(s[1..], part))
  }

  /** `validate_target_value` and `validate_resource_value`; `None` stands for `invalid_target`. */
  function TargetValue(v: string): Option<string> {
    if Trim(v) == "" then None else Some(Trim(v))
  }

  function ResourceValue(v: string): Option<string> {
    var t := Trim(v);
    if t == "" || !Contains(t, "://") || t[0] == '/' || '#' in t then None else Some(t)
  }

  function ResolveTarget(audience: Option<string>, resource: Option<string>): Option<string> {
    match (audience, resource)
    case (Some(a), None) => TargetValue(a)
    case (None, Some(r)) => ResourceValue(r)
    case (Some(a), Some(r)) => if TargetValue(a) == ResourceValue(r) then TargetValue(a) else None
    case (None, None) => None
  }

  function ResolveTargetForRequest(sts: Sts, form: Form.TokenForm): Result<string, HttpError> {
    var t := ResolveTarget(form.Get(Form.Audience), form.Get(Form.Resource));
    if form.Get(Form.Audience) == Some("") then Err(BadRequest)
    else if t.None? || t.value !in sts.targets then Err(BadTarget)
    else Ok(t.value)
  }

  /** The strings of a JSON array; `None` when an element is not a string. */
  function ArrayStrings(items: seq<Json>): (r: Option<seq<string>>)
    ensures r.None? <==> exists i :: 0 <= i < |items| && !items[i].Str?
    ensures r.Some? ==> forall s :: s in r.value <==> Str(s) in items
  {
    if items == [] then Some([])
    else
      var before, last := ArrayStrings(items[..|items| - 1]), items[|items| - 1];
      if before.None? || !last.Str? then None else Some(before.value + [last.s])
  }

  function ScpStrings(scp: Option<Json>): Option<seq<string>> {
    match scp
    case None => Some([])
    case Some(Null) => Some([])
    case Some(Str(s)) => Some([s])
    case Some(Arr(items)) => ArrayStrings(items)
    case Some(_) => None
  }

  function OwnStrings(scope: Option<string>): seq<string> {
    if scope.Some? then [scope.value] else []
  }

  /** The ordered set of the words of all the strings. */
  function Collect(strings: seq<string>): seq<string> {
    if strings == [] then [] else Extend(Collect(strings[..|strings| - 1]), Split(strings[|strings| - 1]))
  }

  /** `subject_scope_string`; `None` is the malformed claim. */
  function SubjectScope(c: SubjectClaims): Option<Option<string>> {
    var extra := ScpStrings(c.scp);
    if extra.None? then None
    else
      var words := Collect(OwnStrings(c.scope) + extra.value);
      Some(if words == [] then None else Some(Join(words)))
  }

  /** The word stands in the subject token's `scope`, or in a string of its `scp`. */
  ghost predicate CarriesWord(c: SubjectClaims, w: string) {
    exists s :: HasString(c, s) && w in Split(s)
  }

  ghost predicate HasString(c: SubjectClaims, s: string) {
    c.scope == Some(s) || c.scp == Some(Str(s)) || (c.scp.Some? && c.scp.value.Arr? && Str(s) in c.scp.value.items)
  }

  /** `scp` is neither absent, null, a string nor an array of strings. */
  ghost predicate MalformedScope(scp: Option<Json>) {
    scp.Some? && !scp.value.Null? && !scp.value.Str? &&
      (scp.value.Arr? ==> exists i :: 0 <= i < |scp.value.items| && !scp.value.items[i].Str?)
  }

  /** What `r` says of the subject token's scopes: nothing if they are malformed, else all its words, each once, in order. */
  ghost predicate TellsScope(c: SubjectClaims, r: Option<Option<string>>) {
    && (r.None? <==> MalformedScope(c.scp))
    && (r.Some? ==>
          && (r.value.None? <==> forall w :: !CarriesWord(c, w))
          && (r.value.Some? ==>
                var words := Split(r.value.value);
                words != [] && Ascending(words) && r.value.value == Join(words) && forall w :: w in words <==> CarriesWord(c, w)))
  }

  lemma {:induction false} CollectMeaning(strings: seq<string>)
    ensures Ascending(Collect(strings)) && Words(Collect(strings))
    ensures forall w :: w in Collect(strings) <==> exists s :: s in strings && w in Split(s)
  {
    if strings != [] {
      var front, last := strings[..|strings| - 1], strings[|strings| - 1];
      assert strings == front + [last];
      CollectMeaning(front);
      ExtendKeepsOrder(Collect(front), Split(last));
      forall w
        ensures w in Collect(strings) <==> exists s :: s in strings && w in Split(s)
      {
        if w in Split(last) {
          assert last in strings;
        } else if w in Collect(front) {
          var s :| s in front && w in Split(s);
          assert s in strings;
        }
      }
    }
  }

  lemma StringsOf(c: SubjectClaims)
    ensures ScpStrings(c.scp).None? <==> MalformedScope(c.scp)
    ensures ScpStrings(c.scp).Some? ==> forall s :: HasString(c, s) <==> s in OwnStrings(c.scope) + ScpStrings(c.scp).value
  {
  }

  lemma SubjectScopeMeaning(c: SubjectClaims)
    ensures TellsScope(c, SubjectScope(c))
  {
    StringsOf(c);
    if ScpStrings(c.scp).Some? {
      var strings := OwnStrings(c.scope) + ScpStrings(c.scp).value;
      var words := Collect(strings);
      CollectMeaning(strings);
      assert forall w :: w in words <==> CarriesWord(c, w);
      if words != [] {
        assert words[0] in words;
        SplitJoin(words);
      }
    }
  }

  method SubjectScopeString(c: SubjectClaims) returns (r: Option<Option<string>>)
    ensures r == SubjectScope(c)
    ensures TellsScope(c, r)
  {
    SubjectScopeMeaning(c);
    var words: seq<string> := [];
    ghost var own := OwnStrings(c.scope);
    if c.scope.Some? {
      words := Extend(words, Split(c.scope.value));
      assert own[..0] == [];
    }
    assert words == Collect(own);
    assert own + [] == own;
    match c.scp {
      case None =>
      case Some(Null) =>
      case Some(Str(s)) =>
        assert (own + [s])[..|own|] == own;
        words := Extend(words, Split(s));
      case Some(Arr(items)) =>
        var extended := ExtendFromArray(words, own, items);
        if extended.None? {
          return None;
        }
        words := extended.value;
      case Some(_) => return None;
    }
    assert words == Collect(own + ScpStrings(c.scp).value);
    return Some(if words == [] then None else Some(Join(words)));
  }

  method ExtendFromArray(start: seq<string>, ghost own: seq<string>, items: seq<Json>) returns (r: Option<seq<string>>)
    requires start == Collect(own)
    ensures r.None? <==> exists i :: 0 <= i < |items| && !items[i].Str?
    ensures r.Some? ==> r.value == Collect(own + ArrayStrings(items).value)
  {
    var words := start;
    assert own + [] == own;
    for i := 0 to |items|
      invariant ArrayStrings(items[..i]).Some? && words == Collect(own + ArrayStrings(items[..i]).value)
    {
      assert items[..i + 1][..i] == items[..i];
      if !items[i].Str? {
        return None;
      }
      ghost var strings := own + ArrayStrings(items[..i]).value;
      assert own + ArrayStrings(items[..i + 1]).value == strings + [items[i].s];
      assert (strings + [items[i].s])[..|strings|] == strings;
      words := Extend(words, Split(items[i].s));
    }
    assert items[..|items|] == items;
    return Some(words);
  }

  /** What the request asks for: its own scope, or the target's defaults. */
  function RequestedScope(form: Form.TokenForm, policy: TargetPolicy): Option<string> {
    var own := if form.Get(Form.Scope).Some? then Trim(form.Get(Form.Scope).value) else "";
    if own != "" then Some(own) else if Join(policy.defaults) != "" then Some(Join(policy.defaults)) else None
  }

  function ResolveScope(sts: Sts, form: Form.TokenForm, subject: SubjectClaims, policy: TargetPolicy): Result<string, HttpError> {
    var bound := SubjectScope(subject);
    if bound.None? then Err(BadRequest)
    else
      var granted := Downscope(RequestedScope(form, policy), Join(policy.allowed), bound.value, sts.scopeBoundRequired);
      if granted.None? then Err(BadScope) else Ok(granted.value)
  }

  /** `gate_may_act` */
  predicate MayAct(subject: SubjectClaims, actor: AssertionClaims) {
    match subject.mayAct
    case None => true
    case Some(v) =>
      && v.Obj? && v.members != map[]
      && v.Get("sub") == Some(Str(actor.sub))
      && (v.Get("iss").Some? ==> v.Get("iss") == Some(Str(actor.iss)))
  }

  datatype SigningDecision = SigningDecision(alg: string, pqcFallback: bool)

  /** `signing_decision_for_target`; `None` stands for `invalid_target`. */
  function DecideSigning(sts: Sts, policy: TargetPolicy): Option<SigningDecision> {
    var alg := sts.signer.alg;
    if policy.acceptedAlgs != {} && alg !in policy.acceptedAlgs then None
    else if policy.pqcRequired && !IsPqc(alg) then None
    else if sts.pqcPreferred && IsPqc(alg) && alg !in sts.pqcPreferredAlgs then None
    else if sts.pqcPreferred && !IsPqc(alg) then (if sts.allowNonPqc then Some(SigningDecision(alg, true)) else None)
    else Some(SigningDecision(alg, false))
  }

  // ---------------------------------------------------------------- an exchange, up to recording

  datatype VerifiedExchange = VerifiedExchange(
    form: Form.TokenForm, subject: SubjectClaims, subjectSub: string, target: string, scope: string,
    client: Option<AssertionClaims>, binding: Option<Binding>)

  datatype CredentialKind = ActorAssertion | ClientAssertion | Proof

  /** What is recorded for single use: the replay key and the expiry it is held with. */
  datatype Credential = Credential(kind: CredentialKind, key: string, exp: int)

  /** All gates are behind it: what to record, and what to mint when recording succeeds. */
  datatype Prepared = Prepared(
    creds: seq<Credential>, sub: string, aud: string, scope: string, clientId: string, act: Option<ActClaim>,
    cnf: Option<string>, auth: AuthContext, subjectExp: int, assertionExp: int, signing: SigningDecision)

  /** `token_inner` between parsing and the mode dispatch. */
  function AdmitForm(sts: Sts, env: Env, form: Form.TokenForm, dpop: seq<string>, at: Times): (r: Result<(EffectiveMode, VerifiedExchange), HttpError>)
    ensures r.Ok? ==> r.value.1.target in sts.targets
  {
    var mode := EffectiveExchangeMode(sts.mode, form);
    var client := AuthenticateClient(sts, env, form, mode, at.client);
    if client.Err? then Err(client.error)
    else
      var binding := ValidateDpop(sts, env, dpop, at.dpop);
      if binding.Err? then Err(binding.error)
      else
        var x := AdmitSubject(sts, env, form, at.subject, client.value, binding.value);
        if x.Err? then Err(x.error) else Ok((mode, x.value))
  }

  function AdmitSubject(sts: Sts, env: Env, form: Form.TokenForm, now: int, client: Option<AssertionClaims>, binding: Option<Binding>): (r: Result<VerifiedExchange, HttpError>)
    ensures r.Ok? ==> r.value.target in sts.targets
  {
    var subject := VerifySubject(sts, env, OrEmpty(form.Get(Form.SubjectToken)), now);
    if subject.Err? then Err(subject.error)
    else
      var target := ResolveTargetForRequest(sts, form);
      if target.Err? then Err(target.error)
      else
        var scope := ResolveScope(sts, form, subject.value, sts.targets[target.value]);
        if scope.Err? then Err(scope.error)
        else if subject.value.sub.None? || Blank(subject.value.sub.value) then Err(BadGrant)
        else Ok(VerifiedExchange(form, subject.value, subject.value.sub.value, target.value, scope.value, client, binding))
  }

  function ActorCredential(actor: AssertionClaims): Credential
    requires actor.jti.Some?
  {
    Credential(ActorAssertion, "act:" + actor.sub + ":" + actor.jti.value, actor.exp)
  }

  function ClientCredential(client: AssertionClaims): Credential {
    Credential(ClientAssertion, "ca:" + client.sub + ":" + TrimmedJti(client), client.exp)
  }

  function ClientCredentials(client: Option<AssertionClaims>): seq<Credential> {
    if client.Some? then [ClientCredential(client.value)] else []
  }

  function ProofCredentials(env: Env, binding: Option<Binding>): seq<Credential> {
    if binding.Some? then [Credential(Proof, ReplayKey(env.digest, binding.value), binding.value.replayExpiresAt)] else []
  }

  function Jkt(binding: Option<Binding>): Option<string> {
    if binding.Some? then Some(binding.value.jkt) else None
  }

  /** The hash that the actor's assertion must carry, if assertions are bound to the subject token. */
  function SubjectBinding(sts: Sts, env: Env, form: Form.TokenForm): Option<string> {
    if sts.requireSubjectBinding then Some(env.hash(OrEmpty(form.Get(Form.SubjectToken)))) else None
  }

  /** The gates of `exchange_delegation`. */
  function PrepareDelegation(sts: Sts, env: Env, x: VerifiedExchange, now: int): Result<Prepared, HttpError>
    requires x.target in sts.targets
  {
    var token := x.form.Get(Form.ActorToken);
    if token.None? then Err(if x.client.Some? then BadRequest else BadClient)
    else
      var actor := VerifyAssertion(sts, env, token.value, sts.actorJwks, SubjectBinding(sts, env, x.form), now);
      if actor.Err? then Err(actor.error) else PrepareActor(sts, env, x, actor.value)
  }

  function PrepareActor(sts: Sts, env: Env, x: VerifiedExchange, actor: AssertionClaims): Result<Prepared, HttpError>
    requires x.target in sts.targets
  {
    if actor.sub !in sts.actorIds || actor.iss != actor.sub then Err(BadClient)
    else if !MayAct(x.subject, actor) then Err(BadRequest)
    else
      var signing := DecideSigning(sts, sts.targets[x.target]);
      var prior := if x.subject.act.Some? then Parse(x.subject.act.value) else None;
      if signing.None? then Err(BadTarget)
      else if x.subject.act.Some? && prior.None? then Err(BadRequest)
      else if actor.jti.None? || Blank(actor.jti.value) then Err(BadClient)
      else Ok(Prepared(
        [ActorCredential(actor)] + ClientCredentials(x.client) + ProofCredentials(env, x.binding),
        x.subjectSub, x.target, x.scope, actor.sub, Some(BuildAct(actor.sub, prior)), Jkt(x.binding),
        x.subject.auth, x.subject.exp, actor.exp, signing.value))
  }

  /** The gates of `exchange_impersonation`. */
  function PrepareImpersonation(sts: Sts, env: Env, x: VerifiedExchange): Result<Prepared, HttpError>
    requires x.target in sts.targets
  {
    if x.form.Get(Form.ActorToken).Some? || x.client.None? then Err(BadClient)
    else
      var client := x.client.value;
      if client.sub !in sts.impersonation then Err(BadRequest)
      else if !sts.impersonation[client.sub].targets.Allows(x.target) then Err(BadTarget)
      else if !sts.impersonation[client.sub].subjects.Allows(x.subjectSub) then Err(BadRequest)
      else
        var signing := DecideSigning(sts, sts.targets[x.target]);
        if signing.None? then Err(BadTarget)
        else Ok(Prepared(
          [ClientCredential(client)] + ProofCredentials(env, x.binding),
          x.subjectSub, x.target, x.scope, client.sub, None, Jkt(x.binding), x.subject.auth, x.subject.exp, client.exp, signing.value))
  }

  function PrepareForm(sts: Sts, env: Env, form: Form.TokenForm, dpop: seq<string>, at: Times): Result<Prepared, HttpError> {
    var admitted := AdmitForm(sts, env, form, dpop, at);
    if admitted.Err? then Err(admitted.error)
    else if admitted.value.0.Delegation? then PrepareDelegation(sts, env, admitted.value.1, at.actor)
    else PrepareImpersonation(sts, env, admitted.value.1)
  }

  /** Every gate of the token endpoint, in order. */
  function Prepare(sts: Sts, env: Env, req: HttpRequest, at: Times): Result<Prepared, HttpError> {
    var parsed := Form.Parse(req.items);
    if !req.formEncoded then Err(BadRequest)
    else if req.hasAuthorization then Err(BadAuthorization)
    else if parsed.Err? then Err(if parsed.error.InvalidTarget? then BadTarget else BadRequest)
    else
      var bad := ParamError(parsed.value, sts.maxTokenLen);
      if bad.Some? then Err(bad.value) else PrepareForm(sts, env, parsed.value, req.dpop, at)
  }

  // ---------------------------------------------------------------- minting and introspecting

  function Min(a: int, b: int): int {
    if a <= b then a else b
  }

  /** The claims of the new token; `now` is the reading under which the credentials were recorded. */
  function Mint(sts: Sts, p: Prepared, now: int, jti: string): MintedClaims {
    MintedClaims(sts.issuer, p.sub, p.aud, p.scope, now, Min(now + sts.ttl, Min(p.subjectExp, p.assertionExp)), jti,
                 p.clientId, p.act, p.cnf, p.auth)
  }

  function Sign(sts: Sts, claims: MintedClaims): Jws<MintedClaims> {
    Jws(sts.signer.alg, Some(sts.signer.kid), Some("at+jwt"), sts.signer.key, claims)
  }

  /** The server's own token, for one of its targets, whatever the time. */
  predicate Recognised(sts: Sts, token: Jws<MintedClaims>) {
    var c := token.claims;
    && Verifies(token, Publish(sts.signer, sts.extraKeys), None)
    && token.typ == Some("at+jwt")
    && c.iss == sts.issuer
    && c.aud in sts.targets
    && !Blank(c.sub) && !Blank(c.clientId) && !Blank(c.scope)
  }

  /** `verified_sts_access_token` apart from the revocation lookup. */
  predicate ActiveAt(sts: Sts, token: Jws<MintedClaims>, now: int) {
    Recognised(sts, token) && token.claims.exp > now && token.claims.iat <= now + sts.leeway
  }
}
