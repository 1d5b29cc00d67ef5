/** What a successful exchange guarantees about its token, and exactly when the token endpoint issues one. */
module Minting {
  import opened Prelude
  import opened Text
  import opened ActorChain
  import opened KeyOwnership
  import opened Jwks
  import opened Dpop
  import opened ReplayStore
  import opened Exchange
  import opened Genuine
  import opened Recording
  import opened Admission
  import Form

  // ---------------------------------------------------------------- what backs a minted token

  ghost function SubjectOf(env: Env, form: Form.TokenForm): Option<Jws<SubjectClaims>> {
    env.subject(OrEmpty(form.Get(Form.SubjectToken)))
  }

  /** The assertion that identifies the caller: the actor's in a delegation, the client's in an impersonation. */
  ghost function CallerToken(form: Form.TokenForm, mode: EffectiveMode): Option<string> {
    form.Get(if mode.Delegation? then Form.ActorToken else Form.ClientAssertion)
  }

  /** The subject token is genuine and names this subject. */
  ghost predicate SubjectBacks(sts: Sts, env: Env, form: Form.TokenForm, c: MintedClaims, now: int) {
    var j := SubjectOf(env, form);
    && j.Some? && SubjectGenuine(sts, j.value, now)
    && j.value.claims.sub == Some(c.sub) && !Blank(c.sub) && c.auth == j.value.claims.auth
  }

  /** The audience is a configured target that the request named. */
  ghost predicate TargetBacks(sts: Sts, form: Form.TokenForm, c: MintedClaims) {
    c.aud in sts.targets && NamesTarget(form, c.aud)
  }

  /** The granted words are exactly the requested ones, or the defaults, that target and subject permit. */
  ghost predicate ScopeBacks(sts: Sts, env: Env, form: Form.TokenForm, c: MintedClaims) {
    && c.aud in sts.targets && SubjectOf(env, form).Some?
    && Grants(sts, form, sts.targets[c.aud], SubjectOf(env, form).value.claims, c.scope)
  }

  /** Delegation: the actor's assertion is genuine, is recorded first, and its actor stands in the token. */
  ghost predicate ActorBacks(sts: Sts, env: Env, form: Form.TokenForm, p: Prepared, c: MintedClaims, now: int) {
    var subject, token := SubjectOf(env, form), form.Get(Form.ActorToken);
    && subject.Some? && token.Some? && env.assertion(token.value).Some?
    && var j := env.assertion(token.value).value;
       && AssertionGenuine(sts, j, sts.actorJwks, BoundTo(sts, env, form), now)
       && ActsAs(sts, subject.value.claims, j.claims, p, c)
  }

  /** The token names the actor, who is permitted by configuration and by the subject, and heads the actor chain. */
  ghost predicate ActsAs(sts: Sts, subject: SubjectClaims, actor: AssertionClaims, p: Prepared, c: MintedClaims) {
    && actor.sub == c.clientId && c.clientId in sts.actorIds
    && actor.iss == actor.sub && Authorizes(subject, c.clientId)
    && actor.jti.Some? && p.creds != [] && p.creds[0] == ActorCredential(actor) && p.assertionExp == actor.exp
    && c.act.Some? && c.act.value.sub == c.clientId && c.act.value.iss == None && Levels(c.act.value) <= MAX_DEPTH + 1
    && c.act.value.act == if subject.act.Some? then Parse(subject.act.value) else None
  }

  /** Impersonation: the client's assertion is genuine, is recorded first, and its policy allows target and subject. */
  ghost predicate ClientBacks(sts: Sts, env: Env, form: Form.TokenForm, p: Prepared, c: MintedClaims, now: int) {
    var token := form.Get(Form.ClientAssertion);
    && form.Get(Form.ActorToken).None? && token.Some? && env.assertion(token.value).Some?
    && var j := env.assertion(token.value).value;
       && AssertionGenuine(sts, j, sts.clientJwks, None, now)
       && j.claims.sub in sts.clientIds
       && Impersonates(sts, j.claims, p, c)
  }

  /** The token names the client, whose policy allows the target and the subject, and no actor. */
  ghost predicate Impersonates(sts: Sts, client: AssertionClaims, p: Prepared, c: MintedClaims) {
    && client.sub == c.clientId && c.clientId in sts.impersonation
    && Holds(sts.impersonation[c.clientId].targets, c.aud) && Holds(sts.impersonation[c.clientId].subjects, c.sub)
    && p.creds != [] && p.creds[0] == ClientCredential(client) && p.assertionExp == client.exp
    && c.act.None?
  }

  /** The algorithm suits the target; a classical signature under PQC preference is allowed and flagged, and only then. */
  ghost predicate SigningBacks(sts: Sts, aud: string, signing: SigningDecision) {
    && aud in sts.targets && SigningAllowed(sts, sts.targets[aud]) && signing.alg == sts.signer.alg
    && (signing.pqcFallback <==> sts.pqcPreferred && !IsMlDsa(signing.alg))
    && (signing.pqcFallback ==> sts.allowNonPqc)
  }

  /** The key that a single decodable proof is bound to. */
  ghost function HolderKey(env: Env, dpop: seq<string>): Option<string> {
    if |dpop| == 1 && env.proof(dpop[0]).Some? then Some(env.proof(dpop[0]).value.0) else None
  }

  ghost predicate Backed(sts: Sts, env: Env, form: Form.TokenForm, dpop: seq<string>, at: Times, p: Prepared, c: MintedClaims) {
    var mode := ModeOf(sts, form);
    && SubjectBacks(sts, env, form, c, at.subject)
    && TargetBacks(sts, form, c)
    && ScopeBacks(sts, env, form, c)
    && (if mode.Delegation? then ActorBacks(sts, env, form, p, c, at.actor) else ClientBacks(sts, env, form, p, c, at.client))
    && p.creds == Presented(sts, env, form, dpop)
    && c.cnf == HolderKey(env, dpop) && (c.cnf.Some? <==> dpop != [])
    && SigningBacks(sts, c.aud, p.signing)
  }

  /** The token lives for the configured time, but no longer than the subject token and the caller's assertion. */
  ghost predicate Capped(sts: Sts, env: Env, form: Form.TokenForm, c: MintedClaims) {
    var subject, caller := SubjectOf(env, form), ClaimsOf(env, CallerToken(form, ModeOf(sts, form)));
    subject.Some? && caller.Some? && c.exp == Min(c.iat + sts.ttl, Min(subject.value.claims.exp, caller.value.exp))
  }

  // ---------------------------------------------------------------- the gates establish it

  /** The token carries over what was admitted. */
  ghost predicate Carries(x: VerifiedExchange, p: Prepared, c: MintedClaims) {
    && c.sub == x.subjectSub && c.aud == x.target && c.scope == x.scope && c.auth == x.subject.auth
    && c.cnf == Jkt(x.binding) && p.subjectExp == x.subject.exp
  }

  lemma TargetCarried(sts: Sts, env: Env, form: Form.TokenForm, now: int, x: VerifiedExchange, p: Prepared, c: MintedClaims)
    requires Admitted(sts, env, form, now, x) && Carries(x, p, c)
    ensures SubjectBacks(sts, env, form, c, now)
    ensures TargetBacks(sts, form, c)
    ensures ScopeBacks(sts, env, form, c)
  {
    TargetExactlyWhen(form, c.aud);
  }

  lemma ActorCarries(sts: Sts, env: Env, x: VerifiedExchange, actor: AssertionClaims, now: int, jti: string)
    requires x.target in sts.targets && PrepareActor(sts, env, x, actor).Ok?
    ensures var p := PrepareActor(sts, env, x, actor).value;
      var c := Mint(sts, p, now, jti);
      Carries(x, p, c) && SigningBacks(sts, c.aud, p.signing) && ActsAs(sts, x.subject, actor, p, c)
  {
    MintedChainIsBounded(actor.sub, x.subject.act);
    MayActExactlyWhen(x.subject, actor);
    SigningGate(sts, sts.targets[x.target]);
    PqcIsMlDsa(sts.signer.alg);
  }

  lemma DelegationBacking(sts: Sts, env: Env, form: Form.TokenForm, at: Times, x: VerifiedExchange, now: int, jti: string)
    requires Admitted(sts, env, form, at.subject, x) && PrepareDelegation(sts, env, x, at.actor).Ok?
    ensures var p := PrepareDelegation(sts, env, x, at.actor).value;
      var c := Mint(sts, p, now, jti);
      ActorBacks(sts, env, form, p, c, at.actor) && Carries(x, p, c) && SigningBacks(sts, c.aud, p.signing)
  {
    var j := env.assertion(x.form.Get(Form.ActorToken).value).value;
    AssertionExactlyWhen(sts, j, sts.actorJwks, SubjectBinding(sts, env, form), at.actor);
    ActorCarries(sts, env, x, j.claims, now, jti);
  }

  lemma ImpersonationCarries(sts: Sts, env: Env, x: VerifiedExchange, now: int, jti: string)
    requires x.target in sts.targets && PrepareImpersonation(sts, env, x).Ok?
    ensures x.form.Get(Form.ActorToken).None? && x.client.Some?
    ensures var p := PrepareImpersonation(sts, env, x).value;
      var c := Mint(sts, p, now, jti);
      Carries(x, p, c) && SigningBacks(sts, c.aud, p.signing) && Impersonates(sts, x.client.value, p, c)
  {
    SigningGate(sts, sts.targets[x.target]);
    PqcIsMlDsa(sts.signer.alg);
  }

  lemma ImpersonationBacking(sts: Sts, env: Env, form: Form.TokenForm, client: AssertionClaims, now: int, p: Prepared, c: MintedClaims)
    requires AuthenticateClient(sts, env, form, Impersonation, now) == Ok(Some(client))
    requires form.Get(Form.ActorToken).None? && Impersonates(sts, client, p, c)
    ensures ClientBacks(sts, env, form, p, c, now)
  {
    ClientGate(sts, env, form, Impersonation, now);
  }

  lemma ProofIsBound(sts: Sts, env: Env, headers: seq<string>, now: I64)
    requires ValidateDpop(sts, env, headers, now).Ok?
    ensures Jkt(ValidateDpop(sts, env, headers, now).value) == HolderKey(env, headers)
    ensures HolderKey(env, headers).Some? <==> headers != []
  {
  }

  lemma PrepareFormIsBacked(sts: Sts, env: Env, form: Form.TokenForm, dpop: seq<string>, at: Times, now: int, jti: string)
    requires PrepareForm(sts, env, form, dpop, at).Ok?
    ensures var p := PrepareForm(sts, env, form, dpop, at).value;
      var c := Mint(sts, p, now, jti);
      Backed(sts, env, form, dpop, at, p, c) && p.subjectExp == SubjectOf(env, form).value.claims.exp
  {
    AdmittedForm(sts, env, form, dpop, at);
    ProofIsBound(sts, env, dpop, at.dpop);
    FormGates(sts, env, form, dpop, at);
    var (mode, x) := AdmitForm(sts, env, form, dpop, at).value;
    var p := PrepareForm(sts, env, form, dpop, at).value;
    var c := Mint(sts, p, now, jti);
    if mode.Delegation? {
      DelegationBacking(sts, env, form, at, x, now, jti);
    } else {
      ImpersonationCarries(sts, env, x, now, jti);
      ImpersonationBacking(sts, env, form, x.client.value, at.client, p, c);
    }
    TargetCarried(sts, env, form, at.subject, x, p, c);
  }

  // ---------------------------------------------------------------- mint soundness

  /**
   * Every minted token is backed by genuine inputs and by policy, and expires exactly when the configured lifetime,
   * the subject token or the caller's assertion ends first.
   */
  lemma MintSound(sts: Sts, env: Env, req: HttpRequest, at: Times, now: int, jti: string)
    requires Prepare(sts, env, req, at).Ok?
    ensures var p := Prepare(sts, env, req, at).value;
      var c := Mint(sts, p, now, jti);
      && Form.Parse(req.items).Ok?
      && Backed(sts, env, Form.Parse(req.items).value, req.dpop, at, p, c) && Capped(sts, env, Form.Parse(req.items).value, c)
      && c.iss == sts.issuer && c.iat == now && c.jti == jti
  {
    PrepareFormIsBacked(sts, env, Form.Parse(req.items).value, req.dpop, at, now, jti);
  }

  /** The request sends this parameter with some value other than the empty one. */
  ghost predicate Sends(req: HttpRequest, key: Form.Key) {
    exists v :: v != "" && Form.Known(key, v) in req.items
  }

  lemma SentIsRead(req: HttpRequest, key: Form.Key)
    requires Form.Parse(req.items).Ok?
    ensures Form.Parse(req.items).value.Get(key).Some? <==> Sends(req, key)
    ensures Form.Parse(req.items).value.emptyActorTokenSupplied <==> Form.Known(Form.ActorToken, "") in req.items
  {
    var form := Form.Parse(req.items).value;
    Form.ParseMeaning(req.items);
    if form.Get(key).Some? {
      assert Form.Known(key, form.Get(key).value) in multiset(req.items);
    }
    if v :| v != "" && Form.Known(key, v) in req.items {
      assert Form.Known(key, v) in multiset(req.items);
      assert form.Get(key) == Some(v);
    }
    assert Form.Known(Form.ActorToken, "") in req.items <==> Form.Known(Form.ActorToken, "") in multiset(req.items);
  }

  /**
   * Which tokens carry `act`: all of a server for delegation only, none of one for impersonation only, and in `Both` mode
   * exactly those whose request sent a non-empty `actor_token`. Where delegation is on, an empty `actor_token` gets no token.
   */
  lemma ActFollowsMode(sts: Sts, env: Env, req: HttpRequest, at: Times, now: int, jti: string)
    requires Prepare(sts, env, req, at).Ok?
    ensures Mint(sts, Prepare(sts, env, req, at).value, now, jti).act.Some? <==>
      match sts.mode
      case DelegationOnly => true
      case ImpersonationOnly => false
      case Both => Sends(req, Form.ActorToken)
    ensures sts.mode.ImpersonationOnly? || Form.Known(Form.ActorToken, "") !in req.items
    ensures sts.mode.DelegationOnly? ==> Sends(req, Form.ActorToken)
  {
    var p := Prepare(sts, env, req, at).value;
    PreparedFromForm(sts, env, req, at, p);
    FormFollowsMode(sts, env, Form.Parse(req.items).value, req.dpop, at, p, now, jti);
    SentIsRead(req, Form.ActorToken);
    OneActorToken(req);
  }

  lemma PreparedFromForm(sts: Sts, env: Env, req: HttpRequest, at: Times, p: Prepared)
    requires Prepare(sts, env, req, at) == Ok(p)
    ensures Form.Parse(req.items).Ok? && PrepareForm(sts, env, Form.Parse(req.items).value, req.dpop, at) == Ok(p)
  {
  }

  lemma BackedFollowsMode(sts: Sts, env: Env, form: Form.TokenForm, dpop: seq<string>, at: Times, p: Prepared, c: MintedClaims)
    requires Backed(sts, env, form, dpop, at, p, c)
    ensures c.act.Some? <==> ModeOf(sts, form).Delegation?
    ensures c.act.Some? <==> form.Get(Form.ActorToken).Some?
  {
  }

  lemma FormFollowsMode(sts: Sts, env: Env, form: Form.TokenForm, dpop: seq<string>, at: Times, p: Prepared, now: int, jti: string)
    requires PrepareForm(sts, env, form, dpop, at) == Ok(p)
    ensures Mint(sts, p, now, jti).act.Some? <==> ModeOf(sts, form).Delegation?
    ensures Mint(sts, p, now, jti).act.Some? <==> form.Get(Form.ActorToken).Some?
  {
    PrepareFormIsBacked(sts, env, form, dpop, at, now, jti);
    BackedFollowsMode(sts, env, form, dpop, at, p, Mint(sts, p, now, jti));
  }

  lemma NotBoth(m: multiset<Form.Item>, key: Form.Key, v: string, w: string)
    requires !Form.Repeats(m, key) && Form.Known(key, v) in m && v != w
    ensures Form.Known(key, w) !in m
  {
  }

  /** A parsed form does not hold an empty and a non-empty `actor_token`. */
  lemma OneActorToken(req: HttpRequest)
    requires Form.Parse(req.items).Ok?
    ensures Form.Parse(req.items).value.Get(Form.ActorToken).Some? ==> Form.Known(Form.ActorToken, "") !in req.items
  {
    Form.ParseMeaning(req.items);
    var token := Form.Parse(req.items).value.Get(Form.ActorToken);
    if token.Some? {
      NotBoth(multiset(req.items), Form.ActorToken, token.value, "");
      assert Form.Known(Form.ActorToken, "") in req.items <==> Form.Known(Form.ActorToken, "") in multiset(req.items);
    }
  }

  /** One key id never authenticates two registered identities, whichever endpoint or key set it is used with. */
  lemma KidAuthenticatesOneIdentity(sts: Sts, j: Jws<AssertionClaims>, k: Jws<AssertionClaims>,
                                    keys: seq<Jwk>, keys': seq<Jwk>, b: Option<string>, b': Option<string>, t: int, t': int)
    requires AssertionGenuine(sts, j, keys, b, t) && AssertionGenuine(sts, k, keys', b', t') && j.kid == k.kid
    requires j.claims.sub in sts.actorIds + sts.clientIds && k.claims.sub in sts.actorIds + sts.clientIds
    ensures j.claims.sub == k.claims.sub
  {
    BelongsExactlyWhen(j.kid.value, j.claims.sub, sts.actorIds + sts.clientIds);
    BelongsExactlyWhen(k.kid.value, k.claims.sub, sts.actorIds + sts.clientIds);
    OwnerIsUnique(j.kid.value, j.claims.sub, k.claims.sub, sts.actorIds + sts.clientIds);
  }

  // ---------------------------------------------------------------- minting and introspection agree

  /** `later` serves the same issuer and targets and still publishes the key that `sts` signs with. */
  ghost predicate StillServes(sts: Sts, later: Sts) {
    && later.issuer == sts.issuer && sts.targets.Keys <= later.targets.Keys && later.leeway >= 0
    && Find(Publish(later.signer, later.extraKeys), sts.signer.kid) == Some(sts.signer)
  }

  lemma BackedNames(sts: Sts, env: Env, req: HttpRequest, at: Times, now: int, jti: string)
    requires ValidConfig(sts) && Prepare(sts, env, req, at).Ok?
    ensures var c := Mint(sts, Prepare(sts, env, req, at).value, now, jti);
      c.aud in sts.targets && !Blank(c.sub) && !Blank(c.clientId) && !Blank(c.scope)
  {
    PrepareFormIsBacked(sts, env, Form.Parse(req.items).value, req.dpop, at, now, jti);
    BlankHasNoWords(Mint(sts, Prepare(sts, env, req, at).value, now, jti).scope);
  }

  /** A minted token is reported active at every time from its `iat` up to its `exp`, also across key rotations. */
  lemma MintedIsActive(sts: Sts, later: Sts, env: Env, req: HttpRequest, at: Times, now: int, jti: string, n: int)
    requires ValidConfig(sts) && StillServes(sts, later) && Prepare(sts, env, req, at).Ok?
    requires now <= n < Mint(sts, Prepare(sts, env, req, at).value, now, jti).exp
    ensures ActiveAt(later, Sign(sts, Mint(sts, Prepare(sts, env, req, at).value, now, jti)), n)
  {
    BackedNames(sts, env, req, at, now, jti);
  }

  /** A server with any extra keys publishes its own signing key, so it recognises its own tokens. */
  lemma ServesItself(sts: Sts)
    requires ValidConfig(sts)
    ensures StillServes(sts, sts)
  {
    PublishedLookup(sts.signer, sts.extraKeys, sts.signer.kid);
  }

  // ---------------------------------------------------------------- issuing

  datatype TokenResponse = TokenResponse(token: Jws<MintedClaims>, dpopBound: bool, expiresIn: int, scope: string, signing: SigningDecision)

  function Respond(sts: Sts, p: Prepared, now: int, jti: string): TokenResponse {
    var c := Mint(sts, p, now, jti);
    TokenResponse(Sign(sts, c), p.cnf.Some?, if c.exp > now then c.exp - now else 0, p.scope, p.signing)
  }

  /** The request is in order, and the store holds none of the credentials it presents and has room for all of them. */
  ghost predicate Issues(sts: Sts, env: Env, kind: Kind, lim: Limits, s: Store, req: HttpRequest, at: Times, now: int) {
    RequestInOrder(sts, env, req, at) && Storable(kind, lim, s, PresentedBy(sts, env, req), now)
  }

  /** The gates, then the recording, then the token. */
  function Outcome(sts: Sts, env: Env, kind: Kind, lim: Limits, s: Store, req: HttpRequest, at: Times, now: int, jti: string): (Store, Result<TokenResponse, HttpError>) {
    match Prepare(sts, env, req, at)
    case Err(e) => (s, Err(e))
    case Ok(p) =>
      var (t, refused) := RecordAll(kind, lim, s, p.creds, now);
      (t, if refused.Some? then Err(refused.value) else Ok(Respond(sts, p, now, jti)))
  }

  /** From request, tokens, policy and store to the decision: exactly when an exchange succeeds. */
  lemma IssuesExactlyWhen(sts: Sts, env: Env, kind: Kind, lim: Limits, s: Store, req: HttpRequest, at: Times, now: int, jti: string)
    ensures Outcome(sts, env, kind, lim, s, req, at, now, jti).1.Ok? <==> Issues(sts, env, kind, lim, s, req, at, now)
  {
    PassesExactlyWhen(sts, env, req, at);
    if Prepare(sts, env, req, at).Ok? {
      PresentedIsUsable(sts, env, Form.Parse(req.items).value, req.dpop);
      RecordsAllExactlyWhen(kind, lim, s, PresentedBy(sts, env, req), now);
    }
  }

  /** The answer describes the token that it carries. */
  ghost predicate Describes(r: TokenResponse) {
    var c := r.token.claims;
    && (r.dpopBound <==> c.cnf.Some?)
    && r.expiresIn == (if c.exp - c.iat < 0 then 0 else c.exp - c.iat)
    && r.scope == c.scope && r.signing.alg == r.token.alg
  }

  /** The answer describes its token, which is backed by the request, lives as long as it may, and is active until then. */
  ghost predicate Delivers(sts: Sts, env: Env, req: HttpRequest, at: Times, now: int, jti: string, p: Prepared, r: TokenResponse) {
    var c := r.token.claims;
    && Describes(r) && r.signing == p.signing && c.iss == sts.issuer && c.iat == now && c.jti == jti
    && Form.Parse(req.items).Ok?
    && Backed(sts, env, Form.Parse(req.items).value, req.dpop, at, p, c) && Capped(sts, env, Form.Parse(req.items).value, c)
    && (ValidConfig(sts) ==> forall n :: c.iat <= n < c.exp ==> ActiveAt(sts, r.token, n))
  }

  lemma RespondDescribes(sts: Sts, p: Prepared, now: int, jti: string)
    requires p.signing.alg == sts.signer.alg
    ensures Describes(Respond(sts, p, now, jti)) && Respond(sts, p, now, jti).token == Sign(sts, Mint(sts, p, now, jti))
  {
  }

  lemma ActiveThroughout(sts: Sts, env: Env, req: HttpRequest, at: Times, now: int, jti: string)
    requires ValidConfig(sts) && Prepare(sts, env, req, at).Ok?
    ensures var c := Mint(sts, Prepare(sts, env, req, at).value, now, jti);
      forall n :: c.iat <= n < c.exp ==> ActiveAt(sts, Sign(sts, c), n)
  {
    ServesItself(sts);
    var c := Mint(sts, Prepare(sts, env, req, at).value, now, jti);
    forall n | c.iat <= n < c.exp
      ensures ActiveAt(sts, Sign(sts, c), n)
    {
      MintedIsActive(sts, sts, env, req, at, now, jti, n);
    }
  }

  lemma RespondDelivers(sts: Sts, env: Env, req: HttpRequest, at: Times, now: int, jti: string, p: Prepared)
    requires Prepare(sts, env, req, at) == Ok(p)
    ensures Delivers(sts, env, req, at, now, jti, p, Respond(sts, p, now, jti))
  {
    MintSound(sts, env, req, at, now, jti);
    RespondDescribes(sts, p, now, jti);
    if ValidConfig(sts) {
      ActiveThroughout(sts, env, req, at, now, jti);
    }
  }

  /** A subject whose `may_act` is no object, is empty or names somebody else gets no delegation. */
  lemma MayActRefuses(sts: Sts, env: Env, kind: Kind, lim: Limits, s: Store, req: HttpRequest, at: Times, now: int, jti: string)
    requires Form.Parse(req.items).Ok?
    requires var form := Form.Parse(req.items).value;
      && ModeOf(sts, form).Delegation? && SubjectOf(env, form).Some?
      && var actor := ClaimsOf(env, form.Get(Form.ActorToken)); actor.Some? ==> !Authorizes(SubjectOf(env, form).value.claims, actor.value.sub)
    ensures Outcome(sts, env, kind, lim, s, req, at, now, jti).1.Err? && Outcome(sts, env, kind, lim, s, req, at, now, jti).0 == s
  {
    IssuesExactlyWhen(sts, env, kind, lim, s, req, at, now, jti);
    OutcomeRecords(sts, env, kind, lim, s, req, at, now, jti);
    NotAuthorized(sts, env, Form.Parse(req.items).value, req.dpop, at);
  }

  lemma NotAuthorized(sts: Sts, env: Env, form: Form.TokenForm, dpop: seq<string>, at: Times)
    requires ModeOf(sts, form).Delegation? && SubjectOf(env, form).Some?
    requires var actor := ClaimsOf(env, form.Get(Form.ActorToken)); actor.Some? ==> !Authorizes(SubjectOf(env, form).value.claims, actor.value.sub)
    ensures !FormInOrder(sts, env, form, dpop, at)
  {
  }

  /** Every unexpired credential is on record. */
  ghost predicate OnRecord(entries: Entries, creds: seq<Credential>, now: int) {
    forall i :: 0 <= i < |creds| && creds[i].exp >= now ==> creds[i].key in entries && entries[creds[i].key] == creds[i].exp
  }

  /** After a success every unexpired credential is on record; a request that is not in order leaves the store as it was. */
  lemma OutcomeRecords(sts: Sts, env: Env, kind: Kind, lim: Limits, s: Store, req: HttpRequest, at: Times, now: int, jti: string)
    ensures var (t, r) := Outcome(sts, env, kind, lim, s, req, at, now, jti);
      && (r.Ok? ==> OnRecord(t.entries, PresentedBy(sts, env, req), now))
      && (!RequestInOrder(sts, env, req, at) ==> t == s)
  {
    PassesExactlyWhen(sts, env, req, at);
    if Prepare(sts, env, req, at).Ok? {
      var creds := PresentedBy(sts, env, req);
      if RecordAll(kind, lim, s, creds, now).1.None? {
        AllOnRecord(kind, lim, s, creds, now);
      }
    }
  }

  lemma AllOnRecord(kind: Kind, lim: Limits, s: Store, creds: seq<Credential>, now: int)
    requires RecordAll(kind, lim, s, creds, now).1.None?
    ensures OnRecord(RecordAll(kind, lim, s, creds, now).0.entries, creds, now)
  {
    var entries := RecordAll(kind, lim, s, creds, now).0.entries;
    forall i | 0 <= i < |creds| && creds[i].exp >= now
      ensures creds[i].key in entries && entries[creds[i].key] == creds[i].exp
    {
      SuccessRecordsAll(kind, lim, s, creds, now, i);
    }
  }

  /**
   * The token endpoint on either replay store. A token is issued exactly when the request is in order and the store takes
   * all its credentials, which are then on record; the answer describes the token, which is sound and active. A request that fails in any gate leaves the store as it was.
   */
  method TokenInner(sts: Sts, env: Env, policy: ReplayPolicy, req: HttpRequest, at: Times, now: int, jti: string)
    returns (r: Result<TokenResponse, HttpError>)
    modifies policy.Repr()
    ensures (policy.View(), r) == Outcome(sts, env, policy.StoreKind(), policy.StoreLimits(), old(policy.View()), req, at, now, jti)
    ensures r.Ok? <==> Issues(sts, env, policy.StoreKind(), policy.StoreLimits(), old(policy.View()), req, at, now)
    ensures r.Ok? ==> Prepare(sts, env, req, at).Ok? && Delivers(sts, env, req, at, now, jti, Prepare(sts, env, req, at).value, r.value)
    ensures r.Ok? ==> OnRecord(policy.View().entries, PresentedBy(sts, env, req), now)
    ensures !RequestInOrder(sts, env, req, at) ==> policy.View() == old(policy.View())
  {
    ghost var kind, lim, s := policy.StoreKind(), policy.StoreLimits(), policy.View();
    IssuesExactlyWhen(sts, env, kind, lim, s, req, at, now, jti);
    OutcomeRecords(sts, env, kind, lim, s, req, at, now, jti);
    var prepared := Prepare(sts, env, req, at);
    if prepared.Err? {
      return Err(prepared.error);
    }
    var p := prepared.value;
    var refused := RecordCredentials(policy, p.creds, now);
    if refused.Some? {
      return Err(refused.value);
    }
    RespondDelivers(sts, env, req, at, now, jti, p);
    return Ok(Respond(sts, p, now, jti));
  }
}
