/** Why a request was refused: every error names a condition that the request does fail. */
module Refusals {
  import opened Prelude
  import opened Text
  import opened ActorChain
  import opened Dpop
  import opened ReplayStore
  import opened Exchange
  import opened Genuine
  import opened Recording
  import opened Admission
  import opened Minting
  import Form

  // ---------------------------------------------------------------- the conditions by name

  ghost predicate SubjectNamed(sts: Sts, env: Env, form: Form.TokenForm, now: int) {
    var j := SubjectOf(env, form);
    j.Some? && SubjectGenuine(sts, j.value, now) && j.value.claims.sub.Some? && !Blank(j.value.claims.sub.value)
  }

  ghost predicate TargetConfigured(sts: Sts, form: Form.TokenForm) {
    TargetOf(form).Some? && TargetOf(form).value in sts.targets
  }

  ghost predicate ActorIdentified(sts: Sts, env: Env, form: Form.TokenForm, now: int) {
    var token := form.Get(Form.ActorToken);
    && token.Some? && env.assertion(token.value).Some?
    && AssertionGenuine(sts, env.assertion(token.value).value, sts.actorJwks, BoundTo(sts, env, form), now)
    && var actor := env.assertion(token.value).value.claims;
       actor.sub in sts.actorIds && actor.iss == actor.sub && actor.jti.Some? && !Blank(actor.jti.value)
  }

  /** The subject lets the actor act, and its own actors can be read. */
  ghost predicate ActorAllowed(subject: SubjectClaims, actor: AssertionClaims) {
    Authorizes(subject, actor.sub) && (subject.act.Some? ==> Parse(subject.act.value).Some?)
  }

  /** What is wrong with a form that was refused with this error. */
  ghost predicate Explains(sts: Sts, env: Env, form: Form.TokenForm, dpop: seq<string>, at: Times, e: HttpError) {
    var mode, subject, target := ModeOf(sts, form), SubjectOf(env, form), TargetOf(form);
    var actor, client := ClaimsOf(env, form.Get(Form.ActorToken)), ClaimsOf(env, form.Get(Form.ClientAssertion));
    match e
    case BadProof => !ProofInOrder(sts, env, dpop, at.dpop)
    case BadGrant => !SubjectNamed(sts, env, form, at.subject)
    case BadScope =>
      subject.Some? && TargetConfigured(sts, form) && !MalformedScope(subject.value.claims.scp)
      && !ScopeRemains(sts, form, subject.value.claims, sts.targets[target.value])
    case BadTarget =>
      || !TargetConfigured(sts, form)
      || !SigningAllowed(sts, sts.targets[target.value])
      || (mode.Impersonation? && client.Some? && client.value.sub in sts.impersonation
          && !Holds(sts.impersonation[client.value.sub].targets, target.value))
    case BadClient =>
      !ClientInOrder(sts, env, form, mode, at.client) || (mode.Delegation? && !ActorIdentified(sts, env, form, at.actor))
    case BadRequest =>
      || form.Get(Form.Audience) == Some("")
      || (subject.Some? && MalformedScope(subject.value.claims.scp))
      || (mode.Delegation? && form.Get(Form.ActorToken).None? && !NoClient(form))
      || (mode.Delegation? && subject.Some? && actor.Some? && !ActorAllowed(subject.value.claims, actor.value))
      || (mode.Impersonation? && client.Some? && subject.Some? && subject.value.claims.sub.Some?
          && (client.value.sub in sts.impersonation ==> !Holds(sts.impersonation[client.value.sub].subjects, subject.value.claims.sub.value)))
    case _ => false
  }

  // ---------------------------------------------------------------- gate by gate

  lemma VerifyClientRefusal(sts: Sts, env: Env, form: Form.TokenForm, now: int)
    requires VerifyClient(sts, env, form, now).Err?
    ensures VerifyClient(sts, env, form, now).error == BadClient
  {
  }

  lemma PresentRefusal(sts: Sts, form: Form.TokenForm, mode: EffectiveMode, verified: Result<AssertionClaims, HttpError>)
    requires AuthenticateIfPresent(sts, form, mode, verified).Err? && (verified.Err? ==> verified.error == BadClient)
    ensures var e := AuthenticateIfPresent(sts, form, mode, verified).error;
      e == BadClient || (e == BadRequest && mode.Delegation? && form.Get(Form.ActorToken).None? && !NoClient(form))
  {
  }

  lemma ClientRefusal(sts: Sts, env: Env, form: Form.TokenForm, dpop: seq<string>, at: Times)
    requires AuthenticateClient(sts, env, form, ModeOf(sts, form), at.client).Err?
    ensures Explains(sts, env, form, dpop, at, AuthenticateClient(sts, env, form, ModeOf(sts, form), at.client).error)
  {
    ClientGate(sts, env, form, ModeOf(sts, form), at.client);
    if VerifyClient(sts, env, form, at.client).Err? {
      VerifyClientRefusal(sts, env, form, at.client);
    }
    PresentRefusal(sts, form, ModeOf(sts, form), VerifyClient(sts, env, form, at.client));
  }

  lemma ProofRefusal(sts: Sts, env: Env, form: Form.TokenForm, dpop: seq<string>, at: Times)
    requires ValidateDpop(sts, env, dpop, at.dpop).Err?
    ensures Explains(sts, env, form, dpop, at, ValidateDpop(sts, env, dpop, at.dpop).error)
  {
    ProofGate(sts, env, dpop, at.dpop);
  }

  lemma ScopeRefusal(sts: Sts, form: Form.TokenForm, subject: SubjectClaims, policy: TargetPolicy)
    requires ResolveScope(sts, form, subject, policy).Err?
    ensures var e := ResolveScope(sts, form, subject, policy).error;
      if MalformedScope(subject.scp) then e == BadRequest else e == BadScope && !ScopeRemains(sts, form, subject, policy)
  {
    SubjectScopeMeaning(subject);
    ScopeExactlyWhen(sts, form, subject, policy);
  }

  lemma SubjectRefusal(sts: Sts, env: Env, form: Form.TokenForm, dpop: seq<string>, at: Times, client: Option<AssertionClaims>, binding: Option<Binding>)
    requires AdmitSubject(sts, env, form, at.subject, client, binding).Err?
    ensures Explains(sts, env, form, dpop, at, AdmitSubject(sts, env, form, at.subject, client, binding).error)
  {
    var j, target := SubjectOf(env, form), TargetOf(form);
    if j.Some? {
      SubjectExactlyWhen(sts, j.value, at.subject);
      if target.Some? && target.value in sts.targets && ResolveScope(sts, form, j.value.claims, sts.targets[target.value]).Err? {
        ScopeRefusal(sts, form, j.value.claims, sts.targets[target.value]);
      }
    }
  }

  lemma ActorRefusal(sts: Sts, env: Env, x: VerifiedExchange, actor: AssertionClaims)
    requires x.target in sts.targets && PrepareActor(sts, env, x, actor).Err?
    ensures match PrepareActor(sts, env, x, actor).error
      case BadClient => !(actor.sub in sts.actorIds && actor.iss == actor.sub && actor.jti.Some? && !Blank(actor.jti.value))
      case BadRequest => !ActorAllowed(x.subject, actor)
      case BadTarget => !SigningAllowed(sts, sts.targets[x.target])
      case _ => false
  {
    SigningGate(sts, sts.targets[x.target]);
    if actor.iss == actor.sub {
      MayActExactlyWhen(x.subject, actor);
    }
  }

  lemma DelegationRefusal(sts: Sts, env: Env, form: Form.TokenForm, dpop: seq<string>, at: Times, x: VerifiedExchange)
    requires Admitted(sts, env, form, at.subject, x) && x.client == ClaimsOf(env, form.Get(Form.ClientAssertion)) && ModeOf(sts, form).Delegation?
    requires PrepareDelegation(sts, env, x, at.actor).Err?
    ensures Explains(sts, env, form, dpop, at, PrepareDelegation(sts, env, x, at.actor).error)
  {
    var token := form.Get(Form.ActorToken);
    if token.Some? && env.assertion(token.value).Some? {
      var j := env.assertion(token.value).value;
      AssertionExactlyWhen(sts, j, sts.actorJwks, SubjectBinding(sts, env, form), at.actor);
      if PrepareActor(sts, env, x, j.claims).Err? {
        ActorRefusal(sts, env, x, j.claims);
      }
    }
  }

  lemma PolicyRefusal(sts: Sts, env: Env, x: VerifiedExchange)
    requires x.target in sts.targets && x.form.Get(Form.ActorToken).None? && x.client.Some? && PrepareImpersonation(sts, env, x).Err?
    ensures var id := x.client.value.sub;
      match PrepareImpersonation(sts, env, x).error
      case BadRequest => id in sts.impersonation ==> !Holds(sts.impersonation[id].subjects, x.subjectSub)
      case BadTarget =>
        || !SigningAllowed(sts, sts.targets[x.target])
        || (id in sts.impersonation && !Holds(sts.impersonation[id].targets, x.target))
      case _ => false
  {
    SigningGate(sts, sts.targets[x.target]);
  }

  lemma ClientIsThere(sts: Sts, env: Env, form: Form.TokenForm, now: int)
    requires ClientInOrder(sts, env, form, Impersonation, now)
    ensures form.Get(Form.ActorToken).None? && ClaimsOf(env, form.Get(Form.ClientAssertion)).Some?
  {
  }

  lemma ImpersonationRefusal(sts: Sts, env: Env, form: Form.TokenForm, dpop: seq<string>, at: Times, x: VerifiedExchange)
    requires Admitted(sts, env, form, at.subject, x) && x.client == ClaimsOf(env, form.Get(Form.ClientAssertion)) && x.client.Some?
    requires ModeOf(sts, form).Impersonation? && form.Get(Form.ActorToken).None?
    requires PrepareImpersonation(sts, env, x).Err?
    ensures Explains(sts, env, form, dpop, at, PrepareImpersonation(sts, env, x).error)
  {
    PolicyRefusal(sts, env, x);
  }

  lemma AdmitRefusal(sts: Sts, env: Env, form: Form.TokenForm, dpop: seq<string>, at: Times)
    requires AdmitForm(sts, env, form, dpop, at).Err?
    ensures Explains(sts, env, form, dpop, at, AdmitForm(sts, env, form, dpop, at).error)
  {
    var client, binding := AuthenticateClient(sts, env, form, ModeOf(sts, form), at.client), ValidateDpop(sts, env, dpop, at.dpop);
    if client.Err? {
      ClientRefusal(sts, env, form, dpop, at);
    } else if binding.Err? {
      ProofRefusal(sts, env, form, dpop, at);
    } else {
      SubjectRefusal(sts, env, form, dpop, at, client.value, binding.value);
    }
  }

  lemma FormRefusal(sts: Sts, env: Env, form: Form.TokenForm, dpop: seq<string>, at: Times)
    requires PrepareForm(sts, env, form, dpop, at).Err?
    ensures Explains(sts, env, form, dpop, at, PrepareForm(sts, env, form, dpop, at).error)
  {
    if AdmitForm(sts, env, form, dpop, at).Err? {
      AdmitRefusal(sts, env, form, dpop, at);
    } else {
      AdmittedForm(sts, env, form, dpop, at);
      ClientGate(sts, env, form, ModeOf(sts, form), at.client);
      var (mode, x) := AdmitForm(sts, env, form, dpop, at).value;
      if mode.Delegation? {
        DelegationRefusal(sts, env, form, dpop, at, x);
      } else {
        ClientIsThere(sts, env, form, at.client);
        ImpersonationRefusal(sts, env, form, dpop, at, x);
      }
    }
  }

  // ---------------------------------------------------------------- requests and recording

  /** What is wrong with a request that did not get as far as recording. */
  ghost predicate RequestExplains(sts: Sts, env: Env, req: HttpRequest, at: Times, e: HttpError) {
    || (e == BadRequest && !req.formEncoded)
    || (e == BadAuthorization && req.hasAuthorization)
    || (e == BadTarget && exists key :: Form.IsTarget(key) && Form.Repeats(multiset(req.items), key))
    || (e == BadRequest && exists key :: !Form.IsTarget(key) && Form.Repeats(multiset(req.items), key))
    || (Form.Parse(req.items).Ok? &&
          var form := Form.Parse(req.items).value;
          || (e == BadGrantType && form.Get(Form.GrantType).Some? && form.Get(Form.GrantType) != Some(GRANT_TYPE))
          || (e == BadRequest && !ParamsInOrder(form, sts.maxTokenLen))
          || Explains(sts, env, form, req.dpop, at, e))
  }

  lemma ParseRefusal(items: seq<Form.Item>)
    requires Form.Parse(items).Err?
    ensures exists key :: Form.Repeats(multiset(items), key) && (Form.IsTarget(key) <==> Form.Parse(items).error.InvalidTarget?)
  {
    Form.ParseMeaning(items);
  }

  lemma ParamRefusal(form: Form.TokenForm, max: nat)
    requires ParamError(form, max).Some?
    ensures !ParamsInOrder(form, max)
    ensures ParamError(form, max) == Some(BadRequest)
      || (ParamError(form, max) == Some(BadGrantType) && form.Get(Form.GrantType).Some? && form.Get(Form.GrantType) != Some(GRANT_TYPE))
  {
    ParamGate(form, max);
  }

  /** Every error of the gates names something that the request fails, and none of them is an unavailable store. */
  lemma RefusalIsExplained(sts: Sts, env: Env, req: HttpRequest, at: Times)
    requires Prepare(sts, env, req, at).Err?
    ensures RequestExplains(sts, env, req, at, Prepare(sts, env, req, at).error)
    ensures Prepare(sts, env, req, at).error != Unavailable
  {
    if req.formEncoded && !req.hasAuthorization {
      if Form.Parse(req.items).Err? {
        ParseRefusal(req.items);
      } else {
        var form := Form.Parse(req.items).value;
        if ParamError(form, sts.maxTokenLen).Some? {
          ParamRefusal(form, sts.maxTokenLen);
        } else {
          FormRefusal(sts, env, form, req.dpop, at);
        }
      }
    }
  }

  /** A credential that could not be recorded, and what that is reported as. */
  ghost predicate Unrecordable(kind: Kind, lim: Limits, s: Store, c: Credential, now: int, e: HttpError) {
    match Check(kind, lim, s, c.key, c.exp, now).1
    case Accepted => false
    case Full => e == Unavailable && |Purge(s.entries, now)| >= lim.maxSeen
    case Replay => c.key in s.entries && e == (if c.kind.ActorAssertion? then BadRequest else if c.kind.ClientAssertion? then BadClient else BadProof)
    case Invalid => Blank(c.key)
  }

  /** Recording stops at the first credential that the store refuses: a full store is unavailable, a held key a replay. */
  lemma {:induction false} RecordingRefusal(kind: Kind, lim: Limits, s: Store, creds: seq<Credential>, now: int) returns (i: nat)
    requires RecordAll(kind, lim, s, creds, now).1.Some?
    ensures i < |creds| && RecordAll(kind, lim, s, creds[..i], now).1.None?
    ensures Unrecordable(kind, lim, RecordAll(kind, lim, s, creds[..i], now).0, creds[i], now, RecordAll(kind, lim, s, creds, now).1.value)
    decreases |creds|
  {
    var (t, v) := Check(kind, lim, s, creds[0].key, creds[0].exp, now);
    SweepMeaning(lim, s, now);
    if v.Accepted? {
      var j := RecordingRefusal(kind, lim, t, creds[1..], now);
      i := j + 1;
      assert creds[..i][0] == creds[0] && creds[..i][1..] == creds[1..][..j];
    } else {
      i := 0;
      assert creds[..0] == [];
    }
  }
}
