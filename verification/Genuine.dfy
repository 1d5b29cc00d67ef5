/** What makes a token genuine, said of the token, the configured keys and the clock alone. */
module Genuine {
  import opened Prelude
  import opened Text
  import opened ActorChain
  import opened KeyOwnership
  import opened Jwks
  import opened Exchange

  // ---------------------------------------------------------------- signatures

  /** The signature was made with the first key that the set lists under the token's key id, a key for its algorithm. */
  ghost predicate SignedUnder<C>(j: Jws<C>, keys: seq<Jwk>) {
    exists i :: 0 <= i < |keys| && SignedWith(j, keys[i]) && forall h :: 0 <= h < i ==> keys[h].kid != keys[i].kid
  }

  ghost predicate SignedWith<C>(j: Jws<C>, k: Jwk) {
    j.kid == Some(k.kid) && j.alg == k.alg && j.signer == k.key
  }

  ghost predicate IsMlDsa(alg: string) {
    alg in {"ML-DSA-44", "ML-DSA-65", "ML-DSA-87"}
  }

  ghost predicate Supported(alg: string) {
    alg == "RS256" || IsMlDsa(alg)
  }

  lemma PqcIsMlDsa(alg: string)
    ensures IsPqc(alg) <==> IsMlDsa(alg)
  {
  }

  /** The key is in the list, and no key before it has its id. */
  ghost predicate ListedFirst(keys: seq<Jwk>, k: Jwk) {
    exists i :: 0 <= i < |keys| && keys[i] == k && forall h :: 0 <= h < i ==> keys[h].kid != k.kid
  }

  lemma {:induction false} FindIsFirst(keys: seq<Jwk>, kid: string, k: Jwk)
    ensures Find(keys, kid) == Some(k) <==> k.kid == kid && ListedFirst(keys, k)
  {
    if keys != [] {
      FindIsFirst(keys[1..], kid, k);
      if keys[0].kid == kid {
        if ListedFirst(keys, k) && k.kid == kid {
          var i :| 0 <= i < |keys| && keys[i] == k && forall h :: 0 <= h < i ==> keys[h].kid != k.kid;
          assert i == 0;
        }
      } else {
        if ListedFirst(keys[1..], k) {
          var i :| 0 <= i < |keys[1..]| && keys[1..][i] == k && forall h :: 0 <= h < i ==> keys[1..][h].kid != k.kid;
          if k.kid == kid {
            assert forall h :: 0 <= h < i + 1 ==> keys[h].kid != k.kid by {
              assert forall h :: 0 < h < i + 1 ==> keys[h] == keys[1..][h - 1];
            }
            assert keys[i + 1] == k;
          }
        }
        if ListedFirst(keys, k) && k.kid == kid {
          var i :| 0 <= i < |keys| && keys[i] == k && forall h :: 0 <= h < i ==> keys[h].kid != k.kid;
          assert keys[1..][i - 1] == k && forall h :: 0 <= h < i - 1 ==> keys[1..][h].kid != k.kid by {
            assert forall h :: 0 <= h < i - 1 ==> keys[1..][h] == keys[h + 1];
          }
        }
      }
    }
  }

  /** `Verifies` accepts exactly signatures under the key set, with a supported algorithm that is allowed. */
  lemma VerifiesExactlyWhen<C>(j: Jws<C>, keys: seq<Jwk>, allowed: Option<seq<string>>)
    ensures Verifies(j, keys, allowed) <==>
      SignedUnder(j, keys) && Supported(j.alg) && (allowed.Some? ==> j.alg in allowed.value)
  {
    PqcIsMlDsa(j.alg);
    if SignedUnder(j, keys) {
      var i :| 0 <= i < |keys| && SignedWith(j, keys[i]) && forall h :: 0 <= h < i ==> keys[h].kid != keys[i].kid;
      assert ListedFirst(keys, keys[i]);
      FindIsFirst(keys, keys[i].kid, keys[i]);
    }
    if Verifies(j, keys, allowed) {
      var k := Find(keys, j.kid.value).value;
      FindIsFirst(keys, k.kid, k);
      var i :| 0 <= i < |keys| && keys[i] == k && forall h :: 0 <= h < i ==> keys[h].kid != k.kid;
      assert SignedWith(j, keys[i]);
    }
  }

  // ---------------------------------------------------------------- addressees and owners

  /** The audience is one of the names, or a list that holds one of them. */
  ghost predicate AddressedTo(aud: Json, names: seq<string>) {
    exists s :: s in names && (aud == Str(s) || (aud.Arr? && Str(s) in aud.items))
  }

  lemma AudienceExactlyWhen(aud: Json, names: seq<string>)
    ensures AnyAudience(aud, names) <==> AddressedTo(aud, names)
  {
    if s :| s in names && (aud == Str(s) || (aud.Arr? && Str(s) in aud.items)) {
      var i :| 0 <= i < |names| && names[i] == s;
      assert AudienceMatches(aud, names[i]);
    }
  }

  /** The key id is the identity, or goes on from it after a separator. */
  ghost predicate GoesOnFrom(kid: string, id: string) {
    kid == id || exists rest :: rest != "" && rest[0] in {'-', '/', '.'} && kid == id + rest
  }

  /** The identity is the longest registered one that the key id goes on from. */
  ghost predicate OwnsKid(kid: string, id: string, registry: set<string>) {
    id != "" && GoesOnFrom(kid, id) && forall other :: other in registry && GoesOnFrom(kid, other) ==> |other| <= |id|
  }

  lemma PrefixMatchExactlyWhen(kid: string, id: string)
    ensures PrefixMatch(kid, id) <==> GoesOnFrom(kid, id)
  {
    if PrefixMatch(kid, id) && kid != id {
      assert kid == id + kid[|id|..];
    }
  }

  lemma BelongsExactlyWhen(kid: string, id: string, registry: set<string>)
    ensures Belongs(kid, id, registry) <==> OwnsKid(kid, id, registry)
  {
    PrefixMatchExactlyWhen(kid, id);
    forall other
      ensures PrefixMatch(kid, other) <==> GoesOnFrom(kid, other)
    {
      PrefixMatchExactlyWhen(kid, other);
    }
  }

  // ---------------------------------------------------------------- subject tokens and assertions

  /** Signed by the identity provider, issued by it, addressed to this server, and within its time window. */
  ghost predicate SubjectGenuine(sts: Sts, j: Jws<SubjectClaims>, now: int) {
    && SignedUnder(j, sts.subjectJwks) && j.alg == "RS256"
    && j.claims.iss == sts.idpIssuer && AddressedTo(j.claims.aud, sts.subjectAudiences)
    && now <= j.claims.exp + sts.leeway && (j.claims.nbf.Some? ==> j.claims.nbf.value <= now + sts.leeway)
  }

  /**
   * Signed under the key set with an allowed algorithm by the identity that owns the key, issued by its own subject,
   * addressed to this server, not expired, not too long-lived, and bound to the subject token where that is asked for.
   */
  ghost predicate AssertionGenuine(sts: Sts, j: Jws<AssertionClaims>, keys: seq<Jwk>, binding: Option<string>, now: int) {
    var c := j.claims;
    && SignedUnder(j, keys) && Supported(j.alg) && j.alg in sts.inboundAlgs
    && OwnsKid(j.kid.value, c.sub, sts.actorIds + sts.clientIds)
    && c.iss == c.sub && AddressedTo(c.aud, [sts.issuer, sts.tokenEndpoint])
    && now <= c.exp + sts.leeway
    && c.exp <= (if c.iat.Some? then c.iat.value else now) + sts.assertionMaxTtl + sts.leeway
    && (binding.Some? ==> binding.value == if c.subTokHash.Some? then c.subTokHash.value else "")
  }

  lemma SubjectExactlyWhen(sts: Sts, j: Jws<SubjectClaims>, now: int)
    ensures SubjectChecks(sts, j, now) <==> SubjectGenuine(sts, j, now)
  {
    VerifiesExactlyWhen(j, sts.subjectJwks, Some(["RS256"]));
    AudienceExactlyWhen(j.claims.aud, sts.subjectAudiences);
  }

  lemma AssertionExactlyWhen(sts: Sts, j: Jws<AssertionClaims>, keys: seq<Jwk>, binding: Option<string>, now: int)
    ensures AssertionChecks(sts, j, keys, binding, now) <==> AssertionGenuine(sts, j, keys, binding, now)
  {
    VerifiesExactlyWhen(j, keys, Some(sts.inboundAlgs));
    AudienceExactlyWhen(j.claims.aud, [sts.issuer, sts.tokenEndpoint]);
    if j.kid.Some? {
      BelongsExactlyWhen(j.kid.value, j.claims.sub, sts.actorIds + sts.clientIds);
    }
  }

  // ---------------------------------------------------------------- the server's own tokens

  /** An access token for one of the server's targets, signed with the server's key or one it still publishes. */
  ghost predicate Ours(sts: Sts, t: Jws<MintedClaims>) {
    && SignedUnder(t, [sts.signer] + sts.extraKeys) && Supported(t.alg) && t.typ == Some("at+jwt")
    && t.claims.iss == sts.issuer && t.claims.aud in sts.targets
    && !Blank(t.claims.sub) && !Blank(t.claims.clientId) && !Blank(t.claims.scope)
  }

  lemma PublishedFirst(active: Jwk, extra: seq<Jwk>, kid: string)
    ensures Find(Publish(active, extra), kid) == Find([active] + extra, kid)
  {
    PublishedLookup(active, extra, kid);
    assert ([active] + extra)[1..] == extra;
  }

  /** Introspection takes for active exactly the server's own tokens, from `iat` less the leeway up to `exp`. */
  lemma ActiveExactlyWhen(sts: Sts, t: Jws<MintedClaims>, n: int)
    ensures ActiveAt(sts, t, n) <==> Ours(sts, t) && t.claims.iat - sts.leeway <= n < t.claims.exp
  {
    VerifiesExactlyWhen(t, [sts.signer] + sts.extraKeys, None);
    if t.kid.Some? {
      PublishedFirst(sts.signer, sts.extraKeys, t.kid.value);
    }
  }
}
