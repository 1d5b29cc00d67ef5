/** Which registered identity a key id belongs to. */
module KeyOwnership {

  predicate PrefixMatch(kid: string, identity: string) {
    || kid == identity
    || (identity <= kid && |identity| < |kid| && kid[|identity|] in {'-', '/', '.'})
  }

  predicate Belongs(kid: string, claimed: string, registry: set<string>) {
    && kid != "" && claimed != ""
    && PrefixMatch(kid, claimed)
    && !exists other :: other in registry && other != claimed && |other| > |claimed| && PrefixMatch(kid, other)
  }

  /** Two prefixes of one key id with the same length are the same identity. */
  lemma PrefixesOfOneKid(kid: string, a: string, b: string)
    requires PrefixMatch(kid, a) && PrefixMatch(kid, b) && |a| == |b|
    ensures a == b
  {
    assert a == kid[..|a|] && b == kid[..|b|];
  }

  /** At most one registered identity owns a key id, and it is the longest registered one that matches. */
  lemma OwnerIsTheLongestMatch(kid: string, owner: string, other: string, registry: set<string>)
    requires owner in registry && other in registry
    requires Belongs(kid, owner, registry) && PrefixMatch(kid, other)
    ensures other == owner || |other| < |owner|
    ensures Belongs(kid, other, registry) ==> other == owner
  {
    if |other| == |owner| {
      PrefixesOfOneKid(kid, owner, other);
    }
  }

  lemma {:induction false} LongestMatchExists(kid: string, candidates: set<string>) returns (longest: string)
    requires candidates != {}
    ensures longest in candidates
    ensures forall other :: other in candidates ==> |other| <= |longest|
    decreases |candidates|
  {
    longest :| longest in candidates;
    var rest := candidates - {longest};
    if rest != {} {
      var second := LongestMatchExists(kid, rest);
      if |second| > |longest| {
        longest := second;
      }
    }
  }

  /** A key id has an owner exactly when some registered identity matches it. */
  lemma OwnerExistsExactlyWhenMatched(kid: string, registry: set<string>)
    requires "" !in registry
    ensures (exists owner :: owner in registry && Belongs(kid, owner, registry))
      <==> (exists identity :: identity in registry && PrefixMatch(kid, identity))
  {
    if identity :| identity in registry && PrefixMatch(kid, identity) {
      var candidates := set i | i in registry && PrefixMatch(kid, i);
      assert identity in candidates;
      var owner := LongestMatchExists(kid, candidates);
      assert Belongs(kid, owner, registry);
    }
  }

  /** One key id never authenticates two identities. */
  lemma OwnerIsUnique(kid: string, a: string, b: string, registry: set<string>)
    requires a in registry && b in registry
    requires Belongs(kid, a, registry) && Belongs(kid, b, registry)
    ensures a == b
  {
    OwnerIsTheLongestMatch(kid, a, b, registry);
  }
}
