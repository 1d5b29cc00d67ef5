/** Key sets: looking a key up by its id, and the set that a server publishes. */
module Jwks {
  import opened Prelude

  /** `key` stands for the key material; signing is ideal, so only the same material verifies. */
  datatype Jwk = Jwk(kid: string, alg: string, key: nat)

  /** `keys.iter().find(|key| key.kid == kid)` */
  function Find(keys: seq<Jwk>, kid: string): (r: Option<Jwk>)
    ensures r.Some? ==> r.value in keys && r.value.kid == kid
    ensures r.None? ==> forall k :: k in keys ==> k.kid != kid
  {
    if keys == [] then None else if keys[0].kid == kid then Some(keys[0]) else Find(keys[1..], kid)
  }

  predicate Names(keys: seq<Jwk>, kid: string) {
    exists i :: 0 <= i < |keys| && keys[i].kid == kid
  }

  /** `published_jwks`: the signer's own key, then the extra keys whose ids are still free. */
  method PublishedJwks(active: Jwk, extra: seq<Jwk>) returns (published: seq<Jwk>)
    ensures published == Publish(active, extra)
  {
    published := [active];
    for i := 0 to |extra|
      invariant published == Publish(active, extra[..i])
    {
      assert extra[..i + 1][..i] == extra[..i];
      if !Names(published, extra[i].kid) {
        published := published + [extra[i]];
      }
    }
    assert extra[..|extra|] == extra;
  }

  function Publish(active: Jwk, extra: seq<Jwk>): seq<Jwk> {
    if extra == [] then [active]
    else
      var before, last := Publish(active, extra[..|extra| - 1]), extra[|extra| - 1];
      if Names(before, last.kid) then before else before + [last]
  }

  lemma {:induction false} FindAppended(keys: seq<Jwk>, last: Jwk, kid: string)
    ensures Find(keys + [last], kid) ==
      if Find(keys, kid).Some? then Find(keys, kid) else if last.kid == kid then Some(last) else None
  {
    if keys == [] {
      assert keys + [last] == [last] && [last][1..] == [];
    } else {
      assert (keys + [last])[1..] == keys[1..] + [last];
      FindAppended(keys[1..], last, kid);
    }
  }

  /** A lookup in the published set finds the signer's key first, and otherwise what the extra keys say. */
  lemma {:induction false} PublishedLookup(active: Jwk, extra: seq<Jwk>, kid: string)
    ensures Find(Publish(active, extra), kid) == if active.kid == kid then Some(active) else Find(extra, kid)
  {
    if extra == [] {
      assert [active][1..] == [];
    } else {
      var rest, last := extra[..|extra| - 1], extra[|extra| - 1];
      PublishedLookup(active, rest, kid);
      assert extra == rest + [last];
      FindAppended(rest, last, kid);
      FindAppended(Publish(active, rest), last, kid);
      assert Names(Publish(active, rest), kid) <==> Find(Publish(active, rest), kid).Some? by {
        var r := Find(Publish(active, rest), kid);
        if r.Some? {
          var i :| 0 <= i < |Publish(active, rest)| && Publish(active, rest)[i] == r.value;
        }
      }
    }
  }

  predicate DistinctIds(keys: seq<Jwk>) {
    forall i, j :: 0 <= i < j < |keys| ==> keys[i].kid != keys[j].kid
  }

  /** No id names two published keys. */
  lemma {:induction false} PublishedIdsAreDistinct(active: Jwk, extra: seq<Jwk>)
    ensures DistinctIds(Publish(active, extra))
  {
    if extra != [] {
      var before, last := Publish(active, extra[..|extra| - 1]), extra[|extra| - 1];
      PublishedIdsAreDistinct(active, extra[..|extra| - 1]);
      if !Names(before, last.kid) {
        assert forall i :: 0 <= i < |before| ==> (before + [last])[i].kid != last.kid;
      }
    }
  }
}
