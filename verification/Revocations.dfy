/** The revocation list that introspection consults. Its keys are digests of tokens; the digest is taken as injective. */
module Revocations {
  import opened ReplayStore

  /** The list after a revocation, and whether it was accepted: a full list turns away a token it does not hold. */
  function Enlist(list: Entries, token: string, exp: int, now: int, maxSeen: nat): (Entries, bool) {
    var live := Purge(list, now);
    if token !in live && |live| >= maxSeen then (live, false) else (live[token := exp], true)
  }

  /** The list after a lookup, and whether the token stands in it. */
  function Look(list: Entries, token: string, now: int): (Entries, bool) {
    var live := Purge(list, now);
    (live, token in live)
  }

  class RevocationState {
    var revoked: Entries

    constructor ()
      ensures revoked == map[]
    {
      revoked := map[];
    }

    method Revoke(token: string, exp: int, now: int, maxSeen: nat) returns (ok: bool)
      modifies this
      ensures (revoked, ok) == Enlist(old(revoked), token, exp, now, maxSeen)
    {
      revoked := Purge(revoked, now);
      if token !in revoked && |revoked| >= maxSeen {
        return false;
      }
      revoked := revoked[token := exp];
      return true;
    }

    method IsRevoked(token: string, now: int) returns (found: bool)
      modifies this
      ensures (revoked, found) == Look(old(revoked), token, now)
    {
      revoked := Purge(revoked, now);
      return token in revoked;
    }
  }

  /** The list keeps what has not expired, adds at most the revoked token, and stays within its bound. */
  lemma EnlistMeaning(list: Entries, token: string, exp: int, now: int, maxSeen: nat)
    ensures var (after, ok) := Enlist(list, token, exp, now, maxSeen);
      && (ok ==> token in after && after[token] == exp)
      && (!ok ==> token !in after && |Purge(list, now)| >= maxSeen)
      && (forall t :: t in list && list[t] >= now ==> t in after)
      && (forall t :: t in after && t != token ==> t in list && after[t] == list[t])
      && (|list| <= maxSeen ==> |after| <= maxSeen)
  {
    PurgeIsSmaller(list, now);
    var live := Purge(list, now);
    assert live[token := exp].Keys == live.Keys + {token};
    assert |live[token := exp]| == |live[token := exp].Keys| && |live| == |live.Keys|;
  }
}
