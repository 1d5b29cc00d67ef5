/** DPoP proofs: the `iat` window and how long a proof's replay entry is held. */
module Dpop {
  import opened Prelude
  import opened ReplayStore
  import opened ReplayProtocol

  const I64_MIN := -0x8000_0000_0000_0000
  const I64_MAX := 0x7fff_ffff_ffff_ffff

  type I64 = x: int | -0x8000_0000_0000_0000 <= x <= 0x7fff_ffff_ffff_ffff

  function SaturatingAdd(a: I64, b: I64): I64 {
    if a + b > I64_MAX then I64_MAX else if a + b < I64_MIN then I64_MIN else a + b
  }

  function Window(leeway: I64): I64 {
    if leeway > 0 then leeway else 0
  }

  /** `validate_iat`: `now.abs_diff(iat) <= leeway.max(0)` */
  predicate IatAccepted(iat: I64, now: I64, leeway: I64) {
    (if now >= iat then now - iat else iat - now) <= Window(leeway)
  }

  /** The check in plain arithmetic: `now` is no further from `iat` than the leeway, and no leeway is less than none. */
  lemma IatExactlyWhen(iat: I64, now: I64, leeway: I64)
    ensures IatAccepted(iat, now, leeway) <==> now == iat || iat - leeway <= now <= iat + leeway
  {
  }

  datatype Binding = Binding(jkt: string, jti: string, iat: I64, replayExpiresAt: I64)

  /** The tail of `validate_dpop_proof`; `iat` is `None` when the claim is missing or not a finite number. */
  function Bind(jkt: string, jti: string, iat: Option<I64>, now: I64, leeway: I64): Option<Binding> {
    if iat.None? || !IatAccepted(iat.value, now, leeway) then None
    else Some(Binding(jkt, jti, iat.value, SaturatingAdd(iat.value, Window(leeway))))
  }

  /** `dpop_replay_key` over an ideal digest. */
  function ReplayKey(digest: (string, string) -> string, b: Binding): string {
    "dpop:" + digest(b.jkt, b.jti)
  }

  /**
   * The replay entry outlives the acceptance window and no more: from `iat` on, a proof passes the `iat` check
   * exactly until its entry expires, saturation and negative leeway included.
   */
  lemma EntryCoversWindow(iat: I64, now: I64, leeway: I64)
    ensures IatAccepted(iat, now, leeway) ==> now <= SaturatingAdd(iat, Window(leeway))
    ensures now >= iat ==> (IatAccepted(iat, now, leeway) <==> now <= SaturatingAdd(iat, Window(leeway)))
  {
  }

  /** Once a proof is recorded, no later attempt made while it still passes the `iat` check is accepted. */
  lemma ProofIsSpent(lim: Limits, s: Store, ops: seq<Op>, i: nat, j: nat, iat: I64, leeway: I64)
    requires NonDecreasing(ops) && i < j < |ops|
    requires ops[j].key == ops[i].key && ops[i].exp == SaturatingAdd(iat, Window(leeway))
    requires I64_MIN <= ops[j].now <= I64_MAX && IatAccepted(iat, ops[j].now, leeway)
    ensures MemoryRun(lim, s, ops)[i].Accepted? ==> !MemoryRun(lim, s, ops)[j].Accepted?
    ensures FileRun(lim, s, ops)[i].Accepted? ==> !FileRun(lim, s, ops)[j].Accepted?
  {
    EntryCoversWindow(iat, ops[j].now, leeway);
    if MemoryRun(lim, s, ops)[i].Accepted? {
      MemorySingleUse(lim, s, ops, i, j);
    }
    if FileRun(lim, s, ops)[i].Accepted? {
      FileSingleUse(lim, s, ops, i, j);
    }
  }

  /**
   * In every interleaving: if a proof has been recorded twice, some clock reading is already outside the `iat`
   * window, so the proof could no longer be accepted at that reading.
   */
  lemma SpentProofHasLeftItsWindow(lim: Limits, s: State, key: string, iat: I64, leeway: I64, a: Id, b: Id)
    requires Reachable(lim, s) && a != b
    requires var exp := SaturatingAdd(iat, Window(leeway));
      && AcceptedFor(s, a, key, exp) && AcceptedFor(s, b, key, exp)
      && (s.backend.Files? ==> forall c :: c in s.attempts && s.attempts[c].key == key ==> s.attempts[c].exp >= exp)
    ensures exists c :: c in s.attempts && forall now: I64 :: s.attempts[c].now <= now ==> !IatAccepted(iat, now, leeway)
  {
    var exp := SaturatingAdd(iat, Window(leeway));
    if Quiet(s, key, exp) {
      AtMostOneAccepted(lim, s, key, exp, a, b);
    } else {
      var c :| c in s.attempts && s.attempts[c].now > exp;
      forall now: I64 | s.attempts[c].now <= now
        ensures !IatAccepted(iat, now, leeway)
      {
        EntryCoversWindow(iat, now, leeway);
      }
    }
  }
}
