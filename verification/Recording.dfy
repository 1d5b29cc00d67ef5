/** Recording the credentials of one exchange, on either store: what it leaves behind and exactly when it succeeds. */
module Recording {
  import opened Prelude
  import opened Text
  import opened ReplayStore
  import opened Exchange

  function RecordError(kind: CredentialKind, v: Verdict): HttpError {
    if v.Full? then Unavailable
    else match kind
      case ActorAssertion => BadRequest
      case ClientAssertion => BadClient
      case Proof => BadProof
  }

  /** The credentials are recorded one after the other, under one clock reading, until one is refused. */
  function RecordAll(kind: Kind, lim: Limits, s: Store, creds: seq<Credential>, now: int): (Store, Option<HttpError>)
    decreases |creds|
  {
    if creds == [] then (s, None)
    else
      var (t, v) := Check(kind, lim, s, creds[0].key, creds[0].exp, now);
      if v.Accepted? then RecordAll(kind, lim, t, creds[1..], now) else (t, Some(RecordError(creds[0].kind, v)))
  }

  method RecordCredentials(policy: ReplayPolicy, creds: seq<Credential>, now: int) returns (refused: Option<HttpError>)
    modifies policy.Repr()
    ensures (policy.View(), refused) == RecordAll(policy.StoreKind(), policy.StoreLimits(), old(policy.View()), creds, now)
  {
    ghost var kind, lim := policy.StoreKind(), policy.StoreLimits();
    for i := 0 to |creds|
      invariant RecordAll(kind, lim, old(policy.View()), creds, now) == RecordAll(kind, lim, policy.View(), creds[i..], now)
    {
      var v := policy.CheckAndRecord(creds[i].key, creds[i].exp, now);
      assert creds[i..][1..] == creds[i + 1..];
      if !v.Accepted? {
        return Some(RecordError(creds[i].kind, v));
      }
    }
    return None;
  }

  // ---------------------------------------------------------------- what it leaves behind

  lemma CheckKeepsLive(kind: Kind, lim: Limits, s: Store, c: Credential, now: int, key: string)
    requires key in s.entries && s.entries[key] >= now
    ensures var t := Check(kind, lim, s, c.key, c.exp, now).0.entries; key in t && t[key] == s.entries[key]
  {
    SweepMeaning(lim, s, now);
  }

  lemma {:induction false} RecordingKeepsLive(kind: Kind, lim: Limits, s: Store, creds: seq<Credential>, now: int, key: string)
    requires key in s.entries && s.entries[key] >= now
    ensures var t := RecordAll(kind, lim, s, creds, now).0.entries; key in t && t[key] == s.entries[key]
    decreases |creds|
  {
    if creds != [] {
      CheckKeepsLive(kind, lim, s, creds[0], now, key);
      var (t, v) := Check(kind, lim, s, creds[0].key, creds[0].exp, now);
      if v.Accepted? {
        RecordingKeepsLive(kind, lim, t, creds[1..], now, key);
      }
    }
  }

  /** After a successful exchange every presented credential that has not expired is on record. */
  lemma {:induction false} SuccessRecordsAll(kind: Kind, lim: Limits, s: Store, creds: seq<Credential>, now: int, i: nat)
    requires RecordAll(kind, lim, s, creds, now).1.None? && i < |creds| && creds[i].exp >= now
    ensures var t := RecordAll(kind, lim, s, creds, now).0.entries; creds[i].key in t && t[creds[i].key] == creds[i].exp
    decreases i
  {
    var (t, v) := Check(kind, lim, s, creds[0].key, creds[0].exp, now);
    if i == 0 {
      RecordingKeepsLive(kind, lim, t, creds[1..], now, creds[0].key);
    } else {
      SuccessRecordsAll(kind, lim, t, creds[1..], now, i - 1);
    }
  }

  // ---------------------------------------------------------------- exactly when it succeeds

  /** Keys that a store takes, no two of them the same. */
  ghost predicate Usable(creds: seq<Credential>) {
    && (forall i :: 0 <= i < |creds| ==> !Blank(creds[i].key))
    && (forall i, j :: 0 <= i < j < |creds| ==> creds[i].key != creds[j].key)
  }

  /** How many of the credentials take up room once they are recorded. */
  ghost function LiveCount(creds: seq<Credential>, now: int): nat {
    if creds == [] then 0 else (if creds[0].exp >= now then 1 else 0) + LiveCount(creds[1..], now)
  }

  /** All but the last of the credentials leave room for one more. */
  ghost predicate RoomForAll(lim: Limits, live: nat, creds: seq<Credential>, now: int) {
    creds != [] ==> live + LiveCount(creds[..|creds| - 1], now) < lim.maxSeen
  }

  /**
   * The key of the i-th credential is not held: it has no live entry and, in memory, no expired one either, unless one of
   * the i calls before it has swept, because the counter ran out or because the map was full.
   */
  ghost predicate NotHeld(kind: Kind, lim: Limits, s: Store, key: string, now: int, i: nat) {
    && key !in Purge(s.entries, now)
    && (kind.InMemory? && key in s.entries ==> i > 0 && (s.calls + i >= lim.sweepEvery || |s.entries| + i > lim.maxSeen))
  }

  ghost predicate Storable(kind: Kind, lim: Limits, s: Store, creds: seq<Credential>, now: int) {
    && RoomForAll(lim, |Purge(s.entries, now)|, creds, now)
    && forall i :: 0 <= i < |creds| ==> NotHeld(kind, lim, s, creds[i].key, now, i)
  }

  lemma CheckAccepts(kind: Kind, lim: Limits, s: Store, c: Credential, now: int)
    requires !Blank(c.key)
    ensures Check(kind, lim, s, c.key, c.exp, now).1.Accepted? <==>
      |Purge(s.entries, now)| < lim.maxSeen && NotHeld(kind, lim, s, c.key, now, 0)
  {
    SweepMeaning(lim, s, now);
    FileStepIsEager(lim, s, s.entries, Op(c.key, c.exp, now));
  }

  lemma LiveAfter(kind: Kind, lim: Limits, s: Store, c: Credential, now: int)
    requires Check(kind, lim, s, c.key, c.exp, now).1.Accepted?
    ensures var live := Purge(s.entries, now);
      Purge(Check(kind, lim, s, c.key, c.exp, now).0.entries, now) == if c.exp >= now then live[c.key := c.exp] else live
  {
    SweepMeaning(lim, s, now);
    var swept := Sweep(lim, s, now).entries;
    var before := if kind.InMemory? then swept else DropExpired(swept, c.key, now);
    DropExpiredAgrees(swept, c.key, now);
    assert Purge(before, now) == Purge(s.entries, now) && c.key !in before;
    assert Purge(before[c.key := c.exp], now) == if c.exp >= now then Purge(before, now)[c.key := c.exp] else Purge(before, now);
  }

  lemma SizeAfter(m: Entries, key: string, exp: int)
    requires key !in m
    ensures |m[key := exp]| == |m| + 1
  {
    assert m[key := exp].Keys == m.Keys + {key};
    assert |m[key := exp]| == |m[key := exp].Keys| && |m| == |m.Keys|;
  }

  /** What the first call leaves of the others' keys. */
  lemma NotHeldAfter(kind: Kind, lim: Limits, s: Store, c: Credential, now: int, key: string, i: nat)
    requires Check(kind, lim, s, c.key, c.exp, now).1.Accepted? && key != c.key
    ensures NotHeld(kind, lim, Check(kind, lim, s, c.key, c.exp, now).0, key, now, i) <==> NotHeld(kind, lim, s, key, now, i + 1)
  {
    LiveAfter(kind, lim, s, c, now);
    if kind.InMemory? {
      SizeAfter(Sweep(lim, s, now).entries, c.key, c.exp);
    }
  }

  /** Recording goes through exactly when no key is held and there is room for all. */
  lemma {:induction false} RecordsAllExactlyWhen(kind: Kind, lim: Limits, s: Store, creds: seq<Credential>, now: int)
    requires Usable(creds)
    ensures RecordAll(kind, lim, s, creds, now).1.None? <==> Storable(kind, lim, s, creds, now)
    decreases |creds|
  {
    if creds != [] {
      CheckAccepts(kind, lim, s, creds[0], now);
      if Check(kind, lim, s, creds[0].key, creds[0].exp, now).1.Accepted? {
        var t := Check(kind, lim, s, creds[0].key, creds[0].exp, now).0;
        RecordsAllExactlyWhen(kind, lim, t, creds[1..], now);
        StorableAfter(kind, lim, s, creds, now);
      }
    }
  }

  lemma RoomAfter(lim: Limits, live: nat, creds: seq<Credential>, now: int)
    requires creds != [] && live < lim.maxSeen
    ensures RoomForAll(lim, live, creds, now) <==>
      RoomForAll(lim, live + (if creds[0].exp >= now then 1 else 0), creds[1..], now)
  {
    if |creds| > 1 {
      var front := creds[..|creds| - 1];
      assert front[1..] == creds[1..][..|creds| - 2];
    } else {
      assert creds[..0] == [];
    }
  }

  lemma StorableAfter(kind: Kind, lim: Limits, s: Store, creds: seq<Credential>, now: int)
    requires Usable(creds) && creds != [] && Check(kind, lim, s, creds[0].key, creds[0].exp, now).1.Accepted?
    ensures Storable(kind, lim, s, creds, now) <==>
      Storable(kind, lim, Check(kind, lim, s, creds[0].key, creds[0].exp, now).0, creds[1..], now)
  {
    var c, t := creds[0], Check(kind, lim, s, creds[0].key, creds[0].exp, now).0;
    CheckAccepts(kind, lim, s, c, now);
    LiveAfter(kind, lim, s, c, now);
    SizeAfter(Purge(s.entries, now), c.key, c.exp);
    RoomAfter(lim, |Purge(s.entries, now)|, creds, now);
    forall i | 0 <= i < |creds| - 1
      ensures NotHeld(kind, lim, t, creds[1..][i].key, now, i) <==> NotHeld(kind, lim, s, creds[i + 1].key, now, i + 1)
    {
      NotHeldAfter(kind, lim, s, c, now, creds[i + 1].key, i);
    }
    KeysShift(kind, lim, s, t, creds, now);
  }

  lemma KeysShift(kind: Kind, lim: Limits, s: Store, t: Store, creds: seq<Credential>, now: int)
    requires creds != [] && NotHeld(kind, lim, s, creds[0].key, now, 0)
    requires forall i :: 0 <= i < |creds| - 1 ==>
      (NotHeld(kind, lim, t, creds[1..][i].key, now, i) <==> NotHeld(kind, lim, s, creds[i + 1].key, now, i + 1))
    ensures (forall i :: 0 <= i < |creds| ==> NotHeld(kind, lim, s, creds[i].key, now, i)) <==>
      (forall i :: 0 <= i < |creds[1..]| ==> NotHeld(kind, lim, t, creds[1..][i].key, now, i))
  {
    if forall i :: 0 <= i < |creds[1..]| ==> NotHeld(kind, lim, t, creds[1..][i].key, now, i) {
      forall i | 0 <= i < |creds|
        ensures NotHeld(kind, lim, s, creds[i].key, now, i)
      {
        if i > 0 {
          assert NotHeld(kind, lim, t, creds[1..][i - 1].key, now, i - 1);
        }
      }
    }
  }
}
