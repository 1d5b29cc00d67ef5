/** The two replay stores of `sts-replay`, used by one caller at a time, against an eagerly purged map. */
module ReplayStore {
  import opened Text

  /** `Full` also stands for an unavailable store: both are reported as `StoreFull`. */
  datatype Verdict = Accepted | Invalid | Replay | Full

  type Entries = map<string, int>

  datatype Limits = Limits(maxSeen: nat, sweepEvery: nat)

  /** `retain(|_, exp| *exp >= now)` */
  function Purge(m: Entries, now: int): Entries {
    map k | k in m && m[k] >= now :: m[k]
  }

  // ---------------------------------------------------------------- the reference: an eagerly purged map

  function EagerCheck(maxSeen: nat, m: Entries, key: string, exp: int, now: int): (Entries, Verdict) {
    var live := Purge(m, now);
    if Blank(key) then (m, Invalid)
    else if |live| >= maxSeen then (live, Full)
    else if key in live then (live, Replay)
    else (live[key := exp], Accepted)
  }

  // ---------------------------------------------------------------- the stores as values

  /** A lazily swept store: its entries and the calls counted since the last periodic sweep. */
  datatype Store = Store(entries: Entries, calls: nat)

  /** The periodic sweep, then the sweep that only a full store triggers. */
  function Sweep(lim: Limits, s: Store, now: int): (t: Store)
    ensures t.entries == s.entries || t.entries == Purge(s.entries, now)
    ensures |t.entries| >= lim.maxSeen ==> t.entries == Purge(s.entries, now)
  {
    var due := s.calls + 1 >= lim.sweepEvery;
    var first := if due then Purge(s.entries, now) else s.entries;
    assert Purge(Purge(s.entries, now), now) == Purge(s.entries, now);
    Store(if |first| >= lim.maxSeen then Purge(first, now) else first, if due then 0 else s.calls + 1)
  }

  /** `InMemoryReplayStore::check_and_record`: the key is looked up before any sweep. */
  function MemoryCheck(lim: Limits, s: Store, key: string, exp: int, now: int): (Store, Verdict) {
    if Blank(key) then (s, Invalid)
    else if key in s.entries then (s, Replay)
    else
      var t := Sweep(lim, s, now);
      if |t.entries| >= lim.maxSeen then (t, Full) else (t.(entries := t.entries[key := exp]), Accepted)
  }

  function DropExpired(m: Entries, key: string, now: int): Entries {
    if key in m && m[key] < now then m - {key} else m
  }

  function CreateNew(m: Entries, key: string, exp: int): (Entries, Verdict) {
    if key in m then (m, Replay) else (m[key := exp], Accepted)
  }

  /** What the file store does once it has swept: drop the key's own file if it has expired, then create it anew. */
  function FileRecord(lim: Limits, swept: Entries, key: string, exp: int, now: int): (Entries, Verdict) {
    if |swept| >= lim.maxSeen then (swept, Full) else CreateNew(DropExpired(swept, key, now), key, exp)
  }

  /** `FileReplayStore::check_and_record` */
  function FileCheck(lim: Limits, s: Store, key: string, exp: int, now: int): (Store, Verdict) {
    if Blank(key) then (s, Invalid)
    else
      var t := Sweep(lim, s, now);
      var (entries, v) := FileRecord(lim, t.entries, key, exp, now);
      (t.(entries := entries), v)
  }

  // ---------------------------------------------------------------- the stores as the source has them

  class InMemoryReplayStore {
    const lim: Limits
    var seen: Entries
    var callsSinceSweep: nat

    ghost function View(): Store
      reads this
    {
      Store(seen, callsSinceSweep)
    }

    constructor (maxSeen: nat, sweepEvery: nat)
      ensures lim == Limits(maxSeen, if sweepEvery == 0 then 1 else sweepEvery)
      ensures View() == Store(map[], 0)
    {
      lim := Limits(maxSeen, if sweepEvery == 0 then 1 else sweepEvery);
      seen, callsSinceSweep := map[], 0;
    }

    method CheckAndRecord(key: string, exp: int, now: int) returns (v: Verdict)
      modifies this
      ensures (View(), v) == MemoryCheck(lim, old(View()), key, exp, now)
    {
      if Blank(key) {
        return Invalid;
      }
      if key in seen {
        return Replay;
      }
      callsSinceSweep := callsSinceSweep + 1;
      if callsSinceSweep >= lim.sweepEvery {
        seen := Purge(seen, now);
        callsSinceSweep := 0;
      }
      if |seen| >= lim.maxSeen {
        seen := Purge(seen, now);
      }
      if |seen| >= lim.maxSeen {
        return Full;
      }
      seen := seen[key := exp];
      return Accepted;
    }
  }

  /** The directory maps file names to the expiry written in the file; hashing the name is injective. */
  class FileReplayStore {
    const lim: Limits
    var dir: Entries
    var callsSinceSweep: nat

    ghost function View(): Store
      reads this
    {
      Store(dir, callsSinceSweep)
    }

    constructor (existing: Entries, maxSeen: nat, sweepEvery: nat)
      ensures lim == Limits(maxSeen, if sweepEvery == 0 then 1 else sweepEvery)
      ensures View() == Store(existing, 0)
    {
      lim := Limits(maxSeen, if sweepEvery == 0 then 1 else sweepEvery);
      dir, callsSinceSweep := existing, 0;
    }

    method SweepExpired(now: int)
      modifies this`dir
      ensures dir == Purge(old(dir), now)
    {
      var listing := dir.Keys;
      while listing != {}
        invariant listing <= old(dir).Keys
        invariant forall k :: k in dir <==> k in old(dir) && (k in listing || old(dir)[k] >= now)
        invariant forall k :: k in dir ==> dir[k] == old(dir)[k]
      {
        var path :| path in listing;
        if path in dir && dir[path] < now {
          dir := dir - {path};
        }
        listing := listing - {path};
      }
    }

    method ActiveEntryCount() returns (count: nat)
      ensures count == |dir|
    {
      count := 0;
      var listing := dir.Keys;
      while listing != {}
        invariant count + |listing| == |dir.Keys|
      {
        var path :| path in listing;
        listing := listing - {path};
        count := count + 1;
      }
    }

    method CheckAndRecord(key: string, exp: int, now: int) returns (v: Verdict)
      modifies this
      ensures (View(), v) == FileCheck(lim, old(View()), key, exp, now)
    {
      if Blank(key) {
        return Invalid;
      }
      callsSinceSweep := callsSinceSweep + 1;
      if callsSinceSweep >= lim.sweepEvery {
        SweepExpired(now);
        callsSinceSweep := 0;
      }
      var count := ActiveEntryCount();
      if count >= lim.maxSeen {
        SweepExpired(now);
      }
      count := ActiveEntryCount();
      if count >= lim.maxSeen {
        return Full;
      }
      if key in dir && dir[key] < now {
        dir := dir - {key};
      }
      if key in dir {
        return Replay;
      }
      dir := dir[key := exp];
      return Accepted;
    }
  }

  datatype Kind = InMemory | OnDisk

  function Check(kind: Kind, lim: Limits, s: Store, key: string, exp: int, now: int): (Store, Verdict) {
    if kind.InMemory? then MemoryCheck(lim, s, key, exp, now) else FileCheck(lim, s, key, exp, now)
  }

  /** The store that a process has been configured with. */
  datatype ReplayPolicy = InProcess(memory: InMemoryReplayStore) | Shared(files: FileReplayStore) {
    ghost function Repr(): set<object> {
      if InProcess? then {memory} else {files}
    }

    ghost function View(): Store
      reads Repr()
    {
      if InProcess? then memory.View() else files.View()
    }

    ghost function StoreKind(): Kind {
      if InProcess? then InMemory else OnDisk
    }

    ghost function StoreLimits(): Limits {
      if InProcess? then memory.lim else files.lim
    }

    method CheckAndRecord(key: string, exp: int, now: int) returns (v: Verdict)
      modifies Repr()
      ensures (View(), v) == Check(StoreKind(), StoreLimits(), old(View()), key, exp, now)
    {
      match this
      case InProcess(memory) => v := memory.CheckAndRecord(key, exp, now);
      case Shared(files) => v := files.CheckAndRecord(key, exp, now);
    }
  }

  // ---------------------------------------------------------------- runs

  datatype Op = Op(key: string, exp: int, now: int)

  ghost predicate NonDecreasing(ops: seq<Op>) {
    forall i, j :: 0 <= i <= j < |ops| ==> ops[i].now <= ops[j].now
  }

  function EagerRun(maxSeen: nat, m: Entries, ops: seq<Op>): (vs: seq<Verdict>)
    ensures |vs| == |ops|
    decreases |ops|
  {
    if ops == [] then []
    else
      var (m', v) := EagerCheck(maxSeen, m, ops[0].key, ops[0].exp, ops[0].now);
      [v] + EagerRun(maxSeen, m', ops[1..])
  }

  function MemoryRun(lim: Limits, s: Store, ops: seq<Op>): (vs: seq<Verdict>)
    ensures |vs| == |ops|
    decreases |ops|
  {
    if ops == [] then []
    else
      var (s', v) := MemoryCheck(lim, s, ops[0].key, ops[0].exp, ops[0].now);
      [v] + MemoryRun(lim, s', ops[1..])
  }

  function FileRun(lim: Limits, s: Store, ops: seq<Op>): (vs: seq<Verdict>)
    ensures |vs| == |ops|
    decreases |ops|
  {
    if ops == [] then []
    else
      var (s', v) := FileCheck(lim, s, ops[0].key, ops[0].exp, ops[0].now);
      [v] + FileRun(lim, s', ops[1..])
  }

  /** From time `t` on, the two maps hold the same live entries. */
  ghost predicate Agree(a: Entries, b: Entries, t: int) {
    Purge(a, t) == Purge(b, t)
  }

  lemma AgreeLater(a: Entries, b: Entries, t: int, u: int)
    requires Agree(a, b, t) && t <= u
    ensures Agree(a, b, u)
  {
    assert Purge(a, u) == Purge(Purge(a, t), u) && Purge(b, u) == Purge(Purge(b, t), u);
  }

  lemma PurgeIsSmaller(m: Entries, now: int)
    ensures |Purge(m, now)| <= |m|
  {
    var live := Purge(m, now);
    SubsetSize(live.Keys, m.Keys);
    assert |live.Keys| == |live| && |m.Keys| == |m|;
  }

  lemma {:induction false} SubsetSize<T>(a: set<T>, b: set<T>)
    requires a <= b
    ensures |a| <= |b|
    decreases a
  {
    if a != {} {
      var x :| x in a;
      SubsetSize(a - {x}, b - {x});
    }
  }

  /** The lazy sweeps hide nothing: the store is full after them exactly when the live entries fill it. */
  lemma SweepMeaning(lim: Limits, s: Store, now: int)
    ensures var t := Sweep(lim, s, now);
      && Agree(t.entries, s.entries, now)
      && (|t.entries| >= lim.maxSeen <==> |Purge(s.entries, now)| >= lim.maxSeen)
      && (forall k :: k in t.entries ==> k in s.entries && t.entries[k] == s.entries[k])
      && (forall k :: k in s.entries && s.entries[k] >= now ==> k in t.entries)
  {
    PurgeIsSmaller(s.entries, now);
    assert Purge(Purge(s.entries, now), now) == Purge(s.entries, now);
  }

  // ---------------------------------------------------------------- the file store is the eager map

  lemma DropExpiredAgrees(swept: Entries, key: string, now: int)
    ensures Agree(DropExpired(swept, key, now), swept, now)
    ensures key in DropExpired(swept, key, now) <==> key in Purge(swept, now)
  {
  }

  lemma EntryAgrees(a: Entries, b: Entries, key: string, exp: int, now: int)
    requires Agree(a, b, now)
    ensures Agree(a[key := exp], b[key := exp], now)
  {
    assert Purge(a[key := exp], now) == if exp >= now then Purge(a, now)[key := exp] else Purge(a, now) - {key};
    assert Purge(b[key := exp], now) == if exp >= now then Purge(b, now)[key := exp] else Purge(b, now) - {key};
  }

  lemma PurgeAgrees(m: Entries, now: int)
    ensures Agree(m, Purge(m, now), now)
  {
  }

  lemma RecordIsEager(lim: Limits, swept: Entries, m: Entries, op: Op)
    requires Agree(swept, m, op.now) && !Blank(op.key)
    requires |swept| >= lim.maxSeen <==> |Purge(m, op.now)| >= lim.maxSeen
    ensures var (entries, v) := FileRecord(lim, swept, op.key, op.exp, op.now);
      var (m', w) := EagerCheck(lim.maxSeen, m, op.key, op.exp, op.now);
      v == w && Agree(entries, m', op.now)
  {
    PurgeAgrees(m, op.now);
    DropExpiredAgrees(swept, op.key, op.now);
    EntryAgrees(DropExpired(swept, op.key, op.now), Purge(m, op.now), op.key, op.exp, op.now);
  }

  lemma FileStepIsEager(lim: Limits, s: Store, m: Entries, op: Op)
    requires Agree(s.entries, m, op.now)
    ensures var (s', v) := FileCheck(lim, s, op.key, op.exp, op.now);
      var (m', w) := EagerCheck(lim.maxSeen, m, op.key, op.exp, op.now);
      v == w && Agree(s'.entries, m', op.now)
  {
    if !Blank(op.key) {
      SweepMeaning(lim, s, op.now);
      RecordIsEager(lim, Sweep(lim, s, op.now).entries, m, op);
    }
  }

  /** On non-decreasing times the lazily swept file store answers exactly as the eager map, however rarely it sweeps. */
  lemma {:induction false} FileStoreIsEager(lim: Limits, s: Store, m: Entries, ops: seq<Op>)
    requires NonDecreasing(ops)
    requires ops != [] ==> Agree(s.entries, m, ops[0].now)
    ensures FileRun(lim, s, ops) == EagerRun(lim.maxSeen, m, ops)
    decreases |ops|
  {
    if ops != [] {
      FileStepIsEager(lim, s, m, ops[0]);
      var (s', _) := FileCheck(lim, s, ops[0].key, ops[0].exp, ops[0].now);
      var (m', _) := EagerCheck(lim.maxSeen, m, ops[0].key, ops[0].exp, ops[0].now);
      if |ops| > 1 {
        AgreeLater(s'.entries, m', ops[0].now, ops[1].now);
      }
      FileStoreIsEager(lim, s', m', ops[1..]);
    }
  }

  // ---------------------------------------------------------------- the in-memory store and the eager map

  /** A retry of a key whose expired entry has not been swept yet, carrying an expiry that is still to come. */
  ghost predicate RevivesStaleKey(lim: Limits, s: Store, op: Op) {
    && !Blank(op.key) && op.key in s.entries && s.entries[op.key] < op.now <= op.exp
    && |Purge(s.entries, op.now)| < lim.maxSeen
  }

  /** One call, exactly: when the verdicts coincide, and when the live entries still coincide afterwards. */
  lemma MemoryStepAgainstEager(lim: Limits, s: Store, m: Entries, op: Op)
    requires Agree(s.entries, m, op.now)
    ensures var (s', v) := MemoryCheck(lim, s, op.key, op.exp, op.now);
      var (m', w) := EagerCheck(lim.maxSeen, m, op.key, op.exp, op.now);
      var live := Purge(s.entries, op.now);
      && (v.Accepted? ==> w.Accepted?)
      && (v == w <==> Blank(op.key) || op.key !in s.entries || (op.key in live && |live| < lim.maxSeen))
      && (Agree(s'.entries, m', op.now) <==> !RevivesStaleKey(lim, s, op))
  {
    SweepMeaning(lim, s, op.now);
    var (s', v) := MemoryCheck(lim, s, op.key, op.exp, op.now);
    var (m', w) := EagerCheck(lim.maxSeen, m, op.key, op.exp, op.now);
    var live := Purge(s.entries, op.now);
    assert live == Purge(m, op.now) && Purge(live, op.now) == live;
    if v.Accepted? {
      assert Purge(s'.entries, op.now) == Purge(live[op.key := op.exp], op.now);
    } else if w.Accepted? {
      assert Purge(s'.entries, op.now) == live;
      assert op.key !in live;
      assert op.key in Purge(m', op.now) <==> op.exp >= op.now;
      if op.exp < op.now {
        assert Purge(m', op.now) == live;
      }
    } else if !v.Invalid? {
      assert Purge(s'.entries, op.now) == live;
    }
  }

  /** No call of the run revives a stale key. */
  ghost predicate NoRevival(lim: Limits, s: Store, ops: seq<Op>)
    decreases |ops|
  {
    ops != [] ==>
      && !RevivesStaleKey(lim, s, ops[0])
      && NoRevival(lim, MemoryCheck(lim, s, ops[0].key, ops[0].exp, ops[0].now).0, ops[1..])
  }

  /** After every call of the run the two stores hold the same live entries. */
  ghost predicate AgreeThroughout(lim: Limits, s: Store, m: Entries, ops: seq<Op>)
    decreases |ops|
  {
    ops != [] ==>
      var s' := MemoryCheck(lim, s, ops[0].key, ops[0].exp, ops[0].now).0;
      var m' := EagerCheck(lim.maxSeen, m, ops[0].key, ops[0].exp, ops[0].now).0;
      Agree(s'.entries, m', ops[0].now) && AgreeThroughout(lim, s', m', ops[1..])
  }

  /** Over a run the in-memory store and the eager map agree on what is live exactly as long as no stale key is revived. */
  lemma {:induction false} MemoryAgreesExactlyWhen(lim: Limits, s: Store, m: Entries, ops: seq<Op>)
    requires NonDecreasing(ops) && (ops != [] ==> Agree(s.entries, m, ops[0].now))
    ensures AgreeThroughout(lim, s, m, ops) <==> NoRevival(lim, s, ops)
    decreases |ops|
  {
    if ops != [] && !RevivesStaleKey(lim, s, ops[0]) {
      MemoryStepAgainstEager(lim, s, m, ops[0]);
      var s' := MemoryCheck(lim, s, ops[0].key, ops[0].exp, ops[0].now).0;
      var m' := EagerCheck(lim.maxSeen, m, ops[0].key, ops[0].exp, ops[0].now).0;
      if |ops| > 1 {
        AgreeLater(s'.entries, m', ops[0].now, ops[1].now);
      }
      MemoryAgreesExactlyWhen(lim, s', m', ops[1..]);
    } else if ops != [] {
      MemoryStepAgainstEager(lim, s, m, ops[0]);
    }
  }

  /**
   * As long as no stale key is revived, every answer of the in-memory store other than `Replay` is the eager map's own:
   * it accepts only what that map accepts, and is full for a key that it does not hold exactly when that map is full.
   */
  lemma {:induction false} MemoryStoreIsStricter(lim: Limits, s: Store, m: Entries, ops: seq<Op>, i: nat)
    requires NonDecreasing(ops) && NoRevival(lim, s, ops) && i < |ops| && Agree(s.entries, m, ops[0].now)
    ensures var v, w := MemoryRun(lim, s, ops)[i], EagerRun(lim.maxSeen, m, ops)[i]; !v.Replay? ==> v == w
    decreases |ops|
  {
    MemoryStepAgainstEager(lim, s, m, ops[0]);
    if i > 0 {
      var (s', _) := MemoryCheck(lim, s, ops[0].key, ops[0].exp, ops[0].now);
      var (m', _) := EagerCheck(lim.maxSeen, m, ops[0].key, ops[0].exp, ops[0].now);
      AgreeLater(s'.entries, m', ops[0].now, ops[1].now);
      MemoryStoreIsStricter(lim, s', m', ops[1..], i - 1);
    }
  }

  ghost predicate OneExpiryPerKey(ops: seq<Op>, expiry: string -> int) {
    forall i :: 0 <= i < |ops| ==> ops[i].exp == expiry(ops[i].key)
  }

  ghost predicate Carries(m: Entries, expiry: string -> int) {
    forall k :: k in m ==> m[k] == expiry(k)
  }

  /** In particular when every key carries one expiry. */
  lemma {:induction false} OneExpiryRevivesNothing(lim: Limits, s: Store, ops: seq<Op>, expiry: string -> int)
    requires OneExpiryPerKey(ops, expiry) && Carries(s.entries, expiry)
    ensures NoRevival(lim, s, ops)
    decreases |ops|
  {
    if ops != [] {
      SweepMeaning(lim, s, ops[0].now);
      OneExpiryRevivesNothing(lim, MemoryCheck(lim, s, ops[0].key, ops[0].exp, ops[0].now).0, ops[1..], expiry);
    }
  }

  /** A revived stale key leaves room that the eager map no longer has. */
  lemma RevivedKeyBreaksAgreement()
    ensures var ops := [Op("a", 2, 1), Op("a", 9, 5), Op("b", 9, 6)];
      && MemoryRun(Limits(1, 100), Store(map[], 0), ops) == [Accepted, Replay, Accepted]
      && EagerRun(1, map[], ops) == [Accepted, Accepted, Full]
  {
    var one, two := Op("a", 9, 5), Op("b", 9, 6);
    var ops := [Op("a", 2, 1), one, two];
    var lim, a2, a9: Entries := Limits(1, 100), map["a" := 2], map["a" := 9];
    assert ops[1..] == [one, two] && [one, two][1..] == [two] && [two][1..] == [];
    assert !IsSpace("a"[0]) && !IsSpace("b"[0]);
    assert Purge(map[], 1) == map[] && Purge(a2, 5) == map[] && Purge(a2, 6) == map[] && Purge(a9, 6) == a9;
    assert MemoryRun(lim, Store(a2, 1), [two]) == [Accepted];
    assert MemoryRun(lim, Store(a2, 1), [one, two]) == [Replay, Accepted];
    assert EagerRun(1, a9, [two]) == [Full];
    assert EagerRun(1, a2, [one, two]) == [Accepted, Full];
  }

  // ---------------------------------------------------------------- an accepted key is held until it expires

  /** A held key is not accepted at any time up to the expiry it is held with. */
  lemma {:induction false} MemoryHoldsKey(lim: Limits, s: Store, ops: seq<Op>, j: nat)
    requires NonDecreasing(ops) && j < |ops|
    requires ops[j].key in s.entries && ops[j].now <= s.entries[ops[j].key]
    ensures !MemoryRun(lim, s, ops)[j].Accepted?
    decreases j
  {
    SweepMeaning(lim, s, ops[0].now);
    if j > 0 {
      var (s', _) := MemoryCheck(lim, s, ops[0].key, ops[0].exp, ops[0].now);
      MemoryHoldsKey(lim, s', ops[1..], j - 1);
    }
  }

  /** Single use, one caller at a time: once accepted, a key is not accepted again at any time up to its expiry. */
  lemma {:induction false} MemorySingleUse(lim: Limits, s: Store, ops: seq<Op>, i: nat, j: nat)
    requires NonDecreasing(ops) && i < j < |ops|
    requires MemoryRun(lim, s, ops)[i].Accepted? && ops[j].key == ops[i].key && ops[j].now <= ops[i].exp
    ensures !MemoryRun(lim, s, ops)[j].Accepted?
    decreases i
  {
    var (s', _) := MemoryCheck(lim, s, ops[0].key, ops[0].exp, ops[0].now);
    if i == 0 {
      MemoryHoldsKey(lim, s', ops[1..], j - 1);
    } else {
      MemorySingleUse(lim, s', ops[1..], i - 1, j - 1);
    }
  }

  /** The same on disk. */
  lemma {:induction false} FileHoldsKey(lim: Limits, s: Store, ops: seq<Op>, j: nat)
    requires NonDecreasing(ops) && j < |ops|
    requires ops[j].key in s.entries && ops[j].now <= s.entries[ops[j].key]
    ensures !FileRun(lim, s, ops)[j].Accepted?
    decreases j
  {
    SweepMeaning(lim, s, ops[0].now);
    if j > 0 {
      var (s', _) := FileCheck(lim, s, ops[0].key, ops[0].exp, ops[0].now);
      FileHoldsKey(lim, s', ops[1..], j - 1);
    }
  }

  /** Single use, one caller at a time: once accepted, a key is not accepted again at any time up to its expiry. */
  lemma {:induction false} FileSingleUse(lim: Limits, s: Store, ops: seq<Op>, i: nat, j: nat)
    requires NonDecreasing(ops) && i < j < |ops|
    requires FileRun(lim, s, ops)[i].Accepted? && ops[j].key == ops[i].key && ops[j].now <= ops[i].exp
    ensures !FileRun(lim, s, ops)[j].Accepted?
    decreases i
  {
    var (s', _) := FileCheck(lim, s, ops[0].key, ops[0].exp, ops[0].now);
    if i == 0 {
      FileHoldsKey(lim, s', ops[1..], j - 1);
    } else {
      FileSingleUse(lim, s', ops[1..], i - 1, j - 1);
    }
  }

  /** A replay verdict is never invented: the key was held at the start or accepted earlier in the run. */
  lemma {:induction false} MemoryReplayIsGenuine(lim: Limits, s: Store, ops: seq<Op>, i: nat)
    requires i < |ops| && MemoryRun(lim, s, ops)[i].Replay?
    ensures ops[i].key in s.entries
      || exists j :: 0 <= j < i && MemoryRun(lim, s, ops)[j].Accepted? && ops[j].key == ops[i].key
    decreases |ops|
  {
    var (s', v) := MemoryCheck(lim, s, ops[0].key, ops[0].exp, ops[0].now);
    SweepMeaning(lim, s, ops[0].now);
    if i > 0 {
      MemoryReplayIsGenuine(lim, s', ops[1..], i - 1);
      if ops[i].key !in s'.entries {
        var j :| 0 <= j < i - 1 && MemoryRun(lim, s', ops[1..])[j].Accepted? && ops[1..][j].key == ops[i].key;
        assert MemoryRun(lim, s, ops)[j + 1].Accepted? && ops[j + 1].key == ops[i].key;
      } else if ops[i].key !in s.entries {
        assert MemoryRun(lim, s, ops)[0].Accepted? && ops[0].key == ops[i].key;
      }
    }
  }

  /** The in-memory store never outgrows its limit. */
  lemma MemoryIsBounded(lim: Limits, s: Store, key: string, exp: int, now: int)
    requires |s.entries| <= lim.maxSeen
    ensures |MemoryCheck(lim, s, key, exp, now).0.entries| <= lim.maxSeen
  {
    PurgeIsSmaller(s.entries, now);
    SweepMeaning(lim, s, now);
    var t := Sweep(lim, s, now).entries;
    assert t[key := exp].Keys == t.Keys + {key};
    assert |t[key := exp]| == |t[key := exp].Keys| && |t| == |t.Keys|;
  }
}
