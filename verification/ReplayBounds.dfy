/** How large the shared directory can grow, what single use on disk rests on, and an attempt that runs alone. */
module ReplayBounds {
  import opened Prelude
  import opened Text
  import opened ReplayStore
  import opened ReplayProtocol

  // ---------------------------------------------------------------- capacity

  ghost function InFlight(s: State): set<Id> {
    set a | a in s.attempts && !s.attempts[a].pc.Done?
  }

  /** The attempts that have found room and not yet tried to create their file. */
  ghost function Committed(s: State): set<Id> {
    set a | a in s.attempts && (s.attempts[a].pc.Probing? || s.attempts[a].pc.Unlinking? || s.attempts[a].pc.Creating?)
  }

  ghost predicate WithinCapacity(lim: Limits, s: State, n: nat) {
    && (s.backend.Files? ==> |s.backend.dir| + |Committed(s)| < lim.maxSeen + n)
    && (s.backend.Memory? ==> |s.backend.store.entries| <= lim.maxSeen)
  }

  lemma MapSizes<K, V>(m: map<K, V>, k: K, v: V)
    ensures |m - {k}| <= |m|
    ensures k !in m ==> |m[k := v]| == |m| + 1
  {
    SubsetSize((m - {k}).Keys, m.Keys);
    assert |m| == |m.Keys| && |m - {k}| == |(m - {k}).Keys|;
    assert m[k := v].Keys == m.Keys + {k} && |m[k := v]| == |m[k := v].Keys|;
  }

  lemma StepKeepsCapacity(lim: Limits, s: State, l: Label, n: nat)
    requires Step(lim, s, l).Some?
    requires WithinCapacity(lim, s, n) && |InFlight(Step(lim, s, l).value)| <= n
    ensures WithinCapacity(lim, Step(lim, s, l).value, n)
  {
    var s' := Step(lim, s, l).value;
    if s.backend.Files? {
      StepKeepsDirectory(lim, s, l, n);
    } else if l.Go? {
      var t := s.attempts[l.a];
      MemoryIsBounded(lim, s.backend.store, t.key, t.exp, t.now);
    }
  }

  /** An attempt that has just found room saw fewer than `maxSeen` files. */
  lemma FoundRoom(lim: Limits, s: State, l: Label)
    requires Step(lim, s, l).Some? && s.backend.Files?
    requires l.a in Committed(Step(lim, s, l).value) && l.a !in Committed(s)
    ensures Step(lim, s, l).value.backend.Files?
    ensures |Step(lim, s, l).value.backend.dir| < lim.maxSeen
  {
  }

  lemma DirectoryGrowth(lim: Limits, s: State, l: Label)
    requires Step(lim, s, l).Some? && s.backend.Files?
    ensures Step(lim, s, l).value.backend.Files?
    ensures |Step(lim, s, l).value.backend.dir| <= |s.backend.dir| + if l.Go? && s.attempts[l.a].pc.Creating? then 1 else 0
  {
    if l.Go? {
      var t := s.attempts[l.a];
      MapSizes(s.backend.dir, if t.pc.SweepUnlink? then t.pc.victim else t.key, l.a);
    }
  }

  lemma CommittedElsewhere(lim: Limits, s: State, l: Label)
    requires Step(lim, s, l).Some?
    ensures Committed(Step(lim, s, l).value) - {l.a} == Committed(s) - {l.a}
    ensures s.backend.Files? && l.Go? && s.attempts[l.a].pc.Creating? ==> l.a in Committed(s) - Committed(Step(lim, s, l).value)
  {
  }

  lemma OneElementApart<T>(c: set<T>, c': set<T>, a: T)
    requires c' - {a} == c - {a}
    ensures a in c && a !in c' ==> |c'| + 1 == |c|
    ensures (a in c <==> a in c') ==> |c'| == |c|
  {
    if a in c && a !in c' {
      assert c' == c' - {a} == c - {a};
    } else if a in c && a in c' {
      assert c' == (c' - {a}) + {a} && c == (c - {a}) + {a};
    } else if a !in c && a !in c' {
      assert c' == c' - {a} && c == c - {a};
    }
  }

  /** Any other step adds a file only in exchange for the room that its attempt had found. */
  lemma NoNewRoom(lim: Limits, s: State, l: Label)
    requires Step(lim, s, l).Some? && s.backend.Files?
    requires l.a !in Committed(Step(lim, s, l).value) || l.a in Committed(s)
    ensures var s' := Step(lim, s, l).value;
      s'.backend.Files? && |s'.backend.dir| + |Committed(s')| <= |s.backend.dir| + |Committed(s)|
  {
    DirectoryGrowth(lim, s, l);
    CommittedElsewhere(lim, s, l);
    OneElementApart(Committed(s), Committed(Step(lim, s, l).value), l.a);
  }

  lemma StepKeepsDirectory(lim: Limits, s: State, l: Label, n: nat)
    requires Step(lim, s, l).Some? && s.backend.Files?
    requires WithinCapacity(lim, s, n) && |InFlight(Step(lim, s, l).value)| <= n
    ensures WithinCapacity(lim, Step(lim, s, l).value, n)
  {
    var s' := Step(lim, s, l).value;
    if l.a in Committed(s') && l.a !in Committed(s) {
      FoundRoom(lim, s, l);
      SubsetSize(Committed(s'), InFlight(s'));
    } else {
      NoNewRoom(lim, s, l);
    }
  }

  /** With at most `n` calls in flight, the directory overshoots its limit by at most `n - 1`; the memory map never does. */
  lemma {:induction false} StoresAreBounded(lim: Limits, s0: State, run: seq<Label>, n: nat)
    requires Initial(s0) && Exec(lim, s0, run).Some? && n >= 1
    requires forall i :: 0 <= i <= |run| && Exec(lim, s0, run[..i]).Some? ==> |InFlight(Exec(lim, s0, run[..i]).value)| <= n
    ensures var s := Exec(lim, s0, run).value;
      && WithinCapacity(lim, s, n)
      && (s.backend.Files? ==> |s.backend.dir| <= lim.maxSeen + n - 1)
      && (s.backend.Memory? ==> |s.backend.store.entries| <= lim.maxSeen)
  {
    if run == [] {
      assert Committed(s0) == {};
    } else {
      var before := run[..|run| - 1];
      assert forall i :: 0 <= i <= |before| ==> before[..i] == run[..i];
      StoresAreBounded(lim, s0, before, n);
      assert run[..|run|] == run;
      StepKeepsCapacity(lim, Exec(lim, s0, before).value, run[|run| - 1], n);
    }
  }

  // ---------------------------------------------------------------- building runs

  function Unlink(s: State, key: string): State
    requires s.backend.Files?
  {
    s.(backend := s.backend.(dir := s.backend.dir - {key}))
  }

  lemma {:induction false} ExecConcat(lim: Limits, s: State, p: seq<Label>, q: seq<Label>)
    requires Exec(lim, s, p).Some?
    ensures Exec(lim, s, p + q) == Exec(lim, Exec(lim, s, p).value, q)
  {
    if q == [] {
      assert p + q == p;
    } else {
      var q' := q[..|q| - 1];
      ExecConcat(lim, s, p, q');
      assert (p + q)[..|p + q| - 1] == p + q';
    }
  }

  ghost predicate OnlyBy(run: seq<Label>, a: Id) {
    forall i :: 0 <= i < |run| ==> run[i].a == a
  }

  /** Attempt `a`, moving alone, can take the system from `s` to `t`. */
  ghost predicate Leads(lim: Limits, s: State, a: Id, t: State) {
    exists run :: OnlyBy(run, a) && Exec(lim, s, run) == Some(t)
  }

  lemma LeadsByStep(lim: Limits, s: State, l: Label)
    requires Step(lim, s, l).Some?
    ensures Leads(lim, s, l.a, Step(lim, s, l).value)
  {
    assert Exec(lim, s, [l][..0]) == Some(s);
    assert OnlyBy([l], l.a) && Exec(lim, s, [l]) == Step(lim, s, l);
  }

  lemma LeadsOn(lim: Limits, s: State, a: Id, t: State, u: State)
    requires Leads(lim, s, a, t) && Leads(lim, t, a, u)
    ensures Leads(lim, s, a, u)
  {
    var p :| OnlyBy(p, a) && Exec(lim, s, p) == Some(t);
    var q :| OnlyBy(q, a) && Exec(lim, t, q) == Some(u);
    ExecConcat(lim, s, p, q);
    assert OnlyBy(p + q, a);
  }

  lemma LeadsAlso(lim: Limits, s: State, a: Id, t: State, l: Label)
    requires Leads(lim, s, a, t) && l.a == a && Step(lim, t, l).Some?
    ensures Leads(lim, s, a, Step(lim, t, l).value)
  {
    LeadsByStep(lim, t, l);
    LeadsOn(lim, s, a, t, Step(lim, t, l).value);
  }

  lemma StaysReachable(lim: Limits, s: State, a: Id, t: State)
    requires Reachable(lim, s) && Leads(lim, s, a, t)
    ensures Reachable(lim, t)
  {
    var s0, p :| Initial(s0) && Exec(lim, s0, p) == Some(s);
    var q :| OnlyBy(q, a) && Exec(lim, s, q) == Some(t);
    ExecConcat(lim, s0, p, q);
  }

  // ---------------------------------------------------------------- an attempt that runs alone is `FileCheck`

  /** Every file is written: no attempt has stopped between creating and writing. */
  ghost predicate AllWritten(s: State) {
    s.backend.Files? && forall k :: k in s.backend.dir ==> s.backend.dir[k] in s.backend.content && s.backend.content[s.backend.dir[k]].Some?
  }

  /** The directory as the sequential store sees it. */
  ghost function View(s: State): Entries
    requires AllWritten(s)
  {
    map k | k in s.backend.dir :: s.backend.content[s.backend.dir[k]].value
  }

  ghost function Victims(s: State, now: int): set<string>
    requires AllWritten(s)
  {
    set k | k in s.backend.dir && Expired(s.backend, k, now)
  }

  lemma RemoveVictim(lim: Limits, s: State, a: Id, k: string)
    requires AllWritten(s) && a in s.attempts && s.attempts[a].pc.Sweeping? && k in Victims(s, s.attempts[a].now)
    ensures Leads(lim, s, a, Unlink(s, k)) && AllWritten(Unlink(s, k))
    ensures Victims(Unlink(s, k), s.attempts[a].now) == Victims(s, s.attempts[a].now) - {k}
    ensures Purge(View(Unlink(s, k)), s.attempts[a].now) == Purge(View(s), s.attempts[a].now)
  {
    var s1 := Step(lim, s, Pick(a, k)).value;
    LeadsByStep(lim, s, Pick(a, k));
    LeadsAlso(lim, s, a, s1, Go(a));
    var s2 := Step(lim, s1, Go(a)).value;
    assert s2.attempts == s.attempts;
    assert s2 == Unlink(s, k);
  }

  /** A sweep that meets no interference removes exactly the expired files. */
  lemma {:induction false} SweepAlone(lim: Limits, s: State, a: Id) returns (t: State)
    requires AllWritten(s) && a in s.attempts && s.attempts[a].pc.Sweeping?
    ensures t.backend.Files? && t.backend.content == s.backend.content
    ensures AllWritten(t) && t.attempts == s.attempts && Leads(lim, s, a, t)
    ensures View(t) == Purge(View(s), s.attempts[a].now)
    decreases |Victims(s, s.attempts[a].now)|
  {
    var now := s.attempts[a].now;
    if k :| k in Victims(s, now) {
      RemoveVictim(lim, s, a, k);
      t := SweepAlone(lim, Unlink(s, k), a);
      LeadsOn(lim, s, a, Unlink(s, k), t);
    } else {
      t := s;
      assert forall k :: k in s.backend.dir ==> k !in Victims(s, now);
      assert View(s) == Purge(View(s), now);
      assert OnlyBy([], a) && Exec(lim, s, []) == Some(s);
    }
  }

  lemma ViewSize(s: State)
    requires AllWritten(s)
    ensures |View(s)| == |s.backend.dir|
  {
    assert View(s).Keys == s.backend.dir.Keys;
    assert |View(s)| == |View(s).Keys| && |s.backend.dir| == |s.backend.dir.Keys|;
  }

  /** The state in which `a` is at `pc` and everything else about the attempts is as in `s`. */
  ghost predicate At(s: State, t: State, a: Id, pc: Pc) {
    a in s.attempts && t.attempts == s.attempts[a := s.attempts[a].(pc := pc)]
  }

  /** `t` shows the entries and the verdict that the sequential store computes. */
  ghost predicate Shows(s: State, a: Id, t: State, outcome: (Entries, Verdict)) {
    AllWritten(t) && View(t) == outcome.0 && At(s, t, a, Done(outcome.1))
  }

  lemma ShowsFromEarlier(s: State, t: State, u: State, a: Id, pc: Pc, outcome: (Entries, Verdict))
    requires At(s, t, a, pc) && Shows(t, a, u, outcome)
    ensures Shows(s, a, u, outcome)
  {
  }

  /** From entering to the first count: the periodic sweep, if it is due. */
  lemma FirstSweepAlone(lim: Limits, s: State, a: Id, due: bool) returns (t: State)
    requires AllWritten(s) && a in s.attempts && s.attempts[a].pc.Entered?
    ensures t.backend.Files? && t.backend.content == s.backend.content
    ensures AllWritten(t) && At(s, t, a, Counting(false)) && Leads(lim, s, a, t)
    ensures View(t) == if due then Purge(View(s), s.attempts[a].now) else View(s)
  {
    if due {
      var s1 := Step(lim, s, BeginSweep(a)).value;
      LeadsByStep(lim, s, BeginSweep(a));
      assert View(s1) == View(s);
      var s2 := SweepAlone(lim, s1, a);
      LeadsOn(lim, s, a, s1, s2);
      LeadsAlso(lim, s, a, s2, Go(a));
      t := Step(lim, s2, Go(a)).value;
      assert View(t) == View(s2);
    } else {
      t := Step(lim, s, Go(a)).value;
      LeadsByStep(lim, s, Go(a));
      assert View(t) == View(s);
    }
  }

  /** From the first count to the second: a sweep if the directory is full. */
  lemma SecondSweepAlone(lim: Limits, s: State, a: Id) returns (t: State)
    requires AllWritten(s) && a in s.attempts && s.attempts[a].pc == Counting(false)
    ensures t.backend.Files? && t.backend.content == s.backend.content
    ensures AllWritten(t) && At(s, t, a, Counting(true)) && Leads(lim, s, a, t)
    ensures View(t) == if |View(s)| >= lim.maxSeen then Purge(View(s), s.attempts[a].now) else View(s)
  {
    ViewSize(s);
    var s1 := Step(lim, s, Go(a)).value;
    LeadsByStep(lim, s, Go(a));
    assert View(s1) == View(s);
    if |View(s)| >= lim.maxSeen {
      var s2 := SweepAlone(lim, s1, a);
      LeadsOn(lim, s, a, s1, s2);
      LeadsAlso(lim, s, a, s2, Go(a));
      t := Step(lim, s2, Go(a)).value;
      assert View(t) == View(s2);
    } else {
      t := s1;
    }
  }

  /** From reading the key's own file to creating it. */
  lemma ProbeAlone(lim: Limits, s: State, a: Id) returns (t: State)
    requires AllWritten(s) && a in s.attempts && s.attempts[a].pc == Probing
    ensures t.backend.Files? && t.backend.content == s.backend.content
    ensures AllWritten(t) && Leads(lim, s, a, t) && At(s, t, a, Creating)
    ensures View(t) == DropExpired(View(s), s.attempts[a].key, s.attempts[a].now)
  {
    var u := s.attempts[a];
    LeadsByStep(lim, s, Go(a));
    if Expired(s.backend, u.key, u.now) {
      var s1 := s.(attempts := s.attempts[a := u.(pc := Unlinking)]);
      assert Step(lim, s, Go(a)) == Some(s1);
      LeadsAlso(lim, s, a, s1, Go(a));
      t := Unlink(s, u.key).(attempts := s.attempts[a := u.(pc := Creating)]);
      assert s1.attempts[a := u.(pc := Creating)] == t.attempts;
      assert Step(lim, s1, Go(a)) == Some(t);
      assert View(t) == View(s) - {u.key};
    } else {
      t := s.(attempts := s.attempts[a := u.(pc := Creating)]);
      assert View(t) == View(s);
    }
  }

  lemma CreateFree(lim: Limits, s: State, a: Id)
    requires s.backend.Files? && a in s.attempts && s.attempts[a].pc.Creating? && s.attempts[a].key !in s.backend.dir
    ensures var u := s.attempts[a];
      Leads(lim, s, a, State(Files(s.backend.dir[u.key := a], s.backend.content[a := Some(u.exp)]), s.attempts[a := u.(pc := Done(Accepted))]))
  {
    var u := s.attempts[a];
    var s1 := State(Files(s.backend.dir[u.key := a], s.backend.content[a := None]), s.attempts[a := u.(pc := Writing)]);
    var t := State(Files(s.backend.dir[u.key := a], s.backend.content[a := Some(u.exp)]), s.attempts[a := u.(pc := Done(Accepted))]);
    LeadsByStep(lim, s, Go(a));
    assert Step(lim, s, Go(a)) == Some(s1);
    LeadsAlso(lim, s, a, s1, Go(a));
    assert s1.backend.content[a := Some(u.exp)] == t.backend.content;
    assert s1.attempts[a := u.(pc := Done(Accepted))] == t.attempts;
    assert Step(lim, s1, Go(a)) == Some(t);
  }

  lemma CreateAlone(lim: Limits, s: State, a: Id) returns (t: State)
    requires AllWritten(s) && a in s.attempts && s.attempts[a].pc.Creating?
    requires a !in s.backend.content
    ensures Leads(lim, s, a, t)
    ensures t.backend.Files? && t.backend.content.Keys <= s.backend.content.Keys + {a}
    ensures Shows(s, a, t, CreateNew(View(s), s.attempts[a].key, s.attempts[a].exp))
  {
    var u := s.attempts[a];
    if u.key in s.backend.dir {
      t := Step(lim, s, Go(a)).value;
      LeadsByStep(lim, s, Go(a));
    } else {
      CreateFree(lim, s, a);
      t := State(Files(s.backend.dir[u.key := a], s.backend.content[a := Some(u.exp)]), s.attempts[a := u.(pc := Done(Accepted))]);
      assert AllWritten(t) && View(t) == View(s)[u.key := u.exp];
    }
  }

  /** From reading the key's own file to the verdict. */
  lemma ProbeAndCreateAlone(lim: Limits, s: State, a: Id) returns (t: State)
    requires AllWritten(s) && a in s.attempts && s.attempts[a].pc == Probing && a !in s.backend.content
    ensures Leads(lim, s, a, t)
    ensures Shows(s, a, t, CreateNew(DropExpired(View(s), s.attempts[a].key, s.attempts[a].now), s.attempts[a].key, s.attempts[a].exp))
  {
    var u := s.attempts[a];
    var s1 := ProbeAlone(lim, s, a);
    t := CreateAlone(lim, s1, a);
    LeadsOn(lim, s, a, s1, t);
    ShowsFromEarlier(s, s1, t, a, Creating, CreateNew(View(s1), u.key, u.exp));
  }

  /** From the second count to the verdict. */
  lemma RecordAlone(lim: Limits, s: State, a: Id) returns (t: State)
    requires AllWritten(s) && a in s.attempts && s.attempts[a].pc == Counting(true) && a !in s.backend.content
    ensures Leads(lim, s, a, t)
    ensures Shows(s, a, t, FileRecord(lim, View(s), s.attempts[a].key, s.attempts[a].exp, s.attempts[a].now))
  {
    ViewSize(s);
    var u, s1 := s.attempts[a], Step(lim, s, Go(a)).value;
    LeadsByStep(lim, s, Go(a));
    assert View(s1) == View(s);
    if |View(s)| >= lim.maxSeen {
      t := s1;
    } else {
      t := ProbeAndCreateAlone(lim, s1, a);
      LeadsOn(lim, s, a, s1, t);
      ShowsFromEarlier(s, s1, t, a, Probing, FileRecord(lim, View(s), u.key, u.exp, u.now));
    }
  }

  /** From entering to the second count. */
  lemma SweepsAlone(lim: Limits, s: State, a: Id, calls: nat) returns (t: State)
    requires AllWritten(s) && a in s.attempts && s.attempts[a].pc.Entered?
    ensures t.backend.Files? && t.backend.content == s.backend.content
    ensures AllWritten(t) && At(s, t, a, Counting(true)) && Leads(lim, s, a, t)
    ensures View(t) == Sweep(lim, Store(View(s), calls), s.attempts[a].now).entries
  {
    var s1 := FirstSweepAlone(lim, s, a, calls + 1 >= lim.sweepEvery);
    t := SecondSweepAlone(lim, s1, a);
    LeadsOn(lim, s, a, s1, t);
  }

  lemma EnterAlone(lim: Limits, s: State, a: Id, key: string, exp: int, now: int) returns (t: State)
    requires AllWritten(s) && a !in s.attempts
    ensures t == s.(attempts := s.attempts[a := Attempt(key, exp, now, if Blank(key) then Done(Invalid) else Entered)])
    ensures AllWritten(t) && View(t) == View(s) && Leads(lim, s, a, t)
  {
    t := Step(lim, s, Enter(a, key, exp, now)).value;
    LeadsByStep(lim, s, Enter(a, key, exp, now));
  }

  lemma EnteredAlone(lim: Limits, s: State, a: Id, calls: nat) returns (t: State)
    requires AllWritten(s) && a in s.attempts && s.attempts[a].pc.Entered? && a !in s.backend.content
    ensures Leads(lim, s, a, t)
    ensures Shows(s, a, t, FileRecord(lim, Sweep(lim, Store(View(s), calls), s.attempts[a].now).entries,
                                      s.attempts[a].key, s.attempts[a].exp, s.attempts[a].now))
  {
    var s1 := SweepsAlone(lim, s, a, calls);
    var u := s.attempts[a];
    assert s1.attempts[a] == u.(pc := Counting(true));
    t := RecordAlone(lim, s1, a);
    LeadsOn(lim, s, a, s1, t);
    ShowsFromEarlier(s, s1, t, a, Counting(true), FileRecord(lim, View(s1), u.key, u.exp, u.now));
  }

  /** From `s`, attempt `a` was made and answered, and `t` shows the store's entries afterwards. */
  ghost predicate Answered(s: State, a: Id, op: Op, t: State, outcome: (Store, Verdict)) {
    && AllWritten(t) && View(t) == outcome.0.entries
    && t.attempts == s.attempts[a := Attempt(op.key, op.exp, op.now, Done(outcome.1))]
  }

  /** Refinement: an attempt that nobody interrupts computes exactly the sequential `FileCheck`. */
  lemma AloneIsFileCheck(lim: Limits, s: State, a: Id, op: Op, calls: nat) returns (t: State)
    requires AllWritten(s) && FilesHaveOwners(s) && a !in s.attempts
    ensures Leads(lim, s, a, t)
    ensures Answered(s, a, op, t, FileCheck(lim, Store(View(s), calls), op.key, op.exp, op.now))
  {
    var s1 := EnterAlone(lim, s, a, op.key, op.exp, op.now);
    if Blank(op.key) {
      t := s1;
    } else {
      t := EnteredAlone(lim, s1, a, calls);
      LeadsOn(lim, s, a, s1, t);
      AnsweredFromEntered(lim, s, s1, a, op, t, calls);
    }
  }

  lemma AnsweredFromEntered(lim: Limits, s: State, s1: State, a: Id, op: Op, t: State, calls: nat)
    requires AllWritten(s) && !Blank(op.key) && s1.attempts == s.attempts[a := Attempt(op.key, op.exp, op.now, Entered)]
    requires Shows(s1, a, t, FileRecord(lim, Sweep(lim, Store(View(s), calls), op.now).entries, op.key, op.exp, op.now))
    ensures Answered(s, a, op, t, FileCheck(lim, Store(View(s), calls), op.key, op.exp, op.now))
  {
  }

  // ---------------------------------------------------------------- once an expiry has passed, single use on disk ends

  /** An attempt reads its key's file as expired and is about to remove it. */
  lemma ReachUnlinking(lim: Limits, s: State, a: Id, op: Op) returns (t: State)
    requires AllWritten(s) && a !in s.attempts && !Blank(op.key) && |View(s)| < lim.maxSeen
    requires op.key in View(s) && View(s)[op.key] < op.now
    ensures Leads(lim, s, a, t) && AllWritten(t) && View(t) == View(s) && t.backend.content == s.backend.content
    ensures t.attempts == s.attempts[a := Attempt(op.key, op.exp, op.now, Unlinking)]
  {
    var s1 := EnterAlone(lim, s, a, op.key, op.exp, op.now);
    var s2 := FirstSweepAlone(lim, s1, a, false);
    LeadsOn(lim, s, a, s1, s2);
    var s3 := SecondSweepAlone(lim, s2, a);
    LeadsOn(lim, s, a, s2, s3);
    t := ToUnlinking(lim, s3, a);
    LeadsOn(lim, s, a, s3, t);
  }

  lemma ToUnlinking(lim: Limits, s: State, a: Id) returns (t: State)
    requires AllWritten(s) && a in s.attempts && s.attempts[a].pc == Counting(true) && |View(s)| < lim.maxSeen
    requires s.attempts[a].key in View(s) && View(s)[s.attempts[a].key] < s.attempts[a].now
    ensures Leads(lim, s, a, t) && AllWritten(t) && View(t) == View(s) && t.backend == s.backend && At(s, t, a, Unlinking)
  {
    ViewSize(s);
    var s1 := Step(lim, s, Go(a)).value;
    LeadsByStep(lim, s, Go(a));
    LeadsAlso(lim, s, a, s1, Go(a));
    t := Step(lim, s1, Go(a)).value;
  }

  /** It removes whatever file is there by now, and records its own. */
  lemma FromUnlinking(lim: Limits, s: State, a: Id) returns (t: State)
    requires AllWritten(s) && a in s.attempts && s.attempts[a].pc.Unlinking? && a !in s.backend.content
    ensures Leads(lim, s, a, t) && AllWritten(t) && At(s, t, a, Done(Accepted))
    ensures t.backend.Files? && t.backend.content.Keys <= s.backend.content.Keys + {a}
  {
    var s1 := Step(lim, s, Go(a)).value;
    LeadsByStep(lim, s, Go(a));
    assert AllWritten(s1) && s.attempts[a].key !in View(s1);
    t := CreateAlone(lim, s1, a);
    LeadsOn(lim, s, a, s1, t);
  }

  /** Two attempts read the same expired file before either removes it. */
  lemma BothReachUnlinking(lim: Limits, s: State, op: Op, b: Id, c: Id) returns (t: State)
    requires Reachable(lim, s) && AllWritten(s) && b != c && b !in s.attempts && c !in s.attempts
    requires !Blank(op.key) && |View(s)| < lim.maxSeen && op.key in View(s) && View(s)[op.key] < op.now
    ensures Reachable(lim, t) && AllWritten(t) && t.backend.content == s.backend.content
    ensures var u := Attempt(op.key, op.exp, op.now, Unlinking); t.attempts == s.attempts[b := u][c := u]
  {
    var s1 := ReachUnlinking(lim, s, b, op);
    StaysReachable(lim, s, b, s1);
    t := ReachUnlinking(lim, s1, c, op);
    StaysReachable(lim, s1, c, t);
  }

  /** They both get through: the second removes the file that the first has just recorded. */
  lemma BothGetThrough(lim: Limits, s: State, b: Id, c: Id) returns (t: State)
    requires Reachable(lim, s) && AllWritten(s) && b != c && b in s.attempts && c in s.attempts
    requires s.attempts[b].pc.Unlinking? && s.attempts[c].pc.Unlinking? && b !in s.backend.content && c !in s.backend.content
    ensures Reachable(lim, t)
    ensures t.attempts == s.attempts[b := s.attempts[b].(pc := Done(Accepted))][c := s.attempts[c].(pc := Done(Accepted))]
  {
    var s1 := FromUnlinking(lim, s, b);
    StaysReachable(lim, s, b, s1);
    t := FromUnlinking(lim, s1, c);
    StaysReachable(lim, s1, c, t);
  }

  /**
   * The converse of `OneAcceptedWhileNonePassed` on disk: once a reading has passed one expiry that a key was presented
   * with, two attempts that carry a later one can both be accepted, although no reading has passed that.
   */
  lemma PassedExpiryAdmitsTwo(lim: Limits, old': int, op: Op)
    requires lim.maxSeen >= 2 && !Blank(op.key) && old' < op.now <= op.exp
    ensures exists s: State, b: Id, c: Id ::
      && Reachable(lim, s) && (forall a :: a in s.attempts ==> s.attempts[a].now <= op.exp && s.attempts[a].exp in {old', op.exp})
      && b != c && AcceptedFor(s, b, op.key, op.exp) && AcceptedFor(s, c, op.key, op.exp)
  {
    var s1 := SeedFile(lim, Op(op.key, old', op.now));
    var s2 := BothReachUnlinking(lim, s1, op, Online(1), Online(2));
    var s3 := BothGetThrough(lim, s2, Online(1), Online(2));
    assert AcceptedFor(s3, Online(1), op.key, op.exp) && AcceptedFor(s3, Online(2), op.key, op.exp);
  }

  lemma SeedFile(lim: Limits, op: Op) returns (s: State)
    requires lim.maxSeen >= 1 && !Blank(op.key)
    ensures Reachable(lim, s) && AllWritten(s) && FilesHaveOwners(s)
    ensures View(s) == map[op.key := op.exp] && s.attempts == map[Online(0) := Attempt(op.key, op.exp, op.now, Done(Accepted))]
  {
    var s0 := State(Files(map[], map[]), map[]);
    assert Initial(s0) && Exec(lim, s0, []) == Some(s0) && View(s0) == map[];
    s := AloneIsFileCheck(lim, s0, Online(0), op, 0);
    StaysReachable(lim, s0, Online(0), s);
    FirstEntry(lim, op.key, op.exp, op.now);
    OwnersWhenReachable(lim, s);
  }

  lemma FirstEntry(lim: Limits, key: string, exp: int, now: int)
    requires lim.maxSeen >= 1 && !Blank(key)
    ensures FileCheck(lim, Store(map[], 0), key, exp, now).0.entries == map[key := exp]
    ensures FileCheck(lim, Store(map[], 0), key, exp, now).1 == Accepted
  {
    assert Purge(map[], now) == map[];
  }

  lemma OwnersWhenReachable(lim: Limits, s: State)
    requires Reachable(lim, s)
    ensures FilesHaveOwners(s)
  {
    var s0, run :| Initial(s0) && Exec(lim, s0, run) == Some(s);
    RunKeepsHeld(lim, s0, run, "", 0);
  }
}
