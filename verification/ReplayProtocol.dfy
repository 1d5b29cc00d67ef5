/**
 * Concurrent use of the replay stores. An attempt is one call of `check_and_record`; its steps interleave with
 * those of any number of other attempts, and it may stop for good at any of them.
 */
module ReplayProtocol {
  import opened Prelude
  import opened Text
  import opened ReplayStore

  /** Who makes the attempt: the n-th credential of a token exchange, or the client of an online endpoint. */
  datatype Id = Credential(exchange: nat, slot: nat) | Online(n: nat)

  datatype Pc =
    | Entered
    | Sweeping(second: bool)                          // walking the directory listing
    | SweepUnlink(second: bool, victim: string)       // has read an expired file, is about to remove it
    | Counting(second: bool)
    | Probing                                         // about to read the key's own file
    | Unlinking                                       // has read it as expired, is about to remove it
    | Creating
    | Writing                                         // has created the file, it is still empty
    | Done(verdict: Verdict)

  datatype Attempt = Attempt(key: string, exp: int, now: int, pc: Pc)

  /**
   * In memory, the store is used under its lock. On disk, `dir` names the file behind each key and `content` what
   * is written in it; a file is identified by the attempt that created it, so a removed file can still be written.
   */
  datatype Backend =
    | Memory(store: Store)
    | Files(dir: map<string, Id>, content: map<Id, Option<int>>)

  datatype State = State(backend: Backend, attempts: map<Id, Attempt>)

  datatype Label =
    | Enter(a: Id, key: string, exp: int, now: int)
    | BeginSweep(a: Id)            // the replica's call counter has run out
    | Pick(a: Id, victim: string)  // the listing reaches an expired file
    | Go(a: Id)                    // the attempt's next own step
    | Stop(a: Id)                  // a crash, or an I/O failure reported as an unavailable store

  predicate Expired(b: Backend, key: string, now: int) {
    b.Files? && key in b.dir && b.dir[key] in b.content && b.content[b.dir[key]].Some? && b.content[b.dir[key]].value < now
  }

  /** Where an attempt on disk goes next. */
  function NextPc(lim: Limits, b: Backend, t: Attempt): Pc
    requires b.Files?
  {
    match t.pc
    case Entered => Counting(false)
    case Sweeping(second) => Counting(second)
    case SweepUnlink(second, _) => Sweeping(second)
    case Counting(second) =>
      if |b.dir| < lim.maxSeen then (if second then Probing else Counting(true)) else (if second then Done(Full) else Sweeping(true))
    case Probing => if Expired(b, t.key, t.now) then Unlinking else Creating
    case Unlinking => Creating
    case Creating => if t.key in b.dir then Done(Replay) else Writing
    case Writing => Done(Accepted)
    case Done(_) => t.pc
  }

  /** What its step does to the directory. */
  function NextFiles(b: Backend, a: Id, t: Attempt): Backend
    requires b.Files?
  {
    match t.pc
    case SweepUnlink(_, victim) => b.(dir := b.dir - {victim})
    case Unlinking => b.(dir := b.dir - {t.key})
    case Creating => if t.key in b.dir then b else Files(b.dir[t.key := a], b.content[a := None])
    case Writing => b.(content := b.content[a := Some(t.exp)])
    case _ => b
  }

  /** One step of an attempt: the new backend and the attempt's new place. `None` when the step is not possible. */
  function Next(lim: Limits, b: Backend, t: Attempt, l: Label): Option<(Backend, Pc)> {
    match l
    case Enter(_, _, _, _) => None
    case BeginSweep(_) => if b.Files? && t.pc.Entered? then Some((b, Sweeping(false))) else None
    case Pick(_, victim) =>
      if t.pc.Sweeping? && Expired(b, victim, t.now) then Some((b, SweepUnlink(t.pc.second, victim))) else None
    case Go(a) =>
      if b.Files? then (if t.pc.Done? then None else Some((NextFiles(b, a, t), NextPc(lim, b, t))))
      else if t.pc.Entered? then
        var (store, v) := MemoryCheck(lim, b.store, t.key, t.exp, t.now);
        Some((Memory(store), Done(v)))
      else None
    case Stop(_) => if t.pc.Done? then None else Some((b, Done(Full)))
  }

  function Step(lim: Limits, s: State, l: Label): Option<State> {
    if l.Enter? then
      if l.a in s.attempts then None
      else Some(s.(attempts := s.attempts[l.a := Attempt(l.key, l.exp, l.now, if Blank(l.key) then Done(Invalid) else Entered)]))
    else if l.a !in s.attempts then None
    else
      var t := s.attempts[l.a];
      var next := Next(lim, s.backend, t, l);
      if next.None? then None else Some(State(next.value.0, s.attempts[l.a := t.(pc := next.value.1)]))
  }

  function Exec(lim: Limits, s: State, run: seq<Label>): Option<State> {
    if run == [] then Some(s)
    else
      var t := Exec(lim, s, run[..|run| - 1]);
      if t.None? then None else Step(lim, t.value, run[|run| - 1])
  }

  predicate Initial(s: State) {
    s.attempts == map[] && (s.backend == Memory(Store(map[], 0)) || s.backend == Files(map[], map[]))
  }

  ghost predicate Reachable(lim: Limits, s: State) {
    exists s0: State, run: seq<Label> :: Initial(s0) && Exec(lim, s0, run) == Some(s)
  }

  // ---------------------------------------------------------------- what every step keeps

  ghost predicate OwnedBy(s: State, key: string, i: Id) {
    s.backend.Files? && i in s.backend.content && i in s.attempts && s.attempts[i].key == key
  }

  ghost predicate WrittenBy(s: State, i: Id)
    requires s.backend.Files? && i in s.backend.content
  {
    i in s.attempts && (s.backend.content[i].Some? ==> s.backend.content[i].value == s.attempts[i].exp)
  }

  /** Each file was created by an attempt for its key and holds that attempt's expiry once it is written. */
  ghost predicate FilesHaveOwners(s: State) {
    s.backend.Files? ==>
      && (forall k :: k in s.backend.dir ==> OwnedBy(s, k, s.backend.dir[k]))
      && (forall i :: i in s.backend.content ==> WrittenBy(s, i))
  }

  /** Steps never change what an attempt was called with. */
  ghost predicate Extends(s: State, t: State) {
    forall a :: a in s.attempts ==>
      a in t.attempts && t.attempts[a].key == s.attempts[a].key && t.attempts[a].exp == s.attempts[a].exp && t.attempts[a].now == s.attempts[a].now
  }

  lemma StepExtends(lim: Limits, s: State, l: Label)
    requires Step(lim, s, l).Some?
    ensures Extends(s, Step(lim, s, l).value)
    ensures Step(lim, s, l).value.backend.Files? == s.backend.Files?
  {
  }

  lemma StepKeepsOwner(lim: Limits, s: State, l: Label, k: string)
    requires FilesHaveOwners(s) && s.backend.Files? && Step(lim, s, l).Some?
    requires k in Step(lim, s, l).value.backend.dir
    ensures OwnedBy(Step(lim, s, l).value, k, Step(lim, s, l).value.backend.dir[k])
  {
    assert k in s.backend.dir ==> OwnedBy(s, k, s.backend.dir[k]);
  }

  lemma StepKeepsWritten(lim: Limits, s: State, l: Label, i: Id)
    requires FilesHaveOwners(s) && s.backend.Files? && Step(lim, s, l).Some?
    requires i in Step(lim, s, l).value.backend.content
    ensures WrittenBy(Step(lim, s, l).value, i)
  {
    assert i in s.backend.content ==> WrittenBy(s, i);
  }

  lemma StepKeepsOwners(lim: Limits, s: State, l: Label)
    requires FilesHaveOwners(s) && Step(lim, s, l).Some?
    ensures FilesHaveOwners(Step(lim, s, l).value)
  {
    var s' := Step(lim, s, l).value;
    if s'.backend.Files? {
      StepExtends(lim, s, l);
      forall k | k in s'.backend.dir
        ensures OwnedBy(s', k, s'.backend.dir[k])
      {
        StepKeepsOwner(lim, s, l, k);
      }
      forall i | i in s'.backend.content
        ensures WrittenBy(s', i)
      {
        StepKeepsWritten(lim, s, l, i);
      }
    }
  }

  /** No clock reading has passed `exp` yet and, on disk, no attempt for the key carries an earlier expiry. */
  ghost predicate Quiet(s: State, key: string, exp: int) {
    && (forall a :: a in s.attempts ==> s.attempts[a].now <= exp)
    && (s.backend.Files? ==> forall a :: a in s.attempts && s.attempts[a].key == key ==> s.attempts[a].exp >= exp)
  }

  /** The attempt was accepted for the key, with this expiry or a later one. */
  ghost predicate AcceptedFor(s: State, a: Id, key: string, exp: int) {
    a in s.attempts && s.attempts[a].key == key && s.attempts[a].exp >= exp && s.attempts[a].pc == Done(Accepted)
  }

  /** Attempt `a` is not about to remove the key's file, and if it has created that file, the file is in place. */
  ghost predicate Safe(s: State, key: string, a: Id)
    requires s.backend.Files? && a in s.attempts
  {
    var t := s.attempts[a];
    && !(t.pc.SweepUnlink? && t.pc.victim == key)
    && (t.key == key ==>
          && !t.pc.Unlinking?
          && (t.pc.Writing? || t.pc == Done(Accepted) ==> key in s.backend.dir && s.backend.dir[key] == a))
  }

  ghost predicate HeldOnDisk(s: State, key: string) {
    s.backend.Files? ==> forall a :: a in s.attempts ==> Safe(s, key, a)
  }

  ghost predicate HeldInMemory(s: State, key: string, exp: int) {
    s.backend.Memory? ==>
      forall a :: AcceptedFor(s, a, key, exp) ==>
        && key in s.backend.store.entries && s.backend.store.entries[key] == s.attempts[a].exp
        && forall b :: AcceptedFor(s, b, key, exp) ==> a == b
  }

  ghost predicate Held(s: State, key: string, exp: int) {
    Quiet(s, key, exp) ==> HeldOnDisk(s, key) && HeldInMemory(s, key, exp)
  }

  lemma NothingExpiredWhileQuiet(s: State, key: string, exp: int, now: int)
    requires FilesHaveOwners(s) && s.backend.Files? && Quiet(s, key, exp) && now <= exp
    ensures !Expired(s.backend, key, now)
  {
  }

  /** While all is quiet, a step leaves every attempt safe. */
  lemma StepKeepsSafe(lim: Limits, s: State, l: Label, c: Id, key: string, exp: int)
    requires FilesHaveOwners(s) && s.backend.Files? && l.a in s.attempts && c in s.attempts && Step(lim, s, l).Some?
    requires Quiet(s, key, exp) && Safe(s, key, l.a) && Safe(s, key, c)
    ensures Step(lim, s, l).value.backend.Files? && Safe(Step(lim, s, l).value, key, c)
  {
    NothingExpiredWhileQuiet(s, key, exp, s.attempts[l.a].now);
  }

  lemma StepKeepsHeldOnDisk(lim: Limits, s: State, l: Label, key: string, exp: int)
    requires FilesHaveOwners(s) && Step(lim, s, l).Some?
    requires Quiet(s, key, exp) && HeldOnDisk(s, key)
    ensures HeldOnDisk(Step(lim, s, l).value, key)
  {
    var s' := Step(lim, s, l).value;
    if s'.backend.Files? {
      forall c | c in s'.attempts
        ensures Safe(s', key, c)
      {
        if l.Enter? {
          assert c in s.attempts ==> Safe(s, key, c);
        } else {
          StepKeepsSafe(lim, s, l, c, key, exp);
        }
      }
    }
  }

  lemma StepKeepsHeldInMemory(lim: Limits, s: State, l: Label, key: string, exp: int)
    requires Step(lim, s, l).Some?
    requires Quiet(s, key, exp) && HeldInMemory(s, key, exp)
    ensures HeldInMemory(Step(lim, s, l).value, key, exp)
  {
    var s' := Step(lim, s, l).value;
    if s'.backend.Memory? {
      assert forall b :: b != l.a ==> (AcceptedFor(s', b, key, exp) <==> AcceptedFor(s, b, key, exp));
      if l.Go? {
        SweepMeaning(lim, s.backend.store, s.attempts[l.a].now);
      } else {
        assert AcceptedFor(s', l.a, key, exp) <==> AcceptedFor(s, l.a, key, exp);
      }
    }
  }

  lemma StepKeepsHeld(lim: Limits, s: State, l: Label, key: string, exp: int)
    requires FilesHaveOwners(s) && Held(s, key, exp) && Step(lim, s, l).Some?
    ensures Held(Step(lim, s, l).value, key, exp)
  {
    var s' := Step(lim, s, l).value;
    StepExtends(lim, s, l);
    if Quiet(s', key, exp) {
      assert Quiet(s, key, exp) by {
        assert forall a :: a in s.attempts ==> a in s'.attempts && s.attempts[a].now == s'.attempts[a].now;
      }
      StepKeepsHeldOnDisk(lim, s, l, key, exp);
      StepKeepsHeldInMemory(lim, s, l, key, exp);
    }
  }

  lemma {:induction false} RunKeepsHeld(lim: Limits, s0: State, run: seq<Label>, key: string, exp: int)
    requires Initial(s0) && Exec(lim, s0, run).Some?
    ensures FilesHaveOwners(Exec(lim, s0, run).value) && Held(Exec(lim, s0, run).value, key, exp)
  {
    if run != [] {
      var before := run[..|run| - 1];
      RunKeepsHeld(lim, s0, before, key, exp);
      StepKeepsOwners(lim, Exec(lim, s0, before).value, run[|run| - 1]);
      StepKeepsHeld(lim, Exec(lim, s0, before).value, run[|run| - 1], key, exp);
    }
  }

  /**
   * Single use, in every interleaving, with either store and with attempts stopping anywhere: two accepted attempts
   * for one key with this expiry or later ones are the same attempt, until some clock reading has passed the expiry.
   */
  lemma AtMostOneAccepted(lim: Limits, s: State, key: string, exp: int, a: Id, b: Id)
    requires Reachable(lim, s) && Quiet(s, key, exp)
    requires AcceptedFor(s, a, key, exp) && AcceptedFor(s, b, key, exp)
    ensures a == b
  {
    var s0, run :| Initial(s0) && Exec(lim, s0, run) == Some(s);
    RunKeepsHeld(lim, s0, run, key, exp);
  }

  /** No clock reading has passed any expiry that the key was presented with. */
  ghost predicate NonePassed(s: State, key: string) {
    forall a, b :: a in s.attempts && s.attempts[a].key == key && b in s.attempts ==> s.attempts[b].now <= s.attempts[a].exp
  }

  lemma {:induction false} LeastExpiry(s: State, ids: set<Id>) returns (exp: int)
    requires ids != {} && ids <= s.attempts.Keys
    ensures exists a :: a in ids && s.attempts[a].exp == exp
    ensures forall a :: a in ids ==> s.attempts[a].exp >= exp
    decreases ids
  {
    var a :| a in ids;
    exp := s.attempts[a].exp;
    if ids != {a} {
      var least := LeastExpiry(s, ids - {a});
      exp := if least < exp then least else exp;
    }
  }

  /** So a key is used once, whatever expiries it is presented with, as long as no reading has passed any of them. */
  lemma OneAcceptedWhileNonePassed(lim: Limits, s: State, key: string, a: Id, b: Id)
    requires Reachable(lim, s) && NonePassed(s, key)
    requires a in s.attempts && s.attempts[a].key == key && s.attempts[a].pc == Done(Accepted)
    requires b in s.attempts && s.attempts[b].key == key && s.attempts[b].pc == Done(Accepted)
    ensures a == b
  {
    var ids := set c | c in s.attempts && s.attempts[c].key == key;
    assert a in ids;
    var exp := LeastExpiry(s, ids);
    AtMostOneAccepted(lim, s, key, exp, a, b);
  }

  // ---------------------------------------------------------------- a replay verdict has a cause

  ghost predicate Recorded(s: State, b: Id, key: string) {
    && b in s.attempts && s.attempts[b].key == key
    && (if s.backend.Files? then b in s.backend.content else s.attempts[b].pc == Done(Accepted))
  }

  /** Somebody else was recorded for the key of an attempt turned away; a file's creator was not turned away itself. */
  ghost predicate Genuine(s: State, a: Id)
    requires a in s.attempts
  {
    && (s.attempts[a].pc == Done(Replay) ==> exists b :: b != a && Recorded(s, b, s.attempts[a].key))
    && (s.backend.Files? && a in s.backend.content ==> s.attempts[a].pc.Writing? || (s.attempts[a].pc.Done? && s.attempts[a].pc != Done(Replay)))
  }

  ghost predicate ReplaysAreGenuine(s: State) {
    && (forall a :: a in s.attempts ==> Genuine(s, a))
    && (s.backend.Memory? ==> forall k :: k in s.backend.store.entries ==> exists b :: Recorded(s, b, k))
  }

  lemma StepKeepsRecorded(lim: Limits, s: State, l: Label, b: Id, key: string)
    requires Recorded(s, b, key) && Step(lim, s, l).Some?
    ensures Recorded(Step(lim, s, l).value, b, key)
  {
  }

  /** Whoever makes a step that ends in `Replay` found the key recorded by somebody else. */
  lemma TurnedAwayBy(lim: Limits, s: State, l: Label) returns (b: Id)
    requires FilesHaveOwners(s) && ReplaysAreGenuine(s) && Step(lim, s, l).Some?
    requires l.a in s.attempts && s.attempts[l.a].pc != Done(Replay) && Step(lim, s, l).value.attempts[l.a].pc == Done(Replay)
    ensures b != l.a && Recorded(s, b, s.attempts[l.a].key)
  {
    var key := s.attempts[l.a].key;
    if s.backend.Files? {
      b := s.backend.dir[key];
      assert OwnedBy(s, key, b);
      assert Genuine(s, b);
    } else {
      b :| Recorded(s, b, key);
    }
  }

  lemma StepKeepsGenuine(lim: Limits, s: State, l: Label, a: Id)
    requires FilesHaveOwners(s) && ReplaysAreGenuine(s) && Step(lim, s, l).Some? && a in Step(lim, s, l).value.attempts
    ensures Genuine(Step(lim, s, l).value, a)
  {
    var s' := Step(lim, s, l).value;
    if s'.attempts[a].pc == Done(Replay) {
      var b: Id;
      if s.attempts[a].pc == Done(Replay) {
        assert Genuine(s, a);
        b :| b != a && Recorded(s, b, s.attempts[a].key);
      } else {
        b := TurnedAwayBy(lim, s, l);
      }
      StepKeepsRecorded(lim, s, l, b, s.attempts[a].key);
    }
    assert a in s.attempts ==> Genuine(s, a);
  }

  lemma StepKeepsReplaysGenuine(lim: Limits, s: State, l: Label)
    requires FilesHaveOwners(s) && ReplaysAreGenuine(s) && Step(lim, s, l).Some?
    ensures ReplaysAreGenuine(Step(lim, s, l).value)
  {
    var s' := Step(lim, s, l).value;
    forall a | a in s'.attempts
      ensures Genuine(s', a)
    {
      StepKeepsGenuine(lim, s, l, a);
    }
    if s'.backend.Memory? {
      forall k | k in s'.backend.store.entries
        ensures exists b :: Recorded(s', b, k)
      {
        StepKeepsCause(lim, s, l, k);
      }
    }
  }

  lemma StepKeepsCause(lim: Limits, s: State, l: Label, k: string)
    requires s.backend.Memory? && ReplaysAreGenuine(s) && Step(lim, s, l).Some?
    requires k in Step(lim, s, l).value.backend.store.entries
    ensures exists b :: Recorded(Step(lim, s, l).value, b, k)
  {
    if k in s.backend.store.entries {
      var b :| Recorded(s, b, k);
      StepKeepsRecorded(lim, s, l, b, k);
    } else {
      SweepMeaning(lim, s.backend.store, s.attempts[l.a].now);
      assert Recorded(Step(lim, s, l).value, l.a, k);
    }
  }

  lemma {:induction false} RunKeepsReplaysGenuine(lim: Limits, s0: State, run: seq<Label>)
    requires Initial(s0) && Exec(lim, s0, run).Some?
    ensures FilesHaveOwners(Exec(lim, s0, run).value) && ReplaysAreGenuine(Exec(lim, s0, run).value)
  {
    if run != [] {
      var before := run[..|run| - 1];
      RunKeepsReplaysGenuine(lim, s0, before);
      StepKeepsOwners(lim, Exec(lim, s0, before).value, run[|run| - 1]);
      StepKeepsReplaysGenuine(lim, Exec(lim, s0, before).value, run[|run| - 1]);
    }
  }

  /** An attempt turned away as a replay lost to another attempt for the same key that was recorded. */
  lemma ReplayHasAWinner(lim: Limits, s: State, a: Id)
    requires Reachable(lim, s) && a in s.attempts && s.attempts[a].pc == Done(Replay)
    ensures exists b :: b != a && Recorded(s, b, s.attempts[a].key)
  {
    var s0, run :| Initial(s0) && Exec(lim, s0, run) == Some(s);
    RunKeepsReplaysGenuine(lim, s0, run);
  }
}
