/** Signing-key rotation: any number of rotations, a lock file, two atomic file replacements, crashes anywhere. */
module Rotation {
  import opened Prelude
  import opened Jwks

  // ---------------------------------------------------------------- the keys that a rotation retains

  /** The keys of the overlap file that neither the retiring nor the new key replaces. */
  function Keep(overlap: seq<Jwk>, current: string, next: string): (kept: seq<Jwk>)
    ensures forall k :: k in kept <==> k in overlap && k.kid != current && k.kid != next
  {
    if overlap == [] then []
    else
      var before, last := Keep(overlap[..|overlap| - 1], current, next), overlap[|overlap| - 1];
      if last.kid != current && last.kid != next then before + [last] else before
  }

  /** The overlap file that `rotate_signing_key` stages; `rotate_pqc_key` puts the retiring key first. */
  function Retained(overlap: seq<Jwk>, current: Jwk, next: Jwk, pqc: bool): (r: seq<Jwk>)
    ensures forall k :: k in r <==> k == current || (k in overlap && k.kid != current.kid && k.kid != next.kid)
  {
    if pqc then [current] + Keep(overlap, current.kid, next.kid) else Keep(overlap, current.kid, next.kid) + [current]
  }

  method BuildRetained(overlap: seq<Jwk>, current: Jwk, next: Jwk) returns (retained: seq<Jwk>)
    ensures retained == Retained(overlap, current, next, false)
  {
    retained := [];
    for i := 0 to |overlap|
      invariant retained == Keep(overlap[..i], current.kid, next.kid)
    {
      assert overlap[..i + 1][..i] == overlap[..i];
      if overlap[i].kid != current.kid && overlap[i].kid != next.kid {
        retained := retained + [overlap[i]];
      }
    }
    assert overlap[..|overlap|] == overlap;
    retained := retained + [current];
  }

  // ---------------------------------------------------------------- the protocol

  datatype Process =
    | Locked                                                             // holds the lock, has read nothing yet
    | Loaded(current: Jwk)
    | Generated(current: Jwk, next: Jwk)
    | Read(current: Jwk, next: Jwk, overlap: seq<Jwk>, pqc: bool)
    | Staged(current: Jwk, next: Jwk)                                   // has replaced the overlap file
    | Replaced                                                           // has replaced the key file
    | Peeked(current: Jwk, overlap: seq<Jwk>)                            // `rotate_pqc_key` before it asks for the lock
    | Ended
    | Crashed

  /** `ever` remembers every key that has been the active signing key. */
  datatype State = State(lock: Option<nat>, active: Jwk, overlap: seq<Jwk>, procs: map<nat, Process>, ever: set<Jwk>)

  datatype Label =
    | Acquire(p: nat)                // create the lock file
    | Generate(p: nat, key: Jwk)
    | Go(p: nat)                     // the process's next own step
    | Fail(p: nat)                   // an error return, which drops the lock
    | Crash(p: nat)                  // the process dies and leaves the lock file behind
    | ClearStaleLock                 // an operator removes the lock file of a dead process
    | Peek(p: nat)                   // `rotate_pqc_key` reads both files without the lock
    | AcquirePqc(p: nat, key: Jwk)   // and only then takes it and generates its key

  predicate Holds(proc: Process) {
    !(proc.Ended? || proc.Crashed? || proc.Peeked?)
  }

  ghost predicate Fresh(s: State, key: Jwk) {
    forall k :: k in s.ever ==> k.kid != key.kid
  }

  function Put(s: State, p: nat, proc: Process): State {
    s.(procs := s.procs[p := proc])
  }

  ghost function Step(s: State, l: Label): Option<State> {
    match l
    case Acquire(p) => if p !in s.procs && s.lock.None? then Some(Put(s.(lock := Some(p)), p, Locked)) else None
    case Peek(p) => if p !in s.procs then Some(Put(s, p, Peeked(s.active, s.overlap))) else None
    case ClearStaleLock =>
      if s.lock.Some? && s.lock.value in s.procs && s.procs[s.lock.value].Crashed? then Some(s.(lock := None)) else None
    case Generate(p, key) =>
      if p in s.procs && s.procs[p].Loaded? && Fresh(s, key) then Some(Put(s, p, Generated(s.procs[p].current, key))) else None
    case AcquirePqc(p, key) =>
      if p in s.procs && s.procs[p].Peeked? && s.lock.None? && Fresh(s, key)
      then Some(Put(s.(lock := Some(p)), p, Read(s.procs[p].current, key, s.procs[p].overlap, true))) else None
    case Fail(p) => if p in s.procs && Holds(s.procs[p]) then Some(Put(s.(lock := None), p, Ended)) else None
    case Crash(p) => if p in s.procs && Holds(s.procs[p]) then Some(Put(s, p, Crashed)) else None
    case Go(p) =>
      if p !in s.procs then None
      else
        match s.procs[p]
        case Locked => Some(Put(s, p, Loaded(s.active)))
        case Generated(current, next) => Some(Put(s, p, Read(current, next, s.overlap, false)))
        case Read(current, next, overlap, pqc) =>
          Some(Put(s.(overlap := Retained(overlap, current, next, pqc)), p, Staged(current, next)))
        case Staged(_, next) => Some(Put(s.(active := next, ever := s.ever + {next}), p, Replaced))
        case Replaced => Some(Put(s.(lock := None), p, Ended))
        case _ => None
  }

  ghost function Exec(s: State, run: seq<Label>): Option<State> {
    if run == [] then Some(s)
    else
      var t := Exec(s, run[..|run| - 1]);
      if t.None? then None else Step(t.value, run[|run| - 1])
  }

  /** Any active key and any overlap file to begin with. */
  predicate Initial(s: State) {
    s.lock.None? && s.procs == map[] && s.ever == {s.active}
  }

  /** When a PQC rotation takes the lock, the key file still holds the key that it has read. */
  ghost predicate Undisturbed(s: State, l: Label) {
    l.AcquirePqc? && l.p in s.procs && s.procs[l.p].Peeked? ==> s.procs[l.p].current == s.active
  }

  ghost predicate RunsUndisturbed(s: State, run: seq<Label>) {
    run != [] ==>
      var before, last := run[..|run| - 1], run[|run| - 1];
      RunsUndisturbed(s, before) && (Exec(s, before).Some? ==> Undisturbed(Exec(s, before).value, last))
  }

  // ---------------------------------------------------------------- what every step keeps

  /** The overlap file holds the key, and holds no other key under its id. */
  ghost predicate Overlaps(overlap: seq<Jwk>, k: Jwk) {
    k in overlap && forall x :: x in overlap && x.kid == k.kid ==> x == k
  }

  /** The overlap keys hold every key that was active before the current one. */
  ghost predicate Covers(s: State, overlap: seq<Jwk>) {
    forall k :: k in s.ever && k != s.active ==> Overlaps(overlap, k)
  }

  /** What a process has read is still good enough for what it is going to do. */
  ghost predicate InStep(s: State, proc: Process) {
    match proc
    case Loaded(current) => current == s.active
    case Generated(current, next) => current == s.active && Fresh(s, next)
    case Read(current, next, overlap, _) => current == s.active && Fresh(s, next) && Covers(s, overlap)
    case Staged(current, next) => current == s.active && Fresh(s, next) && Overlaps(s.overlap, current)
    case Peeked(current, overlap) => current in s.ever && (current == s.active ==> Covers(s, overlap))
    case _ => true
  }

  /** Whoever is past the lock holds it, and it is held by nobody else but a process that died there. */
  ghost predicate HoldsLock(s: State) {
    && (forall p :: p in s.procs && Holds(s.procs[p]) ==> s.lock == Some(p))
    && (s.lock.Some? ==> s.lock.value in s.procs && (Holds(s.procs[s.lock.value]) || s.procs[s.lock.value].Crashed?))
  }

  ghost predicate Inv(s: State) {
    && OneKeyPerId(s)
    && Covers(s, s.overlap)
    && HoldsLock(s)
    && (forall p :: p in s.procs ==> InStep(s, s.procs[p]))
  }

  ghost predicate OneKeyPerId(s: State) {
    s.active in s.ever && forall k, m :: k in s.ever && m in s.ever && k.kid == m.kid ==> k == m
  }

  lemma StepKeepsLock(s: State, l: Label)
    requires HoldsLock(s) && Step(s, l).Some?
    ensures HoldsLock(Step(s, l).value)
  {
  }

  lemma StepKeepsIds(s: State, l: Label)
    requires Inv(s) && Step(s, l).Some?
    ensures OneKeyPerId(Step(s, l).value)
  {
    if l.Go? {
      assert InStep(s, s.procs[l.p]);
    }
  }

  /** Staging from a covering overlap covers, the retiring key included. */
  lemma RetainedCovers(s: State, overlap: seq<Jwk>, next: Jwk, pqc: bool)
    requires OneKeyPerId(s) && Covers(s, overlap) && Fresh(s, next)
    ensures forall k :: k in s.ever ==> Overlaps(Retained(overlap, s.active, next, pqc), k)
  {
  }

  lemma StepKeepsCover(s: State, l: Label)
    requires Inv(s) && Step(s, l).Some?
    ensures Covers(Step(s, l).value, Step(s, l).value.overlap)
  {
    if l.Go? {
      var proc := s.procs[l.p];
      assert InStep(s, proc);
      if proc.Read? {
        RetainedCovers(s, proc.overlap, proc.next, proc.pqc);
      }
    }
  }

  lemma StepKeepsInStep(s: State, l: Label, p: nat)
    requires Inv(s) && Undisturbed(s, l) && Step(s, l).Some? && p in Step(s, l).value.procs
    ensures InStep(Step(s, l).value, Step(s, l).value.procs[p])
  {
    assert p in s.procs ==> InStep(s, s.procs[p]);
    if l.Go? {
      var proc := s.procs[l.p];
      assert InStep(s, proc);
      assert p != l.p && Holds(proc) ==> !Holds(s.procs[p]);
      if proc.Read? {
        RetainedCovers(s, proc.overlap, proc.next, proc.pqc);
      }
    }
  }

  lemma StepKeepsInv(s: State, l: Label)
    requires Inv(s) && Undisturbed(s, l) && Step(s, l).Some?
    ensures Inv(Step(s, l).value)
  {
    var s' := Step(s, l).value;
    StepKeepsLock(s, l);
    StepKeepsIds(s, l);
    StepKeepsCover(s, l);
    forall p | p in s'.procs
      ensures InStep(s', s'.procs[p])
    {
      StepKeepsInStep(s, l, p);
    }
  }

  /** An active key changes only to one that was never active before. */
  ghost predicate Since(s: State, t: State) {
    s.ever <= t.ever && (t.active == s.active || t.active !in s.ever)
  }

  lemma StepSince(s: State, l: Label)
    requires Inv(s) && Step(s, l).Some?
    ensures Since(s, Step(s, l).value)
  {
  }

  lemma {:induction false} RunKeepsInv(s0: State, run: seq<Label>, i: nat)
    requires Initial(s0) && RunsUndisturbed(s0, run) && Exec(s0, run).Some? && i <= |run|
    ensures Exec(s0, run[..i]).Some? && Inv(Exec(s0, run[..i]).value) && Inv(Exec(s0, run).value)
    ensures Since(Exec(s0, run[..i]).value, Exec(s0, run).value)
  {
    if run == [] {
      assert run[..i] == run;
    } else {
      var before := run[..|run| - 1];
      var j := if i == |run| then |run| - 1 else i;
      assert before[..j] == run[..j];
      RunKeepsInv(s0, before, j);
      StepKeepsInv(Exec(s0, before).value, run[|run| - 1]);
      StepSince(Exec(s0, before).value, run[|run| - 1]);
      if i == |run| {
        assert run[..i] == run;
      }
    }
  }

  lemma {:induction false} UndisturbedPrefix(s0: State, run: seq<Label>, i: nat)
    requires RunsUndisturbed(s0, run) && i <= |run|
    ensures RunsUndisturbed(s0, run[..i])
  {
    if i == |run| {
      assert run[..i] == run;
    } else {
      var before := run[..|run| - 1];
      assert before[..i] == run[..i];
      UndisturbedPrefix(s0, before, i);
    }
  }

  lemma {:induction false} FindOnly(keys: seq<Jwk>, k: Jwk)
    requires Overlaps(keys, k)
    ensures Find(keys, k.kid) == Some(k)
  {
    if keys[0] != k {
      assert keys[0] in keys;
      FindOnly(keys[1..], k);
    }
  }

  /**
   * No rotation, and no crash of one, loses a key: a server that reads the key file at some point of the run and the
   * overlap file at the same or a later point publishes every key that was active up to then, under an id that
   * finds exactly that key.
   */
  lemma NoKeyIsLost(s0: State, run: seq<Label>, i: nat, k: Jwk)
    requires Initial(s0) && RunsUndisturbed(s0, run) && Exec(s0, run).Some? && i <= |run|
    requires Exec(s0, run[..i]).Some? && k in Exec(s0, run[..i]).value.ever
    ensures var published := Publish(Exec(s0, run[..i]).value.active, Exec(s0, run).value.overlap);
      Find(published, k.kid) == Some(k)
  {
    RunKeepsInv(s0, run, i);
    var s, t := Exec(s0, run[..i]).value, Exec(s0, run).value;
    PublishedLookup(s.active, t.overlap, k.kid);
    if k != s.active {
      FindOnly(t.overlap, k);
    }
  }

  lemma {:induction false} RunKeepsLock(s0: State, run: seq<Label>)
    requires Initial(s0) && Exec(s0, run).Some?
    ensures HoldsLock(Exec(s0, run).value)
  {
    if run != [] {
      RunKeepsLock(s0, run[..|run| - 1]);
      StepKeepsLock(Exec(s0, run[..|run| - 1]).value, run[|run| - 1]);
    }
  }

  /** The lock does its work, whatever was read before it: at most one live rotation is past it. */
  lemma OneRotationAtATime(s0: State, run: seq<Label>, p: nat, q: nat)
    requires Initial(s0) && Exec(s0, run).Some?
    requires var s := Exec(s0, run).value; p in s.procs && Holds(s.procs[p]) && q in s.procs && Holds(s.procs[q])
    ensures p == q
  {
    RunKeepsLock(s0, run);
  }

  /** And it is given back: a lock file that is there belongs to a live rotation or to one that died. */
  lemma LockIsGivenBack(s0: State, run: seq<Label>)
    requires Initial(s0) && Exec(s0, run).Some? && Exec(s0, run).value.lock.Some?
    ensures var s := Exec(s0, run).value;
      s.lock.value in s.procs && (Holds(s.procs[s.lock.value]) || s.procs[s.lock.value].Crashed?)
  {
    RunKeepsLock(s0, run);
  }

  // ---------------------------------------------------------------- a rotation rotates

  lemma ExecAlso(s0: State, run: seq<Label>, l: Label)
    requires Exec(s0, run).Some?
    ensures Exec(s0, run + [l]) == Step(Exec(s0, run).value, l)
  {
    assert (run + [l])[..|run|] == run;
  }

  /** The state in which `p` is at `proc` and holds the lock, over these files. */
  ghost function Past(s: State, p: nat, proc: Process, active: Jwk, overlap: seq<Jwk>, ever: set<Jwk>): State {
    State(Some(p), active, overlap, s.procs[p := proc], ever)
  }

  /** From reading the files on, every rotation stages, replaces and ends. */
  lemma Stages(s: State, p: nat, current: Jwk, key: Jwk, overlap: seq<Jwk>, pqc: bool)
    ensures Step(Past(s, p, Read(current, key, overlap, pqc), s.active, s.overlap, s.ever), Go(p)) ==
      Some(Past(s, p, Staged(current, key), s.active, Retained(overlap, current, key, pqc), s.ever))
  {
    assert s.procs[p := Read(current, key, overlap, pqc)][p := Staged(current, key)] == s.procs[p := Staged(current, key)];
  }

  lemma Replaces(s: State, p: nat, current: Jwk, key: Jwk, overlap: seq<Jwk>)
    ensures Step(Past(s, p, Staged(current, key), s.active, overlap, s.ever), Go(p)) == Some(Past(s, p, Replaced, key, overlap, s.ever + {key}))
  {
    assert s.procs[p := Staged(current, key)][p := Replaced] == s.procs[p := Replaced];
  }

  lemma Ends(s: State, p: nat, key: Jwk, overlap: seq<Jwk>, ever: set<Jwk>)
    ensures Step(Past(s, p, Replaced, key, overlap, ever), Go(p)) == Some(State(None, key, overlap, s.procs[p := Ended], ever))
  {
    assert s.procs[p := Replaced][p := Ended] == s.procs[p := Ended];
  }

  /** What `rotate_signing_key` does up to there. */
  lemma RsaLocksAndReads(s: State, p: nat, key: Jwk)
    requires s.lock.None? && p !in s.procs && Fresh(s, key)
    ensures Step(s, Acquire(p)) == Some(Past(s, p, Locked, s.active, s.overlap, s.ever))
    ensures Step(Past(s, p, Locked, s.active, s.overlap, s.ever), Go(p)) == Some(Past(s, p, Loaded(s.active), s.active, s.overlap, s.ever))
    ensures Step(Past(s, p, Loaded(s.active), s.active, s.overlap, s.ever), Generate(p, key)) ==
      Some(Past(s, p, Generated(s.active, key), s.active, s.overlap, s.ever))
    ensures Step(Past(s, p, Generated(s.active, key), s.active, s.overlap, s.ever), Go(p)) ==
      Some(Past(s, p, Read(s.active, key, s.overlap, false), s.active, s.overlap, s.ever))
  {
    assert s.procs[p := Locked][p := Loaded(s.active)] == s.procs[p := Loaded(s.active)];
    assert s.procs[p := Loaded(s.active)][p := Generated(s.active, key)] == s.procs[p := Generated(s.active, key)];
    assert s.procs[p := Generated(s.active, key)][p := Read(s.active, key, s.overlap, false)] == s.procs[p := Read(s.active, key, s.overlap, false)];
  }

  function RsaSteps(run: seq<Label>, p: nat, key: Jwk): seq<Label> {
    run + [Acquire(p)] + [Go(p)] + [Generate(p, key)] + [Go(p)] + [Go(p)] + [Go(p)] + [Go(p)]
  }

  /** Both files hold what an undisturbed rotation to `key` leaves in them. */
  ghost predicate Rotated(s: State, t: State, p: nat, key: Jwk) {
    && t.lock.None? && t.active == key && t.ever == s.ever + {key} && t.procs == s.procs[p := Ended]
    && forall k :: k in t.overlap <==> k == s.active || (k in s.overlap && k.kid != s.active.kid && k.kid != key.kid)
  }

  /** An RSA rotation that nobody disturbs makes its key the active one and keeps the old one and the overlap. */
  lemma RsaRotates(s0: State, run: seq<Label>, s: State, p: nat, key: Jwk)
    requires Exec(s0, run) == Some(s) && s.lock.None? && p !in s.procs && Fresh(s, key)
    ensures Exec(s0, RsaSteps(run, p, key)).Some? && Rotated(s, Exec(s0, RsaSteps(run, p, key)).value, p, key)
  {
    var overlap := Retained(s.overlap, s.active, key, false);
    RsaLocksAndReads(s, p, key);
    ExecAlso(s0, run, Acquire(p));
    var run1 := run + [Acquire(p)];
    ExecAlso(s0, run1, Go(p));
    var run2 := run1 + [Go(p)];
    ExecAlso(s0, run2, Generate(p, key));
    var run3 := run2 + [Generate(p, key)];
    ExecAlso(s0, run3, Go(p));
    Stages(s, p, s.active, key, s.overlap, false);
    var run4 := run3 + [Go(p)];
    ExecAlso(s0, run4, Go(p));
    Replaces(s, p, s.active, key, overlap);
    var run5 := run4 + [Go(p)];
    ExecAlso(s0, run5, Go(p));
    Ends(s, p, key, overlap, s.ever + {key});
    ExecAlso(s0, run5 + [Go(p)], Go(p));
  }

  /** In the run, process `p` generated this key. */
  ghost predicate Chose(run: seq<Label>, p: nat, key: Jwk) {
    Generate(p, key) in run || AcquirePqc(p, key) in run
  }

  /** A process goes on with the key that it generated, and one that is through has made it active. */
  ghost predicate TrueTo(s: State, run: seq<Label>, p: nat)
    requires p in s.procs
  {
    match s.procs[p]
    case Locked => NoneChosen(run, p)
    case Loaded(_) => NoneChosen(run, p)
    case Peeked(_, _) => NoneChosen(run, p)
    case Generated(_, next) => OnlyChose(run, p, next)
    case Read(_, next, _, _) => OnlyChose(run, p, next)
    case Staged(_, next) => OnlyChose(run, p, next)
    case Replaced => MadeActive(s, run, p)
    case Ended => Fail(p) in run || MadeActive(s, run, p)
    case Crashed => true
  }

  ghost predicate NoneChosen(run: seq<Label>, p: nat) {
    forall key :: !Chose(run, p, key)
  }

  ghost predicate OnlyChose(run: seq<Label>, p: nat, next: Jwk) {
    Chose(run, p, next) && forall key :: Chose(run, p, key) ==> key == next
  }

  ghost predicate MadeActive(s: State, run: seq<Label>, p: nat) {
    (exists key :: Chose(run, p, key)) && forall key :: Chose(run, p, key) ==> key in s.ever
  }

  /** What the run so far has to do with where a process is. */
  ghost predicate Story(s: State, run: seq<Label>, p: nat) {
    if p in s.procs then TrueTo(s, run, p) else NoneChosen(run, p) && Fail(p) !in run
  }

  lemma ChoseAlso(run: seq<Label>, l: Label, p: nat, key: Jwk)
    ensures Chose(run + [l], p, key) <==> Chose(run, p, key) || l == Generate(p, key) || l == AcquirePqc(p, key)
  {
  }

  /** A step of somebody else changes nothing about it. */
  lemma OthersStayTrue(s: State, run: seq<Label>, l: Label, p: nat)
    requires Story(s, run, p) && Step(s, l).Some? && (l.ClearStaleLock? || l.p != p)
    ensures Story(Step(s, l).value, run + [l], p)
  {
    forall key
      ensures Chose(run + [l], p, key) <==> Chose(run, p, key)
    {
      ChoseAlso(run, l, p, key);
    }
  }

  lemma OwnStepStaysTrue(s: State, run: seq<Label>, l: Label)
    requires !l.ClearStaleLock? && Story(s, run, l.p) && Step(s, l).Some?
    ensures Story(Step(s, l).value, run + [l], l.p)
  {
    forall key
      ensures Chose(run + [l], l.p, key) <==> Chose(run, l.p, key) || l == Generate(l.p, key) || l == AcquirePqc(l.p, key)
    {
      ChoseAlso(run, l, l.p, key);
    }
  }

  lemma {:induction false} RunStaysTrue(s0: State, run: seq<Label>, p: nat)
    requires Initial(s0) && Exec(s0, run).Some?
    ensures Story(Exec(s0, run).value, run, p)
  {
    if run != [] {
      var before, l := run[..|run| - 1], run[|run| - 1];
      RunStaysTrue(s0, before, p);
      assert run == before + [l];
      if !l.ClearStaleLock? && l.p == p {
        OwnStepStaysTrue(Exec(s0, before).value, before, l);
      } else {
        OthersStayTrue(Exec(s0, before).value, before, l, p);
      }
    }
  }

  /** In every run, a rotation that came to its end without failing has made the key that it generated the active one. */
  lemma FinishedHasRotated(s0: State, run: seq<Label>, p: nat)
    requires Initial(s0) && Exec(s0, run).Some? && p in Exec(s0, run).value.procs && Fail(p) !in run
    requires Exec(s0, run).value.procs[p].Replaced? || Exec(s0, run).value.procs[p].Ended?
    ensures exists key :: Chose(run, p, key) && key in Exec(s0, run).value.ever
  {
    RunStaysTrue(s0, run, p);
  }

  // ---------------------------------------------------------------- and without the condition

  ghost predicate Loses(s: State, k: Jwk) {
    k in s.ever && Find(Publish(s.active, s.overlap), k.kid).None?
  }

  lemma PqcLocks(s: State, p: nat, key: Jwk)
    requires p in s.procs && s.procs[p].Peeked? && s.lock.None? && Fresh(s, key)
    ensures Step(s, AcquirePqc(p, key)) ==
      Some(Past(s, p, Read(s.procs[p].current, key, s.procs[p].overlap, true), s.active, s.overlap, s.ever))
  {
  }

  function PqcSteps(run: seq<Label>, p: nat, key: Jwk): seq<Label> {
    run + [AcquirePqc(p, key)] + [Go(p)] + [Go(p)] + [Go(p)]
  }

  /** The steps of a PQC rotation after its read, with nobody else moving. */
  lemma RotateFromPeek(s0: State, run: seq<Label>, s: State, p: nat, key: Jwk)
    requires Exec(s0, run) == Some(s) && p in s.procs && s.procs[p].Peeked? && s.lock.None? && Fresh(s, key)
    ensures var r := s.procs[p];
      Exec(s0, PqcSteps(run, p, key)) == Some(State(None, key, Retained(r.overlap, r.current, key, true), s.procs[p := Ended], s.ever + {key}))
  {
    var r := s.procs[p];
    var overlap := Retained(r.overlap, r.current, key, true);
    PqcLocks(s, p, key);
    ExecAlso(s0, run, AcquirePqc(p, key));
    Stages(s, p, r.current, key, r.overlap, true);
    ExecAlso(s0, run + [AcquirePqc(p, key)], Go(p));
    Replaces(s, p, r.current, key, overlap);
    ExecAlso(s0, run + [AcquirePqc(p, key)] + [Go(p)], Go(p));
    Ends(s, p, key, overlap, s.ever + {key});
    ExecAlso(s0, run + [AcquirePqc(p, key)] + [Go(p)] + [Go(p)], Go(p));
  }

  /**
   * The condition is exact: a PQC rotation that takes the lock when the key file holds another key than it has read, and
   * goes on, loses that key, unless the overlap file that it has read happened to list the key's id already.
   */
  lemma DisturbedPqcLosesTheActiveKey(s0: State, run: seq<Label>, s: State, p: nat, key: Jwk)
    requires Exec(s0, run) == Some(s) && Inv(s) && s.lock.None? && Fresh(s, key)
    requires p in s.procs && s.procs[p].Peeked? && !Undisturbed(s, AcquirePqc(p, key))
    requires forall x :: x in s.procs[p].overlap ==> x.kid != s.active.kid
    ensures Exec(s0, PqcSteps(run, p, key)).Some? && Loses(Exec(s0, PqcSteps(run, p, key)).value, s.active)
  {
    RotateFromPeek(s0, run, s, p, key);
    var r := s.procs[p];
    assert InStep(s, r);
    PublishedLookup(key, Retained(r.overlap, r.current, key, true), s.active.kid);
  }

  /** And such a state is reached from every initial state: two rotations read, and one of them finishes. */
  lemma DisturbedPqcLosesAKey(s0: State, k1: Jwk, k2: Jwk) returns (run: seq<Label>)
    requires Initial(s0) && Fresh(s0, k1) && Fresh(s0, k2) && k1.kid != k2.kid
    requires forall x :: x in s0.overlap ==> x.kid != k1.kid
    ensures Exec(s0, run).Some? && Loses(Exec(s0, run).value, k1)
  {
    var r := Peeked(s0.active, s0.overlap);
    assert Exec(s0, []) == Some(s0);
    ExecAlso(s0, [], Peek(0));
    ExecAlso(s0, [] + [Peek(0)], Peek(1));
    var peeked, s1 := [] + [Peek(0)] + [Peek(1)], s0.(procs := map[0 := r, 1 := r]);
    assert Exec(s0, peeked) == Some(s1);
    RotateFromPeek(s0, peeked, s1, 0, k1);
    var first := PqcSteps(peeked, 0, k1);
    var s2 := Exec(s0, first).value;
    RotateFromPeek(s0, first, s2, 1, k2);
    run := PqcSteps(first, 1, k2);
    PublishedLookup(k2, Retained(s0.overlap, s0.active, k2, true), k1.kid);
  }
}
