/** What becomes of a single install over any run of the protocol: cache hits, failures, cancellations, success. */
module InstallRuns {
  import opened NodeInstall
  import opened Runs
  import opened Text

  /** The world before the `k`-th event. */
  function At(start: Tree, events: seq<Event>, pidOf: Install -> Pid, k: nat): World
    requires k <= |events|
  {
    Run(Initial(start), events[..k], pidOf)
  }

  lemma AtNext(start: Tree, events: seq<Event>, pidOf: Install -> Pid, k: nat)
    requires k < |events|
    ensures At(start, events, pidOf, k + 1) == Step(At(start, events, pidOf, k), events[k], pidOf(events[k].install))
  {
    assert events[..k + 1] == events[..k] + [events[k]];
    RunSnoc(Initial(start), events[..k], events[k], pidOf);
  }

  lemma AtEarlier(start: Tree, events: seq<Event>, pidOf: Install -> Pid, n: nat, k: nat)
    requires k <= n <= |events|
    ensures At(start, events[..n], pidOf, k) == At(start, events, pidOf, k)
  {
    assert events[..n][..k] == events[..k];
  }

  lemma AtEnd(start: Tree, events: seq<Event>, pidOf: Install -> Pid)
    ensures At(start, events, pidOf, |events|) == Run(Initial(start), events, pidOf)
  {
    assert events[..|events|] == events;
  }

  function StepsOf(events: seq<Event>, t: Install): nat {
    if events == [] then 0
    else StepsOf(events[..|events| - 1], t) + if events[|events| - 1].install == t then 1 else 0
  }

  /** What is renamed into place was staged complete, from an archive that passed its checksum. */
  lemma OnlyVerifiedIsRenamed(start: Tree, events: seq<Event>, pidOf: Install -> Pid, k: nat)
    requires k < |events|
    ensures var w, w' := At(start, events, pidOf, k), At(start, events, pidOf, k + 1);
            w'.renames != w.renames
            ==> StagedOf(w, pidOf(events[k].install)) == Complete(true) && w'.dir == Complete(true)
  {
    var w, t := At(start, events, pidOf, k), events[k].install;
    AtNext(start, events, pidOf, k);
    OnlyVerifiedTreesArePublished(start, events[..k], pidOf);
    assert InstallSound(w, t, pidOf(t));
    RenameMove(PcOf(w, t), events[k].choice, w.dir, StagedOf(w, pidOf(t)), pidOf(t) !in w.locks);
  }

  lemma RenameMove(pc: Pc, choice: Choice, dir: Tree, staged: Tree, free: bool)
    requires LocalSound(pc, staged)
    ensures var m := Next(pc, choice, dir, staged, free);
            m.published ==> staged == Complete(true) && m.dir == Complete(true)
  {
  }

  // The cache.

  /** Positions that only an install whose first check failed reaches. */
  predicate PastCheck(pc: Pc) {
    match pc
    case Waiting | Checking | Managed => false
    case Failed(error) => error.Download? || error.Checksum? || error.Extract?
    case _ => true
  }

  lemma FirstCheckMove(choice: Choice, dir: Tree, staged: Tree, free: bool)
    ensures Next(Checking, choice, dir, staged, free).pc
         == if choice == Cancel then Failed(Canceled) else if Works(dir) then Managed else Downloading
  {
  }

  lemma PastCheckMove(pc: Pc, choice: Choice, dir: Tree, staged: Tree, free: bool)
    requires !PastCheck(pc) && PastCheck(Next(pc, choice, dir, staged, free).pc)
    ensures pc.Checking? && choice != Cancel && !Works(dir)
  {
  }

  /** The first check ends every way it can: canceled, served from the cache, or in a download. */
  lemma FirstCheckDecides(start: Tree, events: seq<Event>, pidOf: Install -> Pid, k: nat, t: Install)
    requires k < |events| && PcOf(At(start, events, pidOf, k), t).Checking?
    ensures PcOf(At(start, events, pidOf, k + 1), t)
         == if events[k].install != t then Checking
            else if events[k].choice == Cancel then Failed(Canceled)
            else if Works(At(start, events, pidOf, k).dir) then Managed
            else Downloading
  {
    AtNext(start, events, pidOf, k);
    var w := At(start, events, pidOf, k);
    FirstCheckMove(events[k].choice, w.dir, StagedOf(w, pidOf(t)), pidOf(t) !in w.locks);
  }

  /**
   * From any start: an install downloads, stages, extracts, publishes, or fails at any of that,
   * only after an uncanceled first check of its own that found the directory not working.
   */
  lemma {:induction false} DownloadsOnlyPastACheck(start: Tree, events: seq<Event>, pidOf: Install -> Pid, t: Install)
    returns (k: nat)
    requires PastCheck(PcOf(Run(Initial(start), events, pidOf), t))
    ensures k < |events| && events[k].install == t && events[k].choice != Cancel
    ensures var w := At(start, events, pidOf, k); PcOf(w, t).Checking? && !Works(w.dir)
  {
    k := 0;
    if events != [] {
      var n := |events| - 1;
      var w, e := At(start, events, pidOf, n), events[n];
      AtNext(start, events, pidOf, n);
      AtEnd(start, events, pidOf);
      if PastCheck(PcOf(w, t)) {
        k := DownloadsOnlyPastACheck(start, events[..n], pidOf, t);
        AtEarlier(start, events, pidOf, n, k);
      } else {
        var pid := pidOf(e.install);
        assert e.install == t;
        PastCheckMove(PcOf(w, t), e.choice, w.dir, StagedOf(w, pid), pid !in w.locks);
        k := n;
      }
    }
  }

  /** An install that has done nothing but wait, check and end. */
  predicate Spared(pc: Pc) { !PastCheck(pc) }

  ghost predicate Untouched(w: World, start: Tree) {
    && w.dir == start && w.renames == 0
    && (forall p: Pid :: StagedOf(w, p) == Absent)
    && (forall t: Install :: Spared(PcOf(w, t)))
  }

  lemma SparedMove(pc: Pc, choice: Choice, dir: Tree, staged: Tree, free: bool)
    requires Spared(pc) && Works(dir)
    ensures var m := Next(pc, choice, dir, staged, free);
            Spared(m.pc) && m.staged == staged && m.dir == dir && !m.published
  {
  }

  lemma StepSpares(w: World, e: Event, pid: Pid, start: Tree)
    requires Works(start) && Untouched(w, start)
    ensures Untouched(Step(w, e, pid), start)
  {
    var t := e.install;
    assert Spared(PcOf(w, t)) && StagedOf(w, pid) == Absent;
    SparedMove(PcOf(w, t), e.choice, w.dir, StagedOf(w, pid), pid !in w.locks);
    var w' := Step(w, e, pid);
    forall u: Install ensures Spared(PcOf(w', u)) {
      assert Spared(PcOf(w, u));
    }
    forall p: Pid ensures StagedOf(w', p) == Absent {
      assert StagedOf(w, p) == Absent;
    }
  }

  /** From a valid directory no install ever downloads, stages or extracts, nor touches the directory. */
  lemma {:induction false} ValidCacheIsReused(start: Tree, events: seq<Event>, pidOf: Install -> Pid)
    requires Works(start)
    ensures Untouched(Run(Initial(start), events, pidOf), start)
  {
    if events != [] {
      var n := |events| - 1;
      var w, e := Run(Initial(start), events[..n], pidOf), events[n];
      ValidCacheIsReused(start, events[..n], pidOf);
      StepSpares(w, e, pidOf(e.install), start);
      AtNext(start, events, pidOf, n);
      AtEnd(start, events, pidOf);
    }
  }

  /** And one own step after taking the lock an install returns that directory, whatever the others do. */
  lemma {:induction false} CacheHitTakesOneStep(
      start: Tree, prefix: seq<Event>, events: seq<Event>, pidOf: Install -> Pid, t: Install)
    requires Works(start) && PcOf(Run(Initial(start), prefix, pidOf), t).Checking?
    requires forall i :: 0 <= i < |events| && events[i].install == t ==> events[i].choice != Cancel
    ensures PcOf(Run(Initial(start), prefix + events, pidOf), t)
         == if StepsOf(events, t) == 0 then Checking else Managed
    decreases |events|
  {
    if events == [] {
      assert prefix + events == prefix;
    } else {
      var n := |events| - 1;
      var sofar := prefix + events[..n];
      var w, pid := Run(Initial(start), sofar, pidOf), pidOf(t);
      CacheHitTakesOneStep(start, prefix, events[..n], pidOf, t);
      ValidCacheIsReused(start, sofar, pidOf);
      FirstCheckMove(events[n].choice, w.dir, StagedOf(w, pid), pid !in w.locks);
      RunSnoc(Initial(start), sofar, events[n], pidOf);
      SplitLast(events);
      AppendAssoc(prefix, events[..n], [events[n]]);
    }
  }

  // The lock and the staging directory.

  /**
   * A waiting install that is not canceled enters if none of its process is inside, and times out
   * only otherwise.
   */
  lemma WaitingDecides(start: Tree, events: seq<Event>, pidOf: Install -> Pid, k: nat, t: Install)
    requires k < |events| && events[k].install == t && PcOf(At(start, events, pidOf, k), t).Waiting?
    ensures var w := At(start, events, pidOf, k);
            PcOf(At(start, events, pidOf, k + 1), t)
              == if events[k].choice == Cancel then Failed(Canceled)
                 else if forall u: Install | pidOf(u) == pidOf(t) :: !Inside(PcOf(w, u)) then Checking
                 else if events[k].choice == Fail then Failed(LockTimeout)
                 else Waiting
  {
    var w := At(start, events, pidOf, k);
    AtNext(start, events, pidOf, k);
    OnlyVerifiedTreesArePublished(start, events[..k], pidOf);
    LocksAreHeld(start, events[..k], pidOf);
    assert forall u: Install :: InstallSound(w, u, pidOf(u));
  }

  /** A lock is only ever held by an install of its process. */
  lemma {:induction false} LocksAreHeld(start: Tree, events: seq<Event>, pidOf: Install -> Pid)
    ensures var w := Run(Initial(start), events, pidOf);
            forall p: Pid :: p in w.locks ==> pidOf(w.locks[p]) == p
  {
    if events != [] {
      var n := |events| - 1;
      LocksAreHeld(start, events[..n], pidOf);
      AtNext(start, events, pidOf, n);
      AtEnd(start, events, pidOf);
    }
  }

  /** Where an install has a staging directory. */
  predicate Stages(pc: Pc) { Publishing(pc) || pc.Extracting? || pc.Rechecking? || pc.Leaving? }

  /** A process's staging directory is there only while the holder of its lock works in it. */
  ghost predicate Tidy(w: World, pidOf: Install -> Pid) {
    forall t: Install :: !Stages(PcOf(w, t)) && Inside(PcOf(w, t)) ==> StagedOf(w, pidOf(t)) == Absent
  }

  ghost predicate TidyOutside(w: World) { forall p: Pid :: p !in w.locks ==> StagedOf(w, p) == Absent }

  lemma TidyMove(pc: Pc, choice: Choice, dir: Tree, staged: Tree, free: bool)
    requires !Stages(pc) ==> staged == Absent
    ensures var m := Next(pc, choice, dir, staged, free); !Stages(m.pc) ==> m.staged == Absent
  {
  }

  /** Over any run nothing is left staged by an install that has ended, however it did. */
  lemma {:induction false} StagingIsCleared(start: Tree, events: seq<Event>, pidOf: Install -> Pid)
    ensures var w := Run(Initial(start), events, pidOf); Tidy(w, pidOf) && TidyOutside(w)
  {
    if events != [] {
      var n := |events| - 1;
      var w, e := Run(Initial(start), events[..n], pidOf), events[n];
      StagingIsCleared(start, events[..n], pidOf);
      OnlyVerifiedTreesArePublished(start, events[..n], pidOf);
      LocksAreHeld(start, events[..n], pidOf);
      AtNext(start, events, pidOf, n);
      AtEnd(start, events, pidOf);
      StepStaysTidy(w, e, pidOf);
    }
  }

  lemma StepStaysTidy(w: World, e: Event, pidOf: Install -> Pid)
    requires Sound(w, pidOf) && Tidy(w, pidOf) && TidyOutside(w)
    requires forall p: Pid :: p in w.locks ==> pidOf(w.locks[p]) == p
    ensures var w' := Step(w, e, pidOf(e.install)); Tidy(w', pidOf) && TidyOutside(w')
  {
    var t, pid := e.install, pidOf(e.install);
    var w' := Step(w, e, pid);
    assert InstallSound(w, t, pid);
    MoveMindsLock(PcOf(w, t), e.choice, w.dir, StagedOf(w, pid), pid !in w.locks);
    MoveMindsStaging(PcOf(w, t), e.choice, w.dir, StagedOf(w, pid), pid !in w.locks);
    if Inside(PcOf(w, t)) || pid !in w.locks {
      TidyMove(PcOf(w, t), e.choice, w.dir, StagedOf(w, pid), pid !in w.locks);
    }
    forall u: Install | !Stages(PcOf(w', u)) && Inside(PcOf(w', u)) ensures StagedOf(w', pidOf(u)) == Absent {
      assert InstallSound(w, u, pidOf(u));
    }
  }

  // Failures and their causes.

  /** Failed with `error`, or bound to. */
  predicate Blames(pc: Pc, error: Error) {
    pc == Failed(error) || pc == Leaving(Some(error)) || (error.Checksum? && pc == Verifying(false))
  }

  /** What has to happen for `error`. */
  predicate Causes(pc: Pc, choice: Choice, dir: Tree, free: bool, error: Error) {
    match error
    case Canceled => choice == Cancel
    case LockTimeout => choice == Fail && pc.Waiting? && !free
    case Download => choice == Fail && (pc.Downloading? || pc.Verifying?)
    case Checksum => choice == Corrupt && (pc.Downloading? || pc.Verifying?)
    case Extract =>
      (choice == Fail && (pc.Staging? || pc.Extracting?)) || (!Works(dir) && (pc.Rechecking? || pc.FinalCheck?))
  }

  lemma BlameMove(pc: Pc, choice: Choice, dir: Tree, staged: Tree, free: bool, error: Error)
    requires !Blames(pc, error) && Blames(Next(pc, choice, dir, staged, free).pc, error)
    ensures Causes(pc, choice, dir, free, error)
  {
  }

  /**
   * From any start, an install that failed had a step of its own that the failure is due to: no
   * checksum error without a corrupt archive, none canceled that was not canceled, none timed out
   * while the lock was free, and so on.
   */
  lemma {:induction false} FailureHasItsCause(
      start: Tree, events: seq<Event>, pidOf: Install -> Pid, t: Install, error: Error)
    returns (k: nat)
    requires Blames(PcOf(Run(Initial(start), events, pidOf), t), error)
    ensures k < |events| && events[k].install == t
    ensures var w := At(start, events, pidOf, k);
            Causes(PcOf(w, t), events[k].choice, w.dir, pidOf(t) !in w.locks, error)
  {
    k := 0;
    if events != [] {
      var n := |events| - 1;
      var w, e := At(start, events, pidOf, n), events[n];
      AtNext(start, events, pidOf, n);
      AtEnd(start, events, pidOf);
      if Blames(PcOf(w, t), error) {
        k := FailureHasItsCause(start, events[..n], pidOf, t, error);
        AtEarlier(start, events, pidOf, n, k);
      } else {
        var pid := pidOf(e.install);
        assert e.install == t;
        BlameMove(PcOf(w, t), e.choice, w.dir, StagedOf(w, pid), pid !in w.locks, error);
        k := n;
      }
    }
  }

  lemma SetbackMove(pc: Pc, choice: Choice, dir: Tree, staged: Tree, free: bool)
    requires choice == Fail || choice == Corrupt || pc == Verifying(false) || pc.Leaving?
    ensures var next := Next(pc, choice, dir, staged, free).pc;
            && ((pc.Downloading? || pc.Verifying?) && choice == Fail ==> next == Failed(Download))
            && ((pc.Downloading? || pc.Verifying?) && choice == Corrupt ==> Blames(next, Checksum))
            && (pc == Verifying(false) ==> next.Failed?)
            && ((pc.Staging? || pc.Extracting?) && choice == Fail ==> Blames(next, Extract))
            && (pc.Leaving? && pc.result.Some? ==> next == Failed(pc.result.value))
  {
  }

  /** What goes wrong ends the install, with the error for it: nothing is published after a failure. */
  lemma SetbacksEndIt(start: Tree, events: seq<Event>, pidOf: Install -> Pid, k: nat, t: Install)
    requires k < |events| && events[k].install == t
    ensures var pc, next := PcOf(At(start, events, pidOf, k), t), PcOf(At(start, events, pidOf, k + 1), t);
            && ((pc.Downloading? || pc.Verifying?) && events[k].choice == Fail ==> next == Failed(Download))
            && ((pc.Downloading? || pc.Verifying?) && events[k].choice == Corrupt ==> Blames(next, Checksum))
            && (pc == Verifying(false) ==> next.Failed?)
            && ((pc.Staging? || pc.Extracting?) && events[k].choice == Fail ==> Blames(next, Extract))
            && (pc.Leaving? && pc.result.Some? ==> next == Failed(pc.result.value))
  {
    var w, choice := At(start, events, pidOf, k), events[k].choice;
    AtNext(start, events, pidOf, k);
    if choice == Fail || choice == Corrupt || PcOf(w, t) == Verifying(false) || PcOf(w, t).Leaving? {
      SetbackMove(PcOf(w, t), choice, w.dir, StagedOf(w, pidOf(t)), pidOf(t) !in w.locks);
    }
  }

  /** Where an install looks whether it has been canceled before it goes on. */
  predicate Checkpoint(pc: Pc) {
    !pc.Staging? && !pc.Emptying? && !pc.Clearing? && !pc.Leaving? && !Ended(pc)
  }

  lemma CancelMove(pc: Pc, dir: Tree, staged: Tree, free: bool)
    requires Checkpoint(pc)
    ensures var m := Next(pc, Cancel, dir, staged, free);
            (m.pc == Leaving(Some(Canceled)) || m.pc == Failed(Canceled)) && m.dir == dir
  {
  }

  lemma CanceledMove(pc: Pc, choice: Choice, dir: Tree, staged: Tree, free: bool)
    requires pc == Leaving(Some(Canceled)) || pc == Failed(Canceled)
    ensures var m := Next(pc, choice, dir, staged, free); m.pc == Failed(Canceled) && m.dir == dir
  {
  }

  /** A canceled install leaves the directory alone, and has failed after at most one more step of its own. */
  lemma {:induction false} CancelIsHeeded(
      start: Tree, prefix: seq<Event>, events: seq<Event>, pidOf: Install -> Pid, t: Install)
    requires Checkpoint(PcOf(Run(Initial(start), prefix, pidOf), t))
    requires events != [] && events[0] == Event(t, Cancel)
    ensures var pc := PcOf(Run(Initial(start), prefix + events, pidOf), t);
            pc == Failed(Canceled) || (pc == Leaving(Some(Canceled)) && StepsOf(events, t) == 1)
    ensures |events| == 1 ==>
              Run(Initial(start), prefix + events, pidOf).dir == Run(Initial(start), prefix, pidOf).dir
    decreases |events|
  {
    var n, pid := |events| - 1, pidOf(t);
    var sofar, e := prefix + events[..n], events[n];
    var w := Run(Initial(start), sofar, pidOf);
    SplitLast(events);
    AppendAssoc(prefix, events[..n], [e]);
    RunSnoc(Initial(start), sofar, e, pidOf);
    if n == 0 {
      assert sofar == prefix && StepsOf(events[..n], t) == 0;
      CancelMove(PcOf(w, t), w.dir, StagedOf(w, pid), pid !in w.locks);
    } else {
      CancelIsHeeded(start, prefix, events[..n], pidOf, t);
      CanceledMove(PcOf(w, t), e.choice, w.dir, StagedOf(w, pid), pid !in w.locks);
    }
  }

  // Success.

  /** A position on the way to success, with what it needs of the directory. */
  predicate OnCourse(pc: Pc, dir: Tree) {
    match pc
    case Waiting => false
    case Verifying(genuine) => genuine
    case Staging(genuine) => genuine
    case Extracting(genuine) => genuine
    case Probing => !dir.Absent?
    case Emptying => !dir.Complete?
    case Clearing => dir.Empty? || dir.Absent?
    case Renaming => !dir.Partial?
    case Rechecking => dir.Complete?
    case Leaving(result) => result.None? && dir.Complete?
    case FinalCheck => dir.Complete?
    case Failed(_) => false
    case _ => true
  }

  /** Steps an install on course still takes at most; a broken directory costs it three. */
  function StepsLeft(pc: Pc, dir: Tree): nat {
    var repair := if Broken(dir) then 3 else 0;
    match pc
    case Checking => 11 + repair
    case Downloading => 10 + repair
    case Verifying(_) => 9 + repair
    case Staging(_) => 8 + repair
    case Extracting(_) => 7 + repair
    case Looking => 6 + repair
    case Probing => 5 + repair
    case Removing => 7
    case Emptying => 6
    case Clearing => 5
    case Renaming => 4
    case Rechecking => 3
    case Leaving(_) => 2
    case FinalCheck => 1
    case _ => 0
  }

  predicate Progressed(pc: Pc, dir: Tree, due: nat, steps: nat) {
    OnCourse(pc, dir) && (pc.Managed? || StepsLeft(pc, dir) + steps <= due)
  }

  lemma GoMoveProgresses(pc: Pc, dir: Tree, staged: Tree, free: bool)
    requires LocalSound(pc, staged) && OnCourse(pc, dir)
    ensures var m := Next(pc, Go, dir, staged, free);
            OnCourse(m.pc, m.dir) && (m.pc.Managed? || StepsLeft(m.pc, m.dir) < StepsLeft(pc, dir))
  {
  }

  ghost predicate OneProcess(pidOf: Install -> Pid) { forall a, b: Install :: pidOf(a) == pidOf(b) }

  /** A lone process, or a directory no process would repair. */
  ghost predicate Protected(w: World, start: Tree, pidOf: Install -> Pid) {
    OneProcess(pidOf) || (AbsentOrValid(start) && Safe(w, start))
  }

  /** What the other installs do leaves an install on course and no further from its end. */
  lemma OthersKeepCourse(w: World, e: Event, pidOf: Install -> Pid, start: Tree, t: Install)
    requires Sound(w, pidOf) && Protected(w, start, pidOf)
    requires OnCourse(PcOf(w, t), w.dir) && e.install != t
    ensures var w' := Step(w, e, pidOf(e.install));
            && OnCourse(PcOf(w', t), w'.dir) && PcOf(w', t) == PcOf(w, t)
            && StepsLeft(PcOf(w', t), w'.dir) <= StepsLeft(PcOf(w, t), w.dir)
  {
    var u, pid := e.install, pidOf(e.install);
    assert InstallSound(w, t, pidOf(t)) && InstallSound(w, u, pid);
    if OneProcess(pidOf) && Inside(PcOf(w, t)) {
      OutsideMove(PcOf(w, u), e.choice, w.dir, StagedOf(w, pid), pid !in w.locks);
    } else if !OneProcess(pidOf) {
      StepKeepsSafe(w, e, pidOf, start);
      assert Consistent(PcOf(w, t), w.dir);
    }
  }

  lemma OutsideMove(pc: Pc, choice: Choice, dir: Tree, staged: Tree, free: bool)
    requires !Inside(pc)
    ensures Next(pc, choice, dir, staged, free).dir == dir
  {
  }

  lemma StepProgresses(w: World, e: Event, pidOf: Install -> Pid, start: Tree, t: Install, due: nat, steps: nat)
    requires Sound(w, pidOf) && Protected(w, start, pidOf)
    requires Progressed(PcOf(w, t), w.dir, due, steps) && (e.install == t ==> e.choice == Go)
    ensures var w' := Step(w, e, pidOf(e.install));
            Progressed(PcOf(w', t), w'.dir, due, steps + if e.install == t then 1 else 0)
  {
    if e.install == t {
      assert InstallSound(w, t, pidOf(t));
      GoMoveProgresses(PcOf(w, t), w.dir, StagedOf(w, pidOf(t)), pidOf(t) !in w.locks);
      if PcOf(w, t).Managed? { ManagedStays(w, Go, pidOf(t), t); }
    } else {
      OthersKeepCourse(w, e, pidOf, start, t);
    }
  }

  lemma ManagedStays(w: World, choice: Choice, pid: Pid, t: Install)
    requires PcOf(w, t).Managed?
    ensures PcOf(Step(w, Event(t, choice), pid), t).Managed?
  {
  }

  lemma {:induction false} UnhinderedProgresses(
      start: Tree, prefix: seq<Event>, events: seq<Event>, pidOf: Install -> Pid, t: Install, due: nat)
    requires AbsentOrValid(start) || OneProcess(pidOf)
    requires var w := Run(Initial(start), prefix, pidOf); Progressed(PcOf(w, t), w.dir, due, 0)
    requires forall i :: 0 <= i < |events| && events[i].install == t ==> events[i].choice == Go
    ensures var w := Run(Initial(start), prefix + events, pidOf);
            Progressed(PcOf(w, t), w.dir, due, StepsOf(events, t))
    decreases |events|
  {
    if events == [] {
      assert prefix + events == prefix;
    } else {
      var n := |events| - 1;
      var sofar := prefix + events[..n];
      UnhinderedProgresses(start, prefix, events[..n], pidOf, t, due);
      OnlyVerifiedTreesArePublished(start, sofar, pidOf);
      if AbsentOrValid(start) { PublicationIsSafe(start, sofar, pidOf); }
      StepProgresses(Run(Initial(start), sofar, pidOf), events[n], pidOf, start, t, due, StepsOf(events[..n], t));
      RunSnoc(Initial(start), sofar, events[n], pidOf);
      SplitLast(events);
      AppendAssoc(prefix, events[..n], [events[n]]);
    }
  }

  /**
   * An install that holds the lock and meets no failure of its own returns `Managed`, whatever the
   * others do meanwhile: within eleven steps of its own, or fourteen if it finds the directory
   * broken. This holds from an absent or valid directory, and in a lone process from any: there
   * the repair works.
   */
  lemma UnhinderedReturnsManaged(
      start: Tree, prefix: seq<Event>, events: seq<Event>, pidOf: Install -> Pid, t: Install)
    requires AbsentOrValid(start) || forall a, b: Install :: pidOf(a) == pidOf(b)
    requires var w := Run(Initial(start), prefix, pidOf); OnCourse(PcOf(w, t), w.dir)
    requires forall i :: 0 <= i < |events| && events[i].install == t ==> events[i].choice == Go
    ensures var v, w := Run(Initial(start), prefix, pidOf), Run(Initial(start), prefix + events, pidOf);
            && OnCourse(PcOf(w, t), w.dir)
            && (StepsOf(events, t) >= StepsLeft(PcOf(v, t), v.dir) ==> PcOf(w, t).Managed?)
  {
    var v := Run(Initial(start), prefix, pidOf);
    UnhinderedProgresses(start, prefix, events, pidOf, t, StepsLeft(PcOf(v, t), v.dir));
  }
}
