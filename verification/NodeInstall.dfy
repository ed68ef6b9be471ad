/**
 * The managed Node.js install of `node.rs` as a protocol: installs of several processes, each
 * checking, staging, and publishing by rename into one shared directory.
 *
 * An install is one call of `install_managed_with_context`. Installs of one process share its
 * pid, its lock, and its staging directory. Every step is atomic; an install's steps may
 * interleave with any other install's.
 */
module NodeInstall {
  import opened Runs
  import opened Text

  type Install = nat
  type Pid = nat

  /**
   * What is at a path: nothing, a directory with nothing in it, an incomplete tree, or a complete
   * one extracted from an archive. An empty directory exists and does not work, like an incomplete
   * tree, but a rename may take its place, as if there were none.
   */
  datatype Tree = Absent | Empty | Partial | Complete(verified: bool)

  datatype Error = LockTimeout | Download | Checksum | Extract | Canceled

  /** Where an install stands; `result` of `Leaving` is what publication returned, `None` for success. */
  datatype Pc =
    | Waiting
    | Checking
    | Downloading
    | Verifying(genuine: bool)
    | Staging(genuine: bool)
    | Extracting(genuine: bool)
    | Looking
    | Probing
    | Removing
    | Emptying
    | Clearing
    | Renaming
    | Rechecking
    | Leaving(result: Option<Error>)
    | FinalCheck
    | Managed
    | Failed(error: Error)

  datatype World = World(
    pcs: map<Install, Pc>,
    locks: map<Pid, Install>,
    staging: map<Pid, Tree>,
    dir: Tree,
    /**
     * History: renames into the directory, whether a valid tree was ever taken away, and whether
     * every rename moved a verified tree.
     */
    renames: nat,
    lostValid: bool,
    onlyVerified: bool)

  /** What the world may answer a step with: the archive's bytes, an operation's failure, a cancellation. */
  datatype Choice = Go | Fail | Cancel | Corrupt

  datatype Event = Event(install: Install, choice: Choice)

  /** `node --version` runs exactly in a complete tree. */
  predicate Works(t: Tree) { t.Complete? }

  predicate Ended(pc: Pc) { pc.Managed? || pc.Failed? }

  function PcOf(w: World, t: Install): Pc { if t in w.pcs then w.pcs[t] else Waiting }

  function StagedOf(w: World, p: Pid): Tree { if p in w.staging then w.staging[p] else Absent }

  datatype LockMove = Kept | Taken | Dropped

  /**
   * What one step of an install does: its new position, the process's lock and staging directory,
   * and the shared directory.
   */
  datatype Move = Move(pc: Pc, lock: LockMove, staged: Tree, dir: Tree, published: bool)

  /** The step of an install at `pc`, when its process's install lock is free or not. */
  function Next(pc: Pc, choice: Choice, dir: Tree, staged: Tree, free: bool): Move {
    match pc
    case Waiting =>
      if choice.Cancel? then Move(Failed(Canceled), Kept, staged, dir, false)
      else if free then Move(Checking, Taken, staged, dir, false)
      else Move(if choice.Fail? then Failed(LockTimeout) else Waiting, Kept, staged, dir, false)
    case Checking =>
      if choice.Cancel? then Move(Failed(Canceled), Dropped, staged, dir, false)
      else if Works(dir) then Move(Managed, Dropped, staged, dir, false)
      else Move(Downloading, Kept, staged, dir, false)
    case Downloading =>
      (match choice
       case Cancel => Move(Failed(Canceled), Dropped, staged, dir, false)
       case Fail => Move(Failed(Download), Dropped, staged, dir, false)
       case Corrupt => Move(Verifying(false), Kept, staged, dir, false)
       case Go => Move(Verifying(true), Kept, staged, dir, false))
    case Verifying(genuine) =>
      if choice.Cancel? then Move(Failed(Canceled), Dropped, staged, dir, false)
      else if choice.Fail? then Move(Failed(Download), Dropped, staged, dir, false)
      else if genuine && choice.Go? then Move(Staging(genuine), Kept, staged, dir, false)
      else Move(Failed(Checksum), Dropped, staged, dir, false)
    case Staging(genuine) =>
      if choice.Fail? then Move(Failed(Extract), Dropped, staged, dir, false)
      else Move(Extracting(genuine), Kept, Partial, dir, false)
    case Extracting(genuine) =>
      (match choice
       case Cancel => Move(Leaving(Some(Canceled)), Kept, staged, dir, false)
       case Fail => Move(Leaving(Some(Extract)), Kept, staged, dir, false)
       case _ => Move(Looking, Kept, Complete(genuine), dir, false))
    case Looking =>
      if choice.Cancel? then Move(Leaving(Some(Canceled)), Kept, staged, dir, false)
      else Move(if dir.Absent? then Renaming else Probing, Kept, staged, dir, false)
    case Probing =>
      if choice.Cancel? then Move(Leaving(Some(Canceled)), Kept, staged, dir, false)
      else Move(if Works(dir) then Renaming else Removing, Kept, staged, dir, false)
    case Removing =>
      (match choice
       case Cancel => Move(Leaving(Some(Canceled)), Kept, staged, dir, false)
       case Fail => Move(Renaming, Kept, staged, dir, false)
       case _ => Move(Emptying, Kept, staged, if dir.Complete? then Partial else dir, false))
    case Emptying =>
      if choice.Fail? then Move(Renaming, Kept, staged, dir, false)
      else Move(Clearing, Kept, staged, if dir.Partial? then Empty else dir, false)
    case Clearing =>
      Move(Renaming, Kept, staged, if dir.Empty? && !choice.Fail? then Absent else dir, false)
    case Renaming =>
      if choice.Cancel? then Move(Leaving(Some(Canceled)), Kept, staged, dir, false)
      else if (dir.Absent? || dir.Empty?) && !choice.Fail? then Move(Leaving(None), Kept, Absent, staged, true)
      else Move(Rechecking, Kept, staged, dir, false)
    case Rechecking =>
      if choice.Cancel? then Move(Leaving(Some(Canceled)), Kept, staged, dir, false)
      else Move(Leaving(if Works(dir) then None else Some(Extract)), Kept, staged, dir, false)
    case Leaving(result) =>
      (match result
       case Some(error) => Move(Failed(error), Dropped, Absent, dir, false)
       case None => Move(FinalCheck, Kept, Absent, dir, false))
    case FinalCheck =>
      if choice.Cancel? then Move(Failed(Canceled), Dropped, staged, dir, false)
      else Move(if Works(dir) then Managed else Failed(Extract), Dropped, staged, dir, false)
    case Managed => Move(pc, Kept, staged, dir, false)
    case Failed(_) => Move(pc, Kept, staged, dir, false)
  }

  function NextOf(w: World, e: Event, pid: Pid): Move {
    Next(PcOf(w, e.install), e.choice, w.dir, StagedOf(w, pid), pid !in w.locks)
  }

  function Apply(w: World, t: Install, pid: Pid, m: Move): World {
    World(
      w.pcs[t := m.pc],
      match m.lock { case Kept => w.locks case Taken => w.locks[pid := t] case Dropped => w.locks - {pid} },
      w.staging[pid := m.staged],
      m.dir,
      w.renames + if m.published then 1 else 0,
      w.lostValid || (w.dir.Complete? && m.dir != w.dir),
      w.onlyVerified && (m.published ==> m.dir == Complete(true)))
  }

  /** One step of the install `e.install` of process `pid`. */
  function Step(w: World, e: Event, pid: Pid): World { Apply(w, e.install, pid, NextOf(w, e, pid)) }

  function Initial(dir: Tree): World { World(map[], map[], map[], dir, 0, false, true) }

  function Steps(pidOf: Install -> Pid): (World, Event) -> World {
    (w: World, e: Event) => Step(w, e, pidOf(e.install))
  }

  /** The world after a run of installs' steps, in any order. */
  function Run(w: World, events: seq<Event>, pidOf: Install -> Pid): World { FoldWith(Steps(pidOf), w, events) }

  lemma RunSnoc(w: World, events: seq<Event>, e: Event, pidOf: Install -> Pid)
    ensures Run(w, events + [e], pidOf) == Step(Run(w, events, pidOf), e, pidOf(e.install))
  {
    FoldWithSnoc(Steps(pidOf), w, events, e);
  }

  // The lock, and what it protects.

  /** Inside the guarded section of an install. */
  predicate Inside(pc: Pc) { !pc.Waiting? && !Ended(pc) }

  /** What is staged is genuine, and complete from extraction until it is published. */
  predicate LocalSound(pc: Pc, staged: Tree) {
    match pc
    case Staging(genuine) => genuine
    case Extracting(genuine) => genuine
    case Looking | Probing | Removing | Emptying | Clearing | Renaming => staged == Complete(true)
    case _ => true
  }

  ghost predicate InstallSound(w: World, t: Install, pid: Pid) {
    && (Inside(PcOf(w, t)) <==> pid in w.locks && w.locks[pid] == t)
    && LocalSound(PcOf(w, t), StagedOf(w, pid))
  }

  ghost predicate Sound(w: World, pidOf: Install -> Pid) {
    && (forall t: Install :: InstallSound(w, t, pidOf(t)))
    && w.onlyVerified
  }

  /** A move takes only a free lock, on its way in, and drops only its own, whenever it ends. */
  predicate MindsLock(pc: Pc, free: bool, m: Move) {
    && (m.lock.Taken? ==> free)
    && (m.lock.Taken? <==> !Inside(pc) && Inside(m.pc))
    && (m.lock.Dropped? <==> Inside(pc) && !Inside(m.pc))
  }

  /** A move works in its staging directory only under the lock, and publishes only verified trees. */
  predicate MindsStaging(pc: Pc, staged: Tree, m: Move) {
    && LocalSound(m.pc, m.staged)
    && (!Inside(pc) ==> m.staged == staged)
    && (m.published ==> m.dir == Complete(true))
  }

  /** Where the archive is on its way to a staged tree. */
  predicate Unpacking(pc: Pc) { pc.Verifying? || pc.Staging? || pc.Extracting? }

  /** Where a complete verified tree is staged, to be published. */
  predicate Publishing(pc: Pc) {
    pc.Looking? || pc.Probing? || pc.Removing? || pc.Emptying? || pc.Clearing? || pc.Renaming?
  }

  lemma UnpackingStaysGenuine(pc: Pc, choice: Choice, dir: Tree, staged: Tree, free: bool)
    requires LocalSound(pc, staged) && Unpacking(pc)
    ensures var m := Next(pc, choice, dir, staged, free); LocalSound(m.pc, m.staged)
  {
  }

  lemma PublishingStaysGenuine(pc: Pc, choice: Choice, dir: Tree, staged: Tree, free: bool)
    requires LocalSound(pc, staged) && Publishing(pc)
    ensures var m := Next(pc, choice, dir, staged, free); LocalSound(m.pc, m.staged)
  {
  }

  lemma FetchingStagesNothing(pc: Pc, choice: Choice, dir: Tree, staged: Tree, free: bool)
    requires pc.Waiting? || pc.Checking? || pc.Downloading?
    ensures var m := Next(pc, choice, dir, staged, free).pc; !Publishing(m) && !m.Staging? && !m.Extracting?
  {
  }

  lemma EndingStagesNothing(pc: Pc, choice: Choice, dir: Tree, staged: Tree, free: bool)
    requires pc.Rechecking? || pc.Leaving? || pc.FinalCheck? || Ended(pc)
    ensures var m := Next(pc, choice, dir, staged, free).pc; !Publishing(m) && !m.Staging? && !m.Extracting?
  {
  }

  lemma MoveStaysGenuine(pc: Pc, choice: Choice, dir: Tree, staged: Tree, free: bool)
    requires LocalSound(pc, staged)
    ensures var m := Next(pc, choice, dir, staged, free); LocalSound(m.pc, m.staged)
  {
    if Unpacking(pc) {
      UnpackingStaysGenuine(pc, choice, dir, staged, free);
    } else if Publishing(pc) {
      PublishingStaysGenuine(pc, choice, dir, staged, free);
    } else if pc.Waiting? || pc.Checking? || pc.Downloading? {
      FetchingStagesNothing(pc, choice, dir, staged, free);
    } else {
      EndingStagesNothing(pc, choice, dir, staged, free);
    }
  }

  lemma MovePublishesVerified(pc: Pc, choice: Choice, dir: Tree, staged: Tree, free: bool)
    requires LocalSound(pc, staged)
    ensures var m := Next(pc, choice, dir, staged, free);
            (!Inside(pc) ==> m.staged == staged) && (m.published ==> m.dir == Complete(true))
  {
  }

  lemma MoveMindsLock(pc: Pc, choice: Choice, dir: Tree, staged: Tree, free: bool)
    ensures MindsLock(pc, free, Next(pc, choice, dir, staged, free))
  {
    match pc {
      case Waiting =>
      case Checking =>
      case Downloading =>
      case Verifying(_) =>
      case Staging(_) =>
      case Extracting(_) =>
      case Looking =>
      case Probing =>
      case Removing =>
      case Emptying =>
      case Clearing =>
      case Renaming =>
      case Rechecking =>
      case Leaving(_) =>
      case FinalCheck =>
      case Managed =>
      case Failed(_) =>
    }
  }

  lemma MoveMindsStaging(pc: Pc, choice: Choice, dir: Tree, staged: Tree, free: bool)
    requires LocalSound(pc, staged)
    ensures MindsStaging(pc, staged, Next(pc, choice, dir, staged, free))
  {
    MoveStaysGenuine(pc, choice, dir, staged, free);
    MovePublishesVerified(pc, choice, dir, staged, free);
  }

  /** A sound move leaves the lock and staging directory of any other install inside its section alone. */
  lemma ApplyKeepsSound(w: World, t: Install, m: Move, pidOf: Install -> Pid, u: Install)
    requires InstallSound(w, t, pidOf(t)) && InstallSound(w, u, pidOf(u))
    requires MindsLock(PcOf(w, t), pidOf(t) !in w.locks, m) && MindsStaging(PcOf(w, t), StagedOf(w, pidOf(t)), m)
    ensures InstallSound(Apply(w, t, pidOf(t), m), u, pidOf(u))
  {
  }

  lemma StepKeepsSound(w: World, e: Event, pidOf: Install -> Pid)
    requires Sound(w, pidOf)
    ensures Sound(Step(w, e, pidOf(e.install)), pidOf)
  {
    var t, pid := e.install, pidOf(e.install);
    assert InstallSound(w, t, pid);
    MoveMindsLock(PcOf(w, t), e.choice, w.dir, StagedOf(w, pid), pid !in w.locks);
    MoveMindsStaging(PcOf(w, t), e.choice, w.dir, StagedOf(w, pid), pid !in w.locks);
    forall u: Install ensures InstallSound(Step(w, e, pid), u, pidOf(u)) {
      assert InstallSound(w, u, pidOf(u));
      ApplyKeepsSound(w, t, NextOf(w, e, pid), pidOf, u);
    }
  }

  /**
   * Over every interleaving from any start, only complete trees of checksum-verified archives are
   * ever renamed into place.
   */
  lemma {:induction false} OnlyVerifiedTreesArePublished(start: Tree, events: seq<Event>, pidOf: Install -> Pid)
    ensures Sound(Run(Initial(start), events, pidOf), pidOf)
  {
    if events != [] {
      var n := |events| - 1;
      OnlyVerifiedTreesArePublished(start, events[..n], pidOf);
      StepKeepsSound(Run(Initial(start), events[..n], pidOf), events[n], pidOf);
      SplitLast(events);
      RunSnoc(Initial(start), events[..n], events[n], pidOf);
    }
  }

  // Starting from an absent or a valid directory.

  predicate AbsentOrValid(dir: Tree) { dir.Absent? || dir.Complete? }

  /** What an install's position says about the directory. */
  predicate Consistent(pc: Pc, dir: Tree) {
    && !pc.Removing? && !pc.Emptying? && !pc.Clearing?
    && (pc.Probing? || pc == Leaving(None) || pc.FinalCheck? || pc.Managed? ==> dir.Complete?)
  }

  ghost predicate Safe(w: World, start: Tree) {
    && AbsentOrValid(w.dir) && !w.lostValid
    && (start.Complete? ==> w.dir == start && w.renames == 0)
    && (start.Absent? ==> w.renames == if w.dir.Absent? then 0 else 1)
    && (forall t: Install :: Consistent(PcOf(w, t), w.dir))
  }

  /** A move that never touches a valid tree, and fills an absent directory only by publishing. */
  predicate SafeMove(dir: Tree, m: Move) {
    && AbsentOrValid(m.dir) && Consistent(m.pc, m.dir)
    && (dir.Complete? ==> m.dir == dir && !m.published)
    && (dir.Absent? ==> (m.published <==> m.dir.Complete?))
  }

  lemma MoveIsSafe(pc: Pc, choice: Choice, dir: Tree, staged: Tree, free: bool)
    requires AbsentOrValid(dir) && Consistent(pc, dir) && LocalSound(pc, staged)
    ensures SafeMove(dir, Next(pc, choice, dir, staged, free))
  {
  }

  lemma ApplyKeepsSafe(w: World, t: Install, pid: Pid, m: Move, start: Tree)
    requires Safe(w, start) && SafeMove(w.dir, m)
    ensures Safe(Apply(w, t, pid, m), start)
  {
    var w' := Apply(w, t, pid, m);
    forall u: Install ensures Consistent(PcOf(w', u), w'.dir) {
      assert Consistent(PcOf(w, u), w.dir);
    }
  }

  lemma StepKeepsSafe(w: World, e: Event, pidOf: Install -> Pid, start: Tree)
    requires Sound(w, pidOf) && Safe(w, start)
    ensures Safe(Step(w, e, pidOf(e.install)), start)
    ensures w.dir.Complete? ==> Step(w, e, pidOf(e.install)).dir == w.dir
  {
    var t, pid := e.install, pidOf(e.install);
    assert InstallSound(w, t, pid) && Consistent(PcOf(w, t), w.dir);
    MoveIsSafe(PcOf(w, t), e.choice, w.dir, StagedOf(w, pid), pid !in w.locks);
    ApplyKeepsSafe(w, t, pid, NextOf(w, e, pid), start);
  }

  /**
   * From an absent or valid directory, no interleaving ever takes the remove branch or loses a
   * valid tree; at most one rename succeeds, none if the start was valid; and an install that
   * returned `Managed` returned a directory that is still valid.
   */
  lemma {:induction false} PublicationIsSafe(start: Tree, events: seq<Event>, pidOf: Install -> Pid)
    requires AbsentOrValid(start)
    ensures Safe(Run(Initial(start), events, pidOf), start)
  {
    if events != [] {
      var n := |events| - 1;
      PublicationIsSafe(start, events[..n], pidOf);
      OnlyVerifiedTreesArePublished(start, events[..n], pidOf);
      StepKeepsSafe(Run(Initial(start), events[..n], pidOf), events[n], pidOf, start);
      SplitLast(events);
      RunSnoc(Initial(start), events[..n], events[n], pidOf);
    }
  }

  // What made an install managed.

  lemma ManagedMove(pc: Pc, choice: Choice, dir: Tree, staged: Tree, free: bool)
    requires Next(pc, choice, dir, staged, free).pc.Managed?
    ensures pc.Managed? || (Works(dir) && (pc.Checking? || pc.FinalCheck?))
  {
  }

  lemma ManagedWasValidThen(w: World, e: Event, pid: Pid, t: Install)
    requires !PcOf(w, t).Managed? && PcOf(Step(w, e, pid), t).Managed?
    ensures t == e.install && Works(w.dir) && (PcOf(w, t).Checking? || PcOf(w, t).FinalCheck?)
  {
    assert t == e.install || PcOf(Step(w, e, pid), t) == PcOf(w, t);
    ManagedMove(PcOf(w, t), e.choice, w.dir, StagedOf(w, pid), pid !in w.locks);
  }

  /** At the `k`-th event one of the two checks of `t` finds the directory valid and makes `t` managed. */
  ghost predicate TurnsManaged(start: Tree, events: seq<Event>, pidOf: Install -> Pid, t: Install, k: nat) {
    && k < |events| && events[k].install == t
    && var before := Run(Initial(start), events[..k], pidOf);
       && (PcOf(before, t).Checking? || PcOf(before, t).FinalCheck?) && Works(before.dir)
       && PcOf(Step(before, events[k], pidOf(t)), t).Managed?
  }

  lemma TurnedManagedEarlier(start: Tree, events: seq<Event>, pidOf: Install -> Pid, t: Install, n: nat, k: nat)
    requires n <= |events| && TurnsManaged(start, events[..n], pidOf, t, k)
    ensures TurnsManaged(start, events, pidOf, t, k)
  {
    assert events[..n][..k] == events[..k];
  }

  /**
   * From any start, corrupt ones included: an install that is managed after a run became so by a
   * step of its own, one of its two checks, that found the directory valid.
   */
  lemma {:induction false} ManagedFoundItValid(start: Tree, events: seq<Event>, pidOf: Install -> Pid, t: Install)
    returns (k: nat)
    requires PcOf(Run(Initial(start), events, pidOf), t).Managed?
    ensures TurnsManaged(start, events, pidOf, t, k)
  {
    k := 0;
    if events != [] {
      var n := |events| - 1;
      var w := Run(Initial(start), events[..n], pidOf);
      SplitLast(events);
      RunSnoc(Initial(start), events[..n], events[n], pidOf);
      if PcOf(w, t).Managed? {
        k := ManagedFoundItValid(start, events[..n], pidOf, t);
        TurnedManagedEarlier(start, events, pidOf, t, n, k);
      } else {
        ManagedWasValidThen(w, events[n], pidOf(events[n].install), t);
        k := n;
      }
    }
  }

  // Starting from a broken directory.

  /** There, and neither working nor a place a first look would rename into. */
  predicate Broken(dir: Tree) { dir.Empty? || dir.Partial? }

  /** The positions an install walks through to repair a broken directory. */
  function RepairWalk(): seq<Pc> {
    [Waiting, Checking, Downloading, Verifying(true), Staging(true), Extracting(true), Looking, Probing, Removing,
     Emptying, Clearing, Renaming, Leaving(None), FinalCheck, Managed]
  }

  /** What the directory, `start` at first, and the staging directory hold along that walk. */
  predicate OnRepairWalk(start: Tree, i: nat, pc: Pc, dir: Tree, staged: Tree, free: bool) {
    && i < |RepairWalk()| && pc == RepairWalk()[i]
    && dir == (if i < 10 then start else if i == 10 then Empty else if i == 11 then Absent else Complete(true))
    && (6 <= i < 12 ==> staged == Complete(true))
    && (i == 0 ==> free)
  }

  lemma RepairMove(start: Tree, i: nat, dir: Tree, staged: Tree, free: bool)
    requires Broken(start) && i < 14 && OnRepairWalk(start, i, RepairWalk()[i], dir, staged, free)
    ensures var m := Next(RepairWalk()[i], Go, dir, staged, free);
            OnRepairWalk(start, i + 1, m.pc, m.dir, m.staged, free)
  {
  }

  ghost predicate Repairing(w: World, start: Tree, t: Install, pid: Pid, i: nat) {
    OnRepairWalk(start, i, PcOf(w, t), w.dir, StagedOf(w, pid), pid !in w.locks)
  }

  /** What an install's steps leave of the other installs and processes. */
  ghost predicate OthersSame(w: World, w': World, t: Install, pid: Pid) {
    && (forall u: Install :: u != t ==> PcOf(w', u) == PcOf(w, u))
    && (forall q: Pid :: q != pid ==> (q in w'.locks <==> q in w.locks) && StagedOf(w', q) == StagedOf(w, q))
  }

  lemma RepairStep(w: World, start: Tree, t: Install, pid: Pid, i: nat)
    requires Broken(start) && i < 14 && Repairing(w, start, t, pid, i)
    ensures var w' := Step(w, Event(t, Go), pid);
            Repairing(w', start, t, pid, i + 1) && OthersSame(w, w', t, pid)
  {
    RepairMove(start, i, w.dir, StagedOf(w, pid), pid !in w.locks);
  }

  lemma OthersStaySame(w: World, v: World, w': World, t: Install, pid: Pid)
    requires OthersSame(w, v, t, pid) && OthersSame(v, w', t, pid)
    ensures OthersSame(w, w', t, pid)
  {
  }

  /** From anywhere on the walk, `n` steps of an install take it `n` positions on. */
  lemma RepairWalks(w: World, start: Tree, t: Install, pidOf: Install -> Pid, i: nat, n: nat)
    requires Broken(start) && i + n <= 14 && Repairing(w, start, t, pidOf(t), i)
    ensures var w' := Run(w, Repeat(Event(t, Go), n), pidOf);
            Repairing(w', start, t, pidOf(t), i + n) && OthersSame(w, w', t, pidOf(t))
  {
    var go, pid := Event(t, Go), pidOf(t);
    var walking := (v: World, k: nat) => Repairing(v, start, t, pid, k) && OthersSame(w, v, t, pid);
    forall v: World, k: nat | i <= k < i + n && walking(v, k) ensures walking(Steps(pidOf)(v, go), k + 1) {
      RepairStep(v, start, t, pid, k);
      OthersStaySame(w, v, Step(v, go, pid), t, pid);
    }
    RepeatKeeps(Steps(pidOf), w, go, walking, i, n);
  }

  lemma WalksToRemoving(w: World, t: Install, pidOf: Install -> Pid)
    requires Broken(w.dir) && PcOf(w, t) == Waiting && pidOf(t) !in w.locks
    ensures var w' := Run(w, Repeat(Event(t, Go), 8), pidOf);
            PcOf(w', t) == Removing && w'.dir == w.dir && Repairing(w', w.dir, t, pidOf(t), 8)
            && OthersSame(w, w', t, pidOf(t))
  {
    RepairWalks(w, w.dir, t, pidOf, 0, 8);
  }

  lemma RepairsFromRemoving(w: World, start: Tree, t: Install, pidOf: Install -> Pid)
    requires Broken(start) && Repairing(w, start, t, pidOf(t), 8)
    ensures var w' := Run(w, Repeat(Event(t, Go), 6), pidOf);
            PcOf(w', t) == Managed && w'.dir == Complete(true) && OthersSame(w, w', t, pidOf(t))
  {
    RepairWalks(w, start, t, pidOf, 8, 6);
  }

  /**
   * From a broken directory two processes can both reach the remove branch, and one of them then
   * repair and return.
   */
  lemma OneRepairsWhileOtherRemoves(start: Tree, pidOf: Install -> Pid, a: Install, b: Install)
    returns (events: seq<Event>)
    requires Broken(start) && pidOf(a) != pidOf(b)
    ensures var w := Run(Initial(start), events, pidOf);
            PcOf(w, a) == Removing && PcOf(w, b) == Managed && w.dir == Complete(true)
  {
    var w0 := Initial(start);
    var walkA, walkB, repair := Repeat(Event(a, Go), 8), Repeat(Event(b, Go), 8), Repeat(Event(b, Go), 6);
    WalksToRemoving(w0, a, pidOf);
    var w1 := Run(w0, walkA, pidOf);
    WalksToRemoving(w1, b, pidOf);
    RepairsFromRemoving(Run(w1, walkB, pidOf), start, b, pidOf);
    FoldWithConcat(Steps(pidOf), w0, walkA, walkB);
    FoldWithConcat(Steps(pidOf), w0, walkA + walkB, repair);
    events := walkA + walkB + repair;
  }

  lemma StrikesDown(w: World, a: Install, b: Install, pidOf: Install -> Pid)
    requires a != b && PcOf(w, a) == Removing && PcOf(w, b) == Managed && w.dir == Complete(true)
    ensures var w' := Step(w, Event(a, Go), pidOf(a)); w'.lostValid && PcOf(w', b) == Managed && !Works(w'.dir)
  {
  }

  /**
   * One process repairs a broken directory, corrupt or merely empty, and returns, and the other
   * then takes the good tree away.
   */
  lemma RepairRace(start: Tree, pidOf: Install -> Pid, a: Install, b: Install) returns (events: seq<Event>)
    requires Broken(start) && pidOf(a) != pidOf(b)
    ensures var w := Run(Initial(start), events, pidOf);
            w.lostValid && PcOf(w, b) == Managed && !Works(w.dir)
  {
    var walked := OneRepairsWhileOtherRemoves(start, pidOf, a, b);
    StrikesDown(Run(Initial(start), walked, pidOf), a, b, pidOf);
    RunSnoc(Initial(start), walked, Event(a, Go), pidOf);
    events := walked + [Event(a, Go)];
  }

  // Installs of one process.

  /** No valid tree has been lost, and none is about to be. */
  ghost predicate RemovesOnlyBroken(w: World) {
    !w.lostValid && forall t: Install :: PcOf(w, t).Removing? ==> !Works(w.dir)
  }

  lemma MoveRemovesOnlyBroken(pc: Pc, choice: Choice, dir: Tree, staged: Tree, free: bool)
    requires pc.Removing? ==> !Works(dir)
    ensures var m := Next(pc, choice, dir, staged, free);
            && (m.pc.Removing? ==> !Works(m.dir))
            && (Works(dir) ==> m.dir == dir)
            && (!Inside(pc) ==> m.dir == dir)
  {
  }

  lemma StepRemovesOnlyBroken(w: World, e: Event, pidOf: Install -> Pid)
    requires Sound(w, pidOf) && RemovesOnlyBroken(w) && forall a, b: Install :: pidOf(a) == pidOf(b)
    ensures RemovesOnlyBroken(Step(w, e, pidOf(e.install)))
  {
    var u, pid := e.install, pidOf(e.install);
    var w' := Step(w, e, pid);
    MoveRemovesOnlyBroken(PcOf(w, u), e.choice, w.dir, StagedOf(w, pid), pid !in w.locks);
    forall t: Install | PcOf(w', t).Removing? ensures !Works(w'.dir) {
      if t != u {
        assert InstallSound(w, t, pidOf(t)) && InstallSound(w, u, pid);
        assert pidOf(t) == pid && PcOf(w, t) == PcOf(w', t);
      }
    }
  }

  /** Installs of one process never lose a valid tree, whatever they start from: their lock serializes the removal. */
  lemma {:induction false} OneProcessLosesNothing(start: Tree, events: seq<Event>, pidOf: Install -> Pid)
    requires forall a, b: Install :: pidOf(a) == pidOf(b)
    ensures RemovesOnlyBroken(Run(Initial(start), events, pidOf))
  {
    if events != [] {
      var n := |events| - 1;
      OneProcessLosesNothing(start, events[..n], pidOf);
      OnlyVerifiedTreesArePublished(start, events[..n], pidOf);
      StepRemovesOnlyBroken(Run(Initial(start), events[..n], pidOf), events[n], pidOf);
      SplitLast(events);
      RunSnoc(Initial(start), events[..n], events[n], pidOf);
    }
  }

  /**
   * A valid tree is never lost, in any run, exactly when the directory started absent or valid or
   * all installs share one process.
   */
  lemma ValidTreeIsSafeIff(start: Tree, pidOf: Install -> Pid)
    ensures (forall events :: !Run(Initial(start), events, pidOf).lostValid)
            <==> start.Absent? || start.Complete? || forall a, b: Install :: pidOf(a) == pidOf(b)
  {
    if AbsentOrValid(start) {
      forall events ensures !Run(Initial(start), events, pidOf).lostValid {
        PublicationIsSafe(start, events, pidOf);
      }
    } else if a, b: Install :| pidOf(a) != pidOf(b) {
      var events := RepairRace(start, pidOf, a, b);
      assert Run(Initial(start), events, pidOf).lostValid;
    } else {
      forall events ensures !Run(Initial(start), events, pidOf).lostValid {
        OneProcessLosesNothing(start, events, pidOf);
      }
    }
  }
}
