/** The record of a durable job, as its runner, crashes, reboots and any number of observers change it.
    A step is one system call that matters: reading the record, looking for a process, taking or
    dropping the lock, renaming a new record into place. */
module Jobs {
  import opened Common

  datatype JobState = Starting | Running | Succeeded | Failed | Cancelled | TimedOut | Lost

  predicate IsTerminal(s: JobState) {
    s.Succeeded? || s.Failed? || s.Cancelled? || s.TimedOut? || s.Lost?
  }

  predicate CanTransitionTo(s: JobState, next: JobState) {
    match s
    case Starting => next.Running? || next.Lost?
    case Running => IsTerminal(next)
    case _ => false
  }

  datatype Record = Record(state: JobState, boot: nat, runner: Option<nat>)

  /** Where a process is. The first six are a runner's, the others an observer's. */
  datatype Process =
    | Launched
    | Locked
    | Loaded(own: Record)
    | Watching(own: Record)
    | Reported
    | Exiting
    | Looked(seen: Record, deleting: bool)
    | Suspecting(bootChanged: bool)
    | Judging(bootChanged: bool)
    | Condemning(found: Record)
    | Doomed
    | Deleting

  /** `launches` counts the runners ever started and `birth` is the boot the job was created in. */
  datatype World = World(
    birth: nat,
    boot: nat,
    disk: Option<Record>,
    cancelFile: bool,
    lock: Option<nat>,
    processes: map<nat, Process>,
    launches: nat,
    nextProcess: nat)

  predicate IsRunner(p: Process) {
    p.Launched? || p.Locked? || p.Loaded? || p.Watching? || p.Reported? || p.Exiting?
  }

  predicate HoldsLock(p: Process) {
    p.Locked? || p.Loaded? || p.Watching? || p.Reported? || p.Judging? || p.Condemning? || p.Deleting?
  }

  predicate Alive(w: World, runner: Option<nat>) {
    runner.Some? && runner.value in w.processes
  }

  datatype Step =
    | Launch
    | TakeLock(p: nat)
    | Load(p: nat)
    | Announce(p: nat)
    | Finish(p: nat, verdict: JobState)
    | Release(p: nat)
    | Look(deleting: bool)
    | Suspect(p: nat)
    | Grab(p: nat)
    | Judge(p: nat)
    | Condemn(p: nat)
    | GrabToDelete(p: nat)
    | Delete(p: nat)
    | RequestCancel
    | Die(p: nat)
    | Reboot

  predicate At(w: World, p: nat) {
    p in w.processes
  }

  function Moved(w: World, p: nat, now: Process): World {
    w.(processes := w.processes[p := now])
  }

  function Spawned(w: World, now: Process): World {
    w.(processes := w.processes[w.nextProcess := now], nextProcess := w.nextProcess + 1)
  }

  /** The process ends, and the lock goes with its descriptor. */
  function Gone(w: World, p: nat): World {
    w.(processes := w.processes - {p}, lock := if w.lock == Some(p) then None else w.lock)
  }

  predicate Next(w: World, step: Step, w': World) {
    match step
    case Launch =>
      w' == Spawned(w, Launched).(launches := w.launches + 1)
    case TakeLock(p) =>
      && At(w, p) && w.processes[p].Launched? && w.lock.None? && w.disk.Some?
      && w' == Moved(w, p, Locked).(lock := Some(p))
    case Load(p) =>
      // Whatever reconciling would try, the lock is taken: the record comes back as it was read.
      && At(w, p) && w.processes[p].Locked? && w.disk.Some?
      && w' == Moved(w, p, Loaded(w.disk.value))
    case Announce(p) =>
      && At(w, p) && w.processes[p].Loaded?
      && var own := w.processes[p].own.(state := Running, boot := w.boot, runner := Some(p));
         w' == Moved(w, p, Watching(own)).(disk := Some(own))
    case Finish(p, verdict) =>
      && At(w, p) && w.processes[p].Watching?
      && (verdict.Succeeded? || verdict.Failed? || verdict.TimedOut? || (verdict.Cancelled? && w.cancelFile))
      && w' == Moved(w, p, Reported).(disk := Some(w.processes[p].own.(state := verdict)))
    case Release(p) =>
      && At(w, p) && IsRunner(w.processes[p])
      && w' == Moved(w, p, Exiting).(lock := if w.lock == Some(p) then None else w.lock)
    case Look(deleting) =>
      && w.disk.Some?
      && w' == Spawned(w, Looked(w.disk.value, deleting))
    case Suspect(p) =>
      && At(w, p) && w.processes[p].Looked?
      && var seen := w.processes[p].seen;
         var bootChanged := seen.boot != w.boot;
         w' == if IsTerminal(seen.state) then
                 (if w.processes[p].deleting then Moved(w, p, Doomed) else Gone(w, p))
               else if !bootChanged && !(seen.state.Running? && !Alive(w, seen.runner)) then Gone(w, p)
               else Moved(w, p, Suspecting(bootChanged))
    case Grab(p) =>
      && At(w, p) && w.processes[p].Suspecting?
      && w' == if w.lock.None? && w.disk.Some? then
                 Moved(w, p, Judging(w.processes[p].bootChanged)).(lock := Some(p))
               else Gone(w, p)
    case Judge(p) =>
      && At(w, p) && w.processes[p].Judging?
      && w' == if w.disk.None? || IsTerminal(w.disk.value.state) then Gone(w, p)
               else if !w.processes[p].bootChanged && w.disk.value.state.Running? && Alive(w, w.disk.value.runner) then
                 Gone(w, p)
               else Moved(w, p, Condemning(w.disk.value))
    case Condemn(p) =>
      && At(w, p) && w.processes[p].Condemning?
      && w' == Gone(w, p).(disk := Some(w.processes[p].found.(state := Lost)))
    case GrabToDelete(p) =>
      && At(w, p) && w.processes[p].Doomed? && w.lock.None? && w.disk.Some?
      && w' == Moved(w, p, Deleting).(lock := Some(p))
    case Delete(p) =>
      && At(w, p) && w.processes[p].Deleting?
      && w' == Gone(w, p).(disk := None, cancelFile := false)
    case RequestCancel =>
      && w.disk.Some?
      && w' == w.(cancelFile := true)
    case Die(p) =>
      && At(w, p)
      && w' == Gone(w, p)
    case Reboot =>
      w' == w.(boot := w.boot + 1, lock := None, processes := map[])
  }

  function Created(boot: nat): World {
    World(boot, boot, Some(Record(Starting, boot, None)), false, None, map[], 0, 0)
  }

  /** What a change of the record should be: nothing, an allowed transition, or the deletion of a
      finished job. */
  predicate Legal(before: Option<Record>, after: Option<Record>) {
    || before == after
    || (before.Some? && after.Some? && CanTransitionTo(before.value.state, after.value.state))
    || (before.Some? && after.None? && IsTerminal(before.value.state))
  }

  // ----- whatever is launched, and however often -----

  predicate ProcessOk(w: World, p: nat)
    requires p in w.processes
  {
    && p < w.nextProcess
    && (HoldsLock(w.processes[p]) <==> w.lock == Some(p))
    && (w.processes[p].Loaded? ==> w.disk == Some(w.processes[p].own) && w.processes[p].own.runner != Some(p))
    && (w.processes[p].Watching? ==>
          && w.disk == Some(w.processes[p].own)
          && w.processes[p].own == Record(Running, w.boot, Some(p)))
    && (w.processes[p].Condemning? ==> w.disk == Some(w.processes[p].found) && !IsTerminal(w.processes[p].found.state))
    && (w.processes[p].Launched? || w.processes[p].Locked? ==> w.disk.Some? ==> w.disk.value.runner != Some(p))
  }

  predicate Inv(w: World) {
    && (forall p :: p in w.processes ==> ProcessOk(w, p))
    && HolderKnown(w)
  }

  predicate HolderKnown(w: World) {
    && (w.lock.Some? ==> w.lock.value in w.processes)
    && (w.disk.Some? && w.disk.value.runner.Some? ==> w.disk.value.runner.value < w.nextProcess)
  }

  lemma {:induction false} ActorStaysOk(w: World, step: Step, w': World)
    requires Inv(w) && Next(w, step, w') && HasActor(step) && step.p in w'.processes
    ensures ProcessOk(w', step.p)
  {
    assert ProcessOk(w, step.p);
  }

  lemma {:induction false} BystanderStaysOk(w: World, step: Step, w': World, p: nat)
    requires Next(w, step, w') && HasActor(step) && p in w'.processes && p != step.p
    requires p in w.processes && ProcessOk(w, p)
    requires step.p in w.processes && ProcessOk(w, step.p)
    ensures ProcessOk(w', p)
  {
  }

  lemma {:induction false} NewProcessIsOk(w: World, step: Step, w': World, p: nat)
    requires Inv(w) && Next(w, step, w') && !HasActor(step) && p in w'.processes
    ensures ProcessOk(w', p)
  {
    assert p in w.processes ==> ProcessOk(w, p);
  }

  lemma {:induction false} HolderStaysKnown(w: World, step: Step, w': World)
    requires Inv(w) && Next(w, step, w')
    ensures HolderKnown(w')
  {
    if HasActor(step) {
      assert ProcessOk(w, step.p);
    }
  }

  lemma {:induction false} InvKept(w: World, step: Step, w': World)
    requires Inv(w) && Next(w, step, w')
    ensures Inv(w')
  {
    hide ProcessOk;
    HolderStaysKnown(w, step, w');
    forall p | p in w'.processes ensures ProcessOk(w', p) {
      if !HasActor(step) {
        NewProcessIsOk(w, step, w', p);
      } else if p == step.p {
        ActorStaysOk(w, step, w');
      } else {
        BystanderStaysOk(w, step, w', p);
      }
    }
  }

  /** A runner announces itself only over a record that it has loaded as Starting. */
  predicate WellAnnounced(w: World, step: Step) {
    step.Announce? ==> At(w, step.p) && w.processes[step.p].Loaded? && w.processes[step.p].own.state.Starting?
  }

  /** Every change but a deletion is legal exactly when no announcement is made over another record. */
  lemma {:induction false} StepLegal(w: World, step: Step, w': World)
    requires Inv(w) && Next(w, step, w')
    ensures Legal(w.disk, w'.disk) ==> WellAnnounced(w, step)
    ensures WellAnnounced(w, step) && !step.Delete? ==> Legal(w.disk, w'.disk)
    ensures WellAnnounced(w, step) && Ended(w) ==> Ended(w')
  {
    if step.Announce? || step.Finish? || step.Condemn? || step.Delete? {
      assert ProcessOk(w, step.p);
    }
  }

  /** Whoever is about to delete the job, or has seen it finished, finds it finished. */
  predicate DeletersOk(w: World) {
    forall p :: p in w.processes && SawEnd(w.processes[p]) ==> Ended(w)
  }

  predicate SawEnd(p: Process) {
    p.Doomed? || p.Deleting? || (p.Looked? && IsTerminal(p.seen.state))
  }

  lemma {:induction false} DeletersKept(w: World, step: Step, w': World)
    requires Inv(w) && DeletersOk(w) && Next(w, step, w') && WellAnnounced(w, step)
    ensures DeletersOk(w')
  {
    hide Ended, Inv;
    forall p | p in w'.processes && SawEnd(w'.processes[p]) ensures Ended(w') {
      SawEndBefore(w, step, w', p);
      StepLegal(w, step, w');
    }
  }

  lemma {:induction false} SawEndBefore(w: World, step: Step, w': World, p: nat)
    requires Next(w, step, w') && p in w'.processes && SawEnd(w'.processes[p])
    ensures (p in w.processes && SawEnd(w.processes[p])) || (step.Look? && Ended(w))
  {
  }

  lemma {:induction false} WellAnnouncedSoFar(run: seq<World>, steps: seq<Step>, n: nat)
    requires IsRun(run, steps) && n < |run|
    requires forall i :: 0 <= i < n ==> WellAnnounced(run[i], steps[i])
    ensures Inv(run[n]) && DeletersOk(run[n])
  {
    hide Next, Inv, DeletersOk, WellAnnounced;
    if n == 0 {
      InitialInv(run[0].boot);
    } else {
      WellAnnouncedSoFar(run, steps, n - 1);
      assert WellAnnounced(run[n - 1], steps[n - 1]);
      InvKept(run[n - 1], steps[n - 1], run[n]);
      DeletersKept(run[n - 1], steps[n - 1], run[n]);
    }
  }

  lemma {:induction false} InitialInv(boot: nat)
    ensures Inv(Created(boot)) && DeletersOk(Created(boot))
  {
  }

  lemma {:induction false} InvAlways(run: seq<World>, steps: seq<Step>, n: nat)
    requires IsRun(run, steps) && n < |run|
    ensures Inv(run[n])
  {
    hide Next, Inv, DeletersOk;
    if n == 0 {
      InitialInv(run[0].boot);
    } else {
      InvAlways(run, steps, n - 1);
      assert Next(run[n - 1], steps[n - 1], run[n]);
      InvKept(run[n - 1], steps[n - 1], run[n]);
    }
  }

  lemma {:induction false} LegalAt(run: seq<World>, steps: seq<Step>, n: nat)
    requires IsRun(run, steps) && n < |steps|
    requires forall i :: 0 <= i <= n ==> WellAnnounced(run[i], steps[i])
    ensures Legal(run[n].disk, run[n + 1].disk)
  {
    hide Inv, WellAnnounced;
    WellAnnouncedSoFar(run, steps, n);
    assert Next(run[n], steps[n], run[n + 1]);
    StepLegal(run[n], steps[n], run[n + 1]);
    if steps[n].Delete? {
      assert SawEnd(run[n].processes[steps[n].p]);
    }
  }

  /** In every run, with any number of runners launched at any time, the record changes only by allowed
      transitions and is deleted only when finished, if and only if every runner that announced itself had
      loaded a record that was Starting. */
  lemma {:induction false} LegalIff(run: seq<World>, steps: seq<Step>)
    requires IsRun(run, steps)
    ensures (forall n :: 0 <= n < |steps| ==> Legal(run[n].disk, run[n + 1].disk))
       <==> (forall n :: 0 <= n < |steps| ==> WellAnnounced(run[n], steps[n]))
  {
    hide Next, Inv, WellAnnounced, Legal;
    if forall n :: 0 <= n < |steps| ==> WellAnnounced(run[n], steps[n]) {
      forall n | 0 <= n < |steps| ensures Legal(run[n].disk, run[n + 1].disk) {
        LegalAt(run, steps, n);
      }
    }
    if forall n :: 0 <= n < |steps| ==> Legal(run[n].disk, run[n + 1].disk) {
      forall n | 0 <= n < |steps| ensures WellAnnounced(run[n], steps[n]) {
        InvAlways(run, steps, n);
        assert Next(run[n], steps[n], run[n + 1]);
        StepLegal(run[n], steps[n], run[n + 1]);
      }
    }
  }

  /** Lost never appears while a runner holds the lock. */
  lemma {:induction false} LostSparesTheLockHolder(w: World, step: Step, w': World)
    requires Inv(w) && Next(w, step, w')
    requires w'.disk != w.disk && w'.disk.Some? && w'.disk.value.state.Lost?
    ensures step.Condemn? && w.lock == Some(step.p)
    ensures forall p :: p in w.processes && IsRunner(w.processes[p]) ==> !HoldsLock(w.processes[p])
  {
    assert ProcessOk(w, step.p);
    forall p | p in w.processes && IsRunner(w.processes[p]) ensures !HoldsLock(w.processes[p]) {
      assert ProcessOk(w, p);
    }
  }

  // ----- one runner, launched when the job is created -----

  /** A start creates the record and launches the only runner before any reboot. */
  predicate Orderly(w: World, step: Step) {
    step.Launch? ==> w.launches == 0 && w.boot == w.birth
  }

  predicate OrderlyProcess(w: World, p: nat)
    requires p in w.processes
  {
    match w.processes[p]
    case Launched => w.launches == 1 && w.boot == w.birth && Untouched(w)
    case Locked => w.launches == 1 && w.boot == w.birth && Untouched(w)
    case Loaded(own) => w.launches == 1 && w.boot == w.birth && own.state.Starting?
    case Watching(_) => w.launches == 1 && w.boot == w.birth
    case Reported => w.launches == 1 && w.boot == w.birth && Announced(w, p)
    case Exiting => w.launches == 1 && w.boot == w.birth && (Untouched(w) || Announced(w, p))
    case Looked(seen, _) =>
      && seen.boot == w.birth
      && (!seen.state.Starting? ==> !Untouched(w))
      && (IsTerminal(seen.state) ==> Ended(w))
    case Suspecting(bootChanged) => if bootChanged then w.boot != w.birth else !Untouched(w)
    case Judging(bootChanged) => if bootChanged then w.boot != w.birth else !Untouched(w)
    case Condemning(found) => w.boot != w.birth || (found.state.Running? && !Alive(w, found.runner))
    case Doomed => Ended(w)
    case Deleting => Ended(w)
  }

  /** The record is still the one the job was created with. */
  predicate Untouched(w: World) {
    w.disk.Some? && w.disk.value.state.Starting?
  }

  predicate Ended(w: World) {
    w.disk.Some? ==> IsTerminal(w.disk.value.state)
  }

  predicate Announced(w: World, p: nat) {
    w.disk.Some? ==> w.disk.value.runner == Some(p)
  }

  predicate OrderlyInv(w: World) {
    && Inv(w) && w.birth <= w.boot
    && (w.disk.Some? ==> w.disk.value.boot == w.birth)
    && (w.launches == 0 && w.boot == w.birth ==> Untouched(w))
    && (forall p :: p in w.processes ==> OrderlyProcess(w, p))
    && (forall p, q :: p in w.processes && q in w.processes && IsRunner(w.processes[p]) && IsRunner(w.processes[q])
          ==> p == q)
  }

  predicate HasActor(step: Step) {
    !step.Launch? && !step.Look? && !step.RequestCancel? && !step.Reboot?
  }

  lemma {:induction false} ActorKept(w: World, step: Step, w': World)
    requires OrderlyInv(w) && Next(w, step, w') && HasActor(step) && step.p in w'.processes
    ensures OrderlyProcess(w', step.p)
  {
    assert ProcessOk(w, step.p) && OrderlyProcess(w, step.p);
  }

  lemma {:induction false} BystanderKept(w: World, step: Step, w': World, p: nat)
    requires Next(w, step, w') && HasActor(step) && p in w'.processes && p != step.p
    requires p in w.processes && ProcessOk(w, p) && OrderlyProcess(w, p)
    requires step.p in w.processes && ProcessOk(w, step.p) && OrderlyProcess(w, step.p)
    requires IsRunner(w.processes[p]) ==> !IsRunner(w.processes[step.p])
    ensures OrderlyProcess(w', p)
  {
    if step.Announce? || step.Finish? {
      WrittenByRunner(w, step, w', p);
    } else if step.Condemn? || step.Delete? {
      WrittenByObserver(w, step, w', p);
    } else {
      assert w'.disk == w.disk && w'.launches == w.launches && w'.boot == w.boot && w'.birth == w.birth;
      assert forall q :: q in w'.processes ==> q in w.processes;
      hide Next;
    }
  }

  lemma {:induction false} WrittenByRunner(w: World, step: Step, w': World, p: nat)
    requires Next(w, step, w') && (step.Announce? || step.Finish?) && p in w'.processes && p != step.p
    requires p in w.processes && ProcessOk(w, p) && OrderlyProcess(w, p)
    requires step.p in w.processes && ProcessOk(w, step.p) && OrderlyProcess(w, step.p)
    requires IsRunner(w.processes[p]) ==> !IsRunner(w.processes[step.p])
    ensures OrderlyProcess(w', p)
  {
  }

  lemma {:induction false} WrittenByObserver(w: World, step: Step, w': World, p: nat)
    requires Next(w, step, w') && (step.Condemn? || step.Delete?) && p in w'.processes && p != step.p
    requires p in w.processes && ProcessOk(w, p) && OrderlyProcess(w, p)
    requires step.p in w.processes && ProcessOk(w, step.p) && OrderlyProcess(w, step.p)
    ensures OrderlyProcess(w', p)
  {
  }

  lemma {:induction false} ActorAndBystander(w: World, step: Step, w': World, p: nat)
    requires OrderlyInv(w) && Next(w, step, w') && HasActor(step) && p in w'.processes && p != step.p
    ensures p in w.processes && ProcessOk(w, p) && OrderlyProcess(w, p)
    ensures step.p in w.processes && ProcessOk(w, step.p) && OrderlyProcess(w, step.p)
    ensures IsRunner(w.processes[p]) ==> !IsRunner(w.processes[step.p])
  {
    hide OrderlyProcess, ProcessOk;
  }

  lemma {:induction false} NewProcessKept(w: World, step: Step, w': World, p: nat)
    requires OrderlyInv(w) && Next(w, step, w') && Orderly(w, step) && !HasActor(step) && p in w'.processes
    ensures OrderlyProcess(w', p)
  {
    assert p in w.processes ==> ProcessOk(w, p) && OrderlyProcess(w, p);
  }

  lemma {:induction false} RecordKept(w: World, step: Step, w': World)
    requires OrderlyInv(w) && Next(w, step, w') && Orderly(w, step)
    ensures w'.birth <= w'.boot
    ensures w'.disk.Some? ==> w'.disk.value.boot == w'.birth
    ensures w'.launches == 0 && w'.boot == w'.birth ==> Untouched(w')
  {
    if HasActor(step) {
      assert ProcessOk(w, step.p) && OrderlyProcess(w, step.p);
    }
  }

  lemma {:induction false} RunnersAreLaunched(w: World, step: Step, w': World, p: nat)
    requires Next(w, step, w') && p in w'.processes && IsRunner(w'.processes[p])
    ensures (p in w.processes && IsRunner(w.processes[p])) || (step.Launch? && p == w.nextProcess)
  {
  }

  lemma {:induction false} OneRunner(w: World, step: Step, w': World, p: nat, q: nat)
    requires OrderlyInv(w) && Next(w, step, w') && Orderly(w, step)
    requires p in w'.processes && q in w'.processes && IsRunner(w'.processes[p]) && IsRunner(w'.processes[q])
    ensures p == q
  {
    hide Inv, Untouched, Ended, Announced, Next;
    RunnersAreLaunched(w, step, w', p);
    RunnersAreLaunched(w, step, w', q);
    assert p in w.processes ==> OrderlyProcess(w, p);
    assert q in w.processes ==> OrderlyProcess(w, q);
  }

  lemma {:induction false} OrderlyKept(w: World, step: Step, w': World)
    requires OrderlyInv(w) && Next(w, step, w') && Orderly(w, step)
    ensures OrderlyInv(w')
  {
    hide Next, Inv, OrderlyProcess;
    InvKept(w, step, w');
    RecordKept(w, step, w');
    forall p | p in w'.processes ensures OrderlyProcess(w', p) {
      if !HasActor(step) {
        NewProcessKept(w, step, w', p);
      } else if p == step.p {
        ActorKept(w, step, w');
      } else {
        ActorAndBystander(w, step, w', p);
        BystanderKept(w, step, w', p);
      }
    }
    forall p, q | p in w'.processes && q in w'.processes && IsRunner(w'.processes[p]) && IsRunner(w'.processes[q])
      ensures p == q
    {
      OneRunner(w, step, w', p, q);
    }
  }

  ghost predicate IsRun(run: seq<World>, steps: seq<Step>) {
    && |run| == |steps| + 1
    && run[0] == Created(run[0].boot)
    && forall i {:trigger steps[i]} :: 0 <= i < |steps| ==> Next(run[i], steps[i], run[i + 1])
  }

  ghost predicate IsOrderlyRun(run: seq<World>, steps: seq<Step>) {
    && IsRun(run, steps)
    && forall i {:trigger steps[i]} :: 0 <= i < |steps| ==> Orderly(run[i], steps[i])
  }

  lemma {:induction false} Reachable(run: seq<World>, steps: seq<Step>, n: nat)
    requires IsOrderlyRun(run, steps) && n < |run|
    ensures OrderlyInv(run[n])
  {
    if n > 0 {
      Reachable(run, steps, n - 1);
      assert Orderly(run[n - 1], steps[n - 1]);
      OrderlyKept(run[n - 1], steps[n - 1], run[n]);
    }
  }

  /** In every run with one runner, whatever crashes, reboots and observers do, each change of the record
      is an allowed transition, and only finished jobs are deleted. */
  lemma {:induction false} TransitionsAreLegal(run: seq<World>, steps: seq<Step>, n: nat)
    requires IsOrderlyRun(run, steps) && n < |steps|
    ensures Legal(run[n].disk, run[n + 1].disk)
  {
    Reachable(run, steps, n);
    var w, step := run[n], steps[n];
    assert Next(w, step, run[n + 1]);
    StepLegal(w, step, run[n + 1]);
    if step.Announce? || step.Delete? {
      assert OrderlyProcess(w, step.p);
    }
  }

  /** A terminal record never changes again; it can only be deleted, and nothing comes after that. */
  lemma {:induction false} TerminalIsFinal(run: seq<World>, steps: seq<Step>, n: nat, m: nat)
    requires IsOrderlyRun(run, steps) && n <= m < |run|
    requires run[n].disk.Some? ==> IsTerminal(run[n].disk.value.state)
    ensures run[m].disk == run[n].disk || run[m].disk.None?
    decreases m
  {
    if n < m {
      TerminalIsFinal(run, steps, n, m - 1);
      TransitionsAreLegal(run, steps, m - 1);
    }
  }

  /** When Lost is written the runner is really gone: it died after announcing itself, or the machine has
      rebooted since the job was created. In particular a job that is Starting is never given up before a
      reboot. */
  lemma {:induction false} LostMeansGone(run: seq<World>, steps: seq<Step>, n: nat)
    requires IsOrderlyRun(run, steps) && n < |steps|
    requires run[n + 1].disk != run[n].disk && run[n + 1].disk.Some? && run[n + 1].disk.value.state.Lost?
    ensures forall p :: p in run[n].processes ==> !IsRunner(run[n].processes[p])
    ensures run[n].disk.Some? && (run[n].disk.value.state.Starting? ==> run[n].boot != run[n].birth)
  {
    Reachable(run, steps, n);
    var w, step := run[n], steps[n];
    assert Next(w, step, run[n + 1]);
    LostSparesTheLockHolder(w, step, run[n + 1]);
    assert OrderlyProcess(w, step.p) && ProcessOk(w, step.p);
    forall p | p in w.processes ensures !IsRunner(w.processes[p]) {
      assert OrderlyProcess(w, p) && ProcessOk(w, p);
    }
  }

  // ----- what one observer does when left alone -----

  /** The steps of `steps` follow one another from `w`. */
  ghost predicate Follows(w: World, steps: seq<Step>, run: seq<World>) {
    && |run| == |steps| + 1 && run[0] == w
    && forall i {:trigger steps[i]} :: 0 <= i < |steps| ==> Next(run[i], steps[i], run[i + 1])
  }

  function CondemningSteps(p: nat): seq<Step> {
    [Look(false), Suspect(p), Grab(p), Judge(p), Condemn(p)]
  }

  /** The runner that the record names is gone: with its boot, or out of a running job. */
  predicate Abandoned(w: World, found: Record) {
    !IsTerminal(found.state) && (found.boot != w.boot || (found.state.Running? && !Alive(w, found.runner)))
  }

  /** An observer that nobody disturbs gets to write Lost, over the record it finds, exactly when that record
      is abandoned and nobody holds the lock. */
  lemma {:induction false} AbandonedIsCondemned(w: World, found: Record) returns (run: seq<World>)
    requires Inv(w) && w.disk == Some(found) && Abandoned(w, found) && w.lock.None?
    ensures Follows(w, CondemningSteps(w.nextProcess), run)
    ensures run[5].disk == Some(found.(state := Lost)) && run[5].lock.None?
    ensures run[5].processes == w.processes
  {
    var p, bootChanged := w.nextProcess, found.boot != w.boot;
    var looked := Spawned(w, Looked(found, false));
    var suspecting := Moved(looked, p, Suspecting(bootChanged));
    var judging := Moved(suspecting, p, Judging(bootChanged)).(lock := Some(p));
    var condemning := Moved(judging, p, Condemning(found));
    var done := Gone(condemning, p).(disk := Some(found.(state := Lost)));
    run := [w, looked, suspecting, judging, condemning, done];
    assert p !in w.processes by {
      assert p in w.processes ==> ProcessOk(w, p);
    }
    assert Next(w, Look(false), looked);
    assert Next(looked, Suspect(p), suspecting);
    assert Next(suspecting, Grab(p), judging);
    assert Next(judging, Judge(p), condemning);
    assert Next(condemning, Condemn(p), done);
  }

  lemma {:induction false} OnlyAbandonedIsCondemned(w: World, found: Record, run: seq<World>)
    requires Inv(w) && w.disk == Some(found)
    requires Follows(w, CondemningSteps(w.nextProcess), run)
    ensures Abandoned(w, found) && w.lock.None?
  {
    var p, steps := w.nextProcess, CondemningSteps(w.nextProcess);
    assert Next(run[0], steps[0], run[1]);
    assert Next(run[1], steps[1], run[2]);
    assert Next(run[2], steps[2], run[3]);
    assert Next(run[3], steps[3], run[4]);
  }

  lemma {:induction false} CancelFileWasRequested(run: seq<World>, steps: seq<Step>, n: nat) returns (m: nat)
    requires IsRun(run, steps) && n < |run| && run[n].cancelFile
    ensures m < n && steps[m].RequestCancel?
  {
    assert n > 0;
    assert Next(run[n - 1], steps[n - 1], run[n]);
    if run[n - 1].cancelFile {
      m := CancelFileWasRequested(run, steps, n - 1);
    } else {
      m := n - 1;
    }
  }

  /** A job only becomes Cancelled after its cancellation was requested. */
  lemma {:induction false} CancelNeedsRequest(run: seq<World>, steps: seq<Step>, n: nat) returns (m: nat)
    requires IsRun(run, steps) && n < |steps|
    requires run[n + 1].disk != run[n].disk && run[n + 1].disk.Some? && run[n + 1].disk.value.state.Cancelled?
    ensures m < n && steps[m].RequestCancel?
  {
    InvAlways(run, steps, n);
    assert Next(run[n], steps[n], run[n + 1]);
    if HasActor(steps[n]) {
      assert ProcessOk(run[n], steps[n].p);
    }
    m := CancelFileWasRequested(run, steps, n);
  }

  // ----- what a second launch would do -----

  function RevivalSteps(): seq<Step> {
    [Launch, TakeLock(0), Load(0), Announce(0), Finish(0, Succeeded), Release(0), Die(0),
     Launch, TakeLock(1), Load(1), Announce(1)]
  }

  function RevivalRun(): seq<World> {
    var created, running := Record(Starting, 0, None), Record(Running, 0, Some(0));
    var done, again := Record(Succeeded, 0, Some(0)), Record(Running, 0, Some(1));
    [World(0, 0, Some(created), false, None, map[], 0, 0),
     World(0, 0, Some(created), false, None, map[0 := Launched], 1, 1),
     World(0, 0, Some(created), false, Some(0), map[0 := Locked], 1, 1),
     World(0, 0, Some(created), false, Some(0), map[0 := Loaded(created)], 1, 1),
     World(0, 0, Some(running), false, Some(0), map[0 := Watching(running)], 1, 1),
     World(0, 0, Some(done), false, Some(0), map[0 := Reported], 1, 1),
     World(0, 0, Some(done), false, None, map[0 := Exiting], 1, 1),
     World(0, 0, Some(done), false, None, map[], 1, 1),
     World(0, 0, Some(done), false, None, map[1 := Launched], 2, 2),
     World(0, 0, Some(done), false, Some(1), map[1 := Locked], 2, 2),
     World(0, 0, Some(done), false, Some(1), map[1 := Loaded(done)], 2, 2),
     World(0, 0, Some(again), false, Some(1), map[1 := Watching(again)], 2, 2)]
  }

  /** Replacing the record checks no transition: a runner launched for a finished job makes it Running
      again. */
  lemma {:induction false} SecondRunnerRevives()
    ensures IsRun(RevivalRun(), RevivalSteps())
    ensures RevivalRun()[7].disk.value.state == Succeeded && RevivalRun()[11].disk.value.state == Running
    ensures !Legal(RevivalRun()[10].disk, RevivalRun()[11].disk)
  {
    var run, steps := RevivalRun(), RevivalSteps();
    forall i {:trigger steps[i]} | 0 <= i < |steps| ensures Next(run[i], steps[i], run[i + 1]) {
      if i < 6 {
        RevivalFirst(i);
      } else {
        RevivalSecond(i);
      }
    }
  }

  lemma {:induction false} RevivalFirst(i: nat)
    requires i < 6
    ensures Next(RevivalRun()[i], RevivalSteps()[i], RevivalRun()[i + 1])
  {
  }

  lemma {:induction false} RevivalSecond(i: nat)
    requires 6 <= i < 11
    ensures Next(RevivalRun()[i], RevivalSteps()[i], RevivalRun()[i + 1])
  {
  }

  // ----- the bytes of output that are kept -----

  /** What one chunk may keep of the room two drains share. */
  function Granted(used: nat, maximum: nat, wanted: nat): (r: nat)
  {
    var room := if used <= maximum then maximum - used else 0;
    if wanted <= room then wanted else room
  }

  ghost function Total(wanted: seq<nat>): nat {
    if wanted == [] then 0 else Total(wanted[..|wanted| - 1]) + wanted[|wanted| - 1]
  }

  /** The room used after the chunks of both streams, in the order they reach the counter. */
  ghost function UsedAfter(maximum: nat, wanted: seq<nat>): nat {
    if wanted == [] then 0
    else
      var used := UsedAfter(maximum, wanted[..|wanted| - 1]);
      used + Granted(used, maximum, wanted[|wanted| - 1])
  }

  /** However the chunks interleave, the two logs together keep as much as there is room for: all of it,
      or exactly the limit. */
  lemma {:induction false} LogsFillTheLimit(maximum: nat, wanted: seq<nat>)
    ensures UsedAfter(maximum, wanted) == if Total(wanted) <= maximum then Total(wanted) else maximum
  {
    if wanted != [] {
      LogsFillTheLimit(maximum, wanted[..|wanted| - 1]);
    }
  }

  /** One stream of a job: what was read from the command and what its log keeps. */
  class Drain {
    var log: Bytes
    var observed: nat
    var retained: nat
    ghost var seen: Bytes

    ghost predicate Valid()
      reads this
    {
      && observed == |seen| && retained == |log|
      && retained <= observed
    }

    constructor ()
      ensures Valid() && log == [] && seen == []
    {
      log, observed, retained, seen := [], 0, 0, [];
    }

    /** One chunk: all of it is counted, and the part that fits is appended to the log. */
    method Chunk(buffer: Bytes, used: nat, maximum: nat) returns (next: nat)
      requires Valid()
      modifies this
      ensures Valid() && seen == old(seen) + buffer
      ensures next == used + Granted(used, maximum, |buffer|)
      ensures log == old(log) + buffer[..next - used]
      ensures retained - old(retained) == next - used
      ensures used <= maximum ==> next <= maximum
      ensures used <= next <= used + |buffer|
      ensures next < used + |buffer| ==> next >= maximum
    {
      observed := observed + |buffer|;
      seen := seen + buffer;
      var kept := Granted(used, maximum, |buffer|);
      next := used + kept;
      if kept != 0 {
        log := log + buffer[..kept];
        retained := retained + kept;
      }
    }
  }
}
