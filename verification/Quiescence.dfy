/** A reconcile loop and both its watch tasks together, call by call: every reconcile has a
    cause, Sinker's own writes are none, and a sync that comes to rest is in line. */
module Quiescence {
  import opened Wrappers
  import opened JsonTree
  import opened Ends
  import Finalizers
  import Lifecycle
  import Reconcile
  import RemoteWatcher

  /** `desired` is what the mappings make of the source as it is now, `read` what they made of
      the source that the running reconcile fetched, `content` what the target holds. */
  datatype State = State(
    world: Lifecycle.World,
    queued: nat,
    source: End,
    target: End,
    desired: Json,
    read: Json,
    content: Json)

  /** `Act` is any call of a reconcile but the apply, which carries the event of its write, or
      `None` where the server finds nothing to change. `FinishBadly` ends a reconcile whose
      status could not be read or written. `Change` is a change that others make to the source
      or target, with what is desired or held afterwards, and `Mark` what they change of the
      target's deletion and finalizers. */
  datatype Step =
    | Act(action: Reconcile.Action)
    | Apply(applied: Reconcile.Reply, write: Option<RemoteWatcher.Event>)
    | FinishBadly
    | Task(side: Reconcile.Side, does: RemoteWatcher.Action)
    | Merge
    | Refresh(upTo: nat)
    | Edit(sync: Reconcile.Sync)
    | Change(side: Reconcile.Side, event: RemoteWatcher.Event, now: Json)
    | Mark(deleting: bool, finalizers: seq<string>)
    | Restart

  function EndOf(s: State, side: Reconcile.Side): End {
    if side.Source? then s.source else s.target
  }

  function WithEnd(s: State, side: Reconcile.Side, end: End): State {
    if side.Source? then s.(source := end) else s.(target := end)
  }

  /** What a step is to the lifecycle of the ResourceSync. */
  function Underlying(s: State, step: Step): Lifecycle.Step {
    match step
    case Act(a) => Lifecycle.Act(a)
    case Apply(r, _) => Lifecycle.Act(Reconcile.ApplyTarget(r))
    case FinishBadly => Lifecycle.Act(Reconcile.Finish)
    case Refresh(n) => Lifecycle.Observe(n)
    case Edit(sync) => Lifecycle.Edit(sync)
    case Change(Target, e, _) =>
      Lifecycle.TargetChange(
        if e.Deleted? then Lifecycle.Absent
        else if s.world.target.Present? then s.world.target
        else Lifecycle.Present(false, []))
    case Mark(deleting, finalizers) => Lifecycle.TargetChange(Lifecycle.Present(deleting, finalizers))
    case Restart => Lifecycle.Restart
    case _ => Lifecycle.Observe(s.world.cached)
  }

  ghost predicate Enabled(s: State, step: Step) {
    && s.world.versions != [] && s.world.cached < |s.world.versions|
    && Lifecycle.Allowed(s.world, Underlying(s, step))
    && match step
       case Act(a) => !a.ApplyTarget? && (a.Begin? ==> s.queued > 0)
       case Apply(r, write) =>
         if r.Failed? then write.None?
         else if write.Some? then IsOwnWrite(s.target, write.value)
         else s.world.target.Present? && s.content == s.read
       case Task(side, a) => TaskMay(EndOf(s, side), a)
       case Merge => s.queued > 1
       case Change(side, e, _) => IsNewChange(EndOf(s, side), e)
       case Mark(_, _) => s.world.target.Present?
       case _ => true
  }

  /** The reconcile asks to be run again when it ends. */
  predicate Requeues(p: Reconcile.Position) {
    p.Returned? && !p.outcome.AwaitChange?
  }

  ghost function After(s: State, step: Step): State
    requires Enabled(s, step)
  {
    var t := s.(world := Lifecycle.After(s.world, Underlying(s, step)));
    match step
    case Act(Begin(_)) => t.(queued := s.queued - 1)
    case Act(GetSource(ok)) => if ok then t.(read := s.desired) else t
    case Act(StartWatch(side)) => WithEnd(t, side, Spawned(EndOf(s, side)))
    case Act(StopWatch(side)) => WithEnd(t, side, EndOf(s, side).(task := None))
    case Act(Finish) => if Requeues(s.world.position) then t.(queued := s.queued + 1) else t
    case Act(_) => t
    case Apply(r, write) =>
      if r.Failed? then t
      else t.(content := s.read, target := if write.Some? then Changed(s.target, write.value) else s.target)
    case FinishBadly => t.(queued := s.queued + 1)
    case Task(side, a) =>
      WithEnd(t, side, Advanced(EndOf(s, side), a)).(queued := s.queued + if a.Send? then 1 else 0)
    case Merge => t.(queued := s.queued - 1)
    case Refresh(_) => t
    case Edit(_) => t
    case Mark(_, _) => t
    case Change(Source, e, now) => t.(source := Changed(s.source, e), desired := now)
    case Change(Target, e, now) => t.(target := Changed(s.target, e), content := now)
    // the tasks and the queue are lost, and the first listing enqueues the ResourceSync
    case Restart => t.(queued := 1, source := s.source.(task := None), target := s.target.(task := None))
  }

  /** `ss[i + 1]` comes from `ss[i]` by `steps[i]`. */
  ghost predicate Run(ss: seq<State>, steps: seq<Step>) {
    && |ss| == |steps| + 1
    && forall i | 0 <= i < |steps| :: Enabled(ss[i], steps[i]) && ss[i + 1] == After(ss[i], steps[i])
  }

  // What every step keeps

  /** A ResourceSync that nobody deletes, whose finalizer is never taken away. */
  ghost predicate Alive(w: Lifecycle.World) {
    && w.versions != [] && !w.gone && !Lifecycle.Live(w).deleting
    && Lifecycle.Sound(w) && Lifecycle.FinalizerKept(w) && !Lifecycle.CleaningUp(w.position)
  }

  ghost predicate Tame(s: State) {
    Alive(s.world) && Fits(s.source) && Fits(s.target)
  }

  /** How a sync starts: enqueued, nothing watched. */
  ghost predicate Fresh(s: State) {
    && (exists sync: Reconcile.Sync, t :: !sync.deleting && s.world == Lifecycle.Start(sync, t))
    && s.queued == 1 && s.source.task.None? && s.target.task.None?
    && Fits(s.source) && Fits(s.target)
  }

  lemma FreshIsTame(s: State)
    requires Fresh(s)
    ensures Tame(s)
  {
  }

  /** Nothing of a cleanup is reached from a snapshot that is not deleted. */
  lemma NeverCleansUp(w: Lifecycle.World)
    requires Alive(w)
    ensures var p := w.position;
            !p.GettingTarget? && !p.DeletingTarget? && (Reconcile.UnderWay(p) ==> !p.sync.deleting)
  {
    if Reconcile.UnderWay(w.position) {
      assert w.versions[w.snapshot] == w.position.sync;
      assert w.versions[|w.versions| - 1] == Lifecycle.Live(w);
    }
  }

  lemma StaysAlive(w: Lifecycle.World, step: Lifecycle.Step)
    requires Alive(w) && Lifecycle.Allowed(w, step) && !step.UserDelete?
    ensures Alive(Lifecycle.After(w, step))
  {
    NeverCleansUp(w);
    Lifecycle.StepKeepsSound(w, step);
    Lifecycle.StepKeepsFinalizer(w, step);
    Lifecycle.NoCleanupWithoutRelease(w, step);
  }

  lemma EndsStayFitting(s: State, step: Step)
    requires Fits(s.source) && Fits(s.target) && Enabled(s, step)
    ensures Fits(After(s, step).source) && Fits(After(s, step).target)
  {
    match step
    case Task(side, a) => AdvancedFits(EndOf(s, side), a);
    case Change(side, e, _) => ChangedFits(EndOf(s, side), e);
    case Apply(_, Some(e)) => ChangedFits(s.target, e);
    case _ =>
  }

  lemma StepKeepsTame(s: State, step: Step)
    requires Tame(s) && Enabled(s, step)
    ensures Tame(After(s, step))
  {
    StaysAlive(s.world, Underlying(s, step));
    EndsStayFitting(s, step);
  }

  function Worlds(ss: seq<State>): (ws: seq<Lifecycle.World>)
    ensures |ws| == |ss| && forall i | 0 <= i < |ss| :: ws[i] == ss[i].world
  {
    seq(|ss|, i requires 0 <= i < |ss| => ss[i].world)
  }

  function UnderlyingSteps(ss: seq<State>, steps: seq<Step>): (under: seq<Lifecycle.Step>)
    requires |ss| == |steps| + 1
    ensures |under| == |steps| && forall i | 0 <= i < |steps| :: under[i] == Underlying(ss[i], steps[i])
  {
    seq(|steps|, i requires 0 <= i < |steps| => Underlying(ss[i], steps[i]))
  }

  lemma StepOfLifecycle(s: State, step: Step)
    requires Enabled(s, step)
    ensures Lifecycle.Allowed(s.world, Underlying(s, step))
    ensures After(s, step).world == Lifecycle.After(s.world, Underlying(s, step))
  {
  }

  /** From the start, the reconciles, edits and restarts of a run are a run of `Lifecycle`, so all
      that is proved there holds here too. */
  lemma RunsOfLifecycle(ss: seq<State>, steps: seq<Step>)
    requires Run(ss, steps) && Fresh(ss[0])
    ensures Lifecycle.Run(Worlds(ss), UnderlyingSteps(ss, steps))
  {
    var ws, under := Worlds(ss), UnderlyingSteps(ss, steps);
    assert Lifecycle.Linked(ws, under) by {
      forall i | 0 <= i < |steps|
        ensures ws[i].versions != [] && ws[i].cached < |ws[i].versions|
        ensures Lifecycle.Allowed(ws[i], under[i]) && ws[i + 1] == Lifecycle.After(ws[i], under[i])
      {
        StepOfLifecycle(ss[i], steps[i]);
      }
    }
    assert ws[0] == ss[0].world;
  }

  // Every reconcile has a cause

  function RequeueDue(p: Reconcile.Position): nat {
    if Requeues(p) then 1 else 0
  }

  function FinalizerDue(w: Lifecycle.World): nat
    requires w.versions != []
  {
    if Reconcile.HasFinalizer(Lifecycle.Live(w)) then 0 else 1
  }

  /** The requeue a reconcile is about to ask for, and the one after adding the finalizer. */
  function LoopDue(w: Lifecycle.World): nat
    requires w.versions != []
  {
    RequeueDue(w.position) + FinalizerDue(w)
  }

  ghost function WatchesDue(s: State): nat
    requires Fits(s.source) && Fits(s.target)
  {
    SendsAhead(s.source) + SendsAhead(s.target)
  }

  /** The reconciles that are still to come where nothing else happens. */
  ghost function Due(s: State): nat
    requires Tame(s)
  {
    s.queued + LoopDue(s.world) + WatchesDue(s)
  }

  /** How many more reconciles a step of the loop brings about: one for a failing call, and one
      for a finalizer added again because the cache does not show it yet. */
  function LoopCauses(w: Lifecycle.World, a: Reconcile.Action): nat
    requires w.versions != []
  {
    match a
    case ResolveApis(ok) => if ok then 0 else 1
    case GetSource(ok) => if ok then 0 else 1
    case BuildTarget(ok) => if ok then 0 else 1
    case ApplyTarget(r) => if r.Done? then 0 else 1
    case PatchFinalizers(_, r) => if r.Done? then 1 - FinalizerDue(w) else 1
    case _ => 0
  }

  /** One more for a relevant change by others, up to two for a failing watch, and up to three
      for a restart. */
  function Causes(s: State, step: Step): nat
    requires s.world.versions != []
  {
    match step
    case Act(a) => LoopCauses(s.world, a)
    case Apply(r, _) => LoopCauses(s.world, Reconcile.ApplyTarget(r))
    case FinishBadly => 1
    case Task(_, a) => SendsCaused(a)
    case Change(_, e, _) => if RemoteWatcher.IsObjectEvent(e) && RemoteWatcher.Relevant(e) then 1 else 0
    case Restart => 3
    case _ => 0
  }

  function Begun(step: Step): nat {
    if step.Act? && step.action.Begin? then 1 else 0
  }

  lemma CallAccounts(w: Lifecycle.World, a: Reconcile.Action)
    requires Alive(w) && Lifecycle.Allowed(w, Lifecycle.Act(a))
    ensures var next := Lifecycle.After(w, Lifecycle.Act(a));
            LoopDue(next) + (if a.Finish? then RequeueDue(w.position) else 0) <= LoopDue(w) + LoopCauses(w, a)
  {
    NeverCleansUp(w);
    if a.PatchFinalizers? {
      Lifecycle.RemovedLacksFinalizer(w.position.sync, Lifecycle.Live(w));
    }
  }

  /** Nothing but a call, a requeue taken up and a restart changes what the loop has due, except
      that others may add the finalizer too. */
  lemma LoopAccounts(w: Lifecycle.World, step: Lifecycle.Step)
    requires Alive(w) && Lifecycle.Allowed(w, step) && !step.UserDelete? && !step.Act?
    ensures LoopDue(Lifecycle.After(w, step)) <= LoopDue(w)
  {
  }

  lemma OwnWriteAccounts(s: State, step: Step)
    requires Tame(s) && Enabled(s, step) && Tame(After(s, step)) && step.Apply?
    ensures WatchesDue(After(s, step)) <= WatchesDue(s)
  {
    if step.write.Some? {
      OwnEventIsSuppressed(s.target, step.write.value);
      ChangeAccounts(s.target, step.write.value);
    }
  }

  lemma TaskStepAccounts(s: State, step: Step)
    requires Tame(s) && Enabled(s, step) && Tame(After(s, step)) && step.Task?
    ensures WatchesDue(After(s, step)) + (if step.does.Send? then 1 else 0) <= WatchesDue(s) + SendsCaused(step.does)
  {
    TaskAccounts(EndOf(s, step.side), step.does);
  }

  lemma WatchesAccount(s: State, step: Step)
    requires Tame(s) && Enabled(s, step) && Tame(After(s, step))
    ensures WatchesDue(After(s, step)) + (if step.Task? && step.does.Send? then 1 else 0)
         <= WatchesDue(s) + match step
                            case Task(_, _) => Causes(s, step)
                            case Change(_, _, _) => Causes(s, step)
                            case Restart => 2
                            case _ => 0
  {
    match step
    case Apply(_, _) => OwnWriteAccounts(s, step);
    case Task(_, _) => TaskStepAccounts(s, step);
    case Change(side, e, _) => ChangeAccounts(EndOf(s, side), e);
    case _ =>
  }

  lemma QueueAccounts(s: State, step: Step)
    requires Enabled(s, step)
    ensures After(s, step).queued ==
            match step
            case Act(Begin(_)) => s.queued - 1
            case Act(Finish) => s.queued + RequeueDue(s.world.position)
            case FinishBadly => s.queued + 1
            case Task(_, a) => s.queued + if a.Send? then 1 else 0
            case Merge => s.queued - 1
            case Restart => 1
            case _ => s.queued
  {
  }

  /** A step takes no more from what is due than the reconcile it begins, and adds no more than
      it causes. */
  lemma StepAccounts(s: State, step: Step)
    requires Tame(s) && Enabled(s, step)
    ensures Tame(After(s, step))
    ensures Begun(step) + Due(After(s, step)) <= Due(s) + Causes(s, step)
  {
    StepKeepsTame(s, step);
    QueueAccounts(s, step);
    WatchesAccount(s, step);
    match Underlying(s, step)
    case Act(a) => CallAccounts(s.world, a);
    case under => LoopAccounts(s.world, under);
  }

  function CountReconciles(steps: seq<Step>): nat {
    if steps == [] then 0
    else
      var last := |steps| - 1;
      CountReconciles(steps[..last]) + Begun(steps[last])
  }

  ghost function AllCauses(ss: seq<State>, steps: seq<Step>): nat
    requires Run(ss, steps)
  {
    if steps == [] then 0
    else
      var last := |steps| - 1;
      AllCauses(ss[..last + 1], steps[..last]) + Causes(ss[last], steps[last])
  }

  /** Over every run, whatever fails and whatever others do: the reconciles begun and those still
      due are no more than were due at the start and were caused on the way. */
  lemma {:induction false} EveryReconcileHasACause(ss: seq<State>, steps: seq<Step>)
    requires Run(ss, steps) && Tame(ss[0])
    ensures Tame(ss[|steps|])
    ensures CountReconciles(steps) + Due(ss[|steps|]) <= Due(ss[0]) + AllCauses(ss, steps)
  {
    if steps != [] {
      var last := |steps| - 1;
      EveryReconcileHasACause(ss[..last + 1], steps[..last]);
      StepAccounts(ss[last], steps[last]);
    }
  }

  /** The running reconcile is going to add a finalizer that its snapshot does not show. */
  predicate AddsAgain(w: Lifecycle.World)
    requires w.versions != []
  {
    w.position.Adding? && FinalizerDue(w) == 0
  }

  /** The finalizer is added to an object that has it, because the cache lags. */
  predicate Repeats(s: State, step: Step)
    requires s.world.versions != []
  {
    step.Act? && step.action.PatchFinalizers? && step.action.patched.Done? && AddsAgain(s.world)
  }

  predicate Undisturbed(s: State, step: Step)
    requires s.world.versions != []
  {
    Causes(s, step) == 0 || Repeats(s, step)
  }

  /** Nothing fails, nobody else makes a relevant change, and the controller does not restart.
      The cache may lag, streams may end, servers send bookmarks, and others edit the
      ResourceSync. */
  ghost predicate Quiet(ss: seq<State>, steps: seq<Step>) {
    Run(ss, steps) && forall i | 0 <= i < |steps| :: ss[i].world.versions != [] && Undisturbed(ss[i], steps[i])
  }

  ghost function CountRepeats(ss: seq<State>, steps: seq<Step>): nat
    requires Run(ss, steps)
  {
    if steps == [] then 0
    else
      var last := |steps| - 1;
      CountRepeats(ss[..last + 1], steps[..last]) + if Repeats(ss[last], steps[last]) then 1 else 0
  }

  lemma {:induction false} OnlyRepeatsCause(ss: seq<State>, steps: seq<Step>)
    requires Quiet(ss, steps)
    ensures AllCauses(ss, steps) == CountRepeats(ss, steps)
  {
    if steps != [] {
      OnlyRepeatsCause(ss[..|steps|], steps[..|steps| - 1]);
    }
  }

  // The work left

  function PositionWork(p: Reconcile.Position): nat {
    match p
    case Resolving(_) => TRIGGER - 1
    case GettingSource(_) => 7
    case Building(_) => 6
    case Applying(_) => 5
    case StartingWatches(_, side) => if side.Source? then 3 else 2
    case Adding(_) => 2
    case Returned(_) => 1 + TRIGGER * RequeueDue(p)
    case _ => 0
  }

  function LoopWork(w: Lifecycle.World): nat
    requires w.versions != []
  {
    PositionWork(w.position) + TRIGGER * FinalizerDue(w)
  }

  ghost function WatchesWork(s: State): nat
    requires Fits(s.source) && Fits(s.target)
  {
    TaskWork(s.source) + TaskWork(s.target)
  }

  ghost function Work(s: State): nat
    requires Tame(s)
  {
    TRIGGER * s.queued + LoopWork(s.world) + WatchesWork(s)
  }

  /** A stream that has ended is opened again, and a change that is not relevant is delivered. */
  predicate Interrupts(step: Step) {
    step.Change? || (step.Task? && step.does.EndOfStream?)
  }

  /** Everything but interruptions, bookmarks, and what the cache and others do to the
      ResourceSync. */
  predicate Progresses(step: Step) {
    step.Act? || step.Apply? || step.Merge? || (step.Task? && !Upkeep(step.does))
  }

  lemma CallReducesWork(w: Lifecycle.World, a: Reconcile.Action)
    requires Alive(w) && Lifecycle.Allowed(w, Lifecycle.Act(a))
    requires LoopCauses(w, a) == 0 || (a.PatchFinalizers? && a.patched.Done? && AddsAgain(w))
    ensures var next := Lifecycle.After(w, Lifecycle.Act(a));
            LoopWork(next) + (if a.Finish? then TRIGGER * RequeueDue(w.position) else 0) + (if a.ApplyTarget? then 2 else 1)
            <= LoopWork(w) + (if a.Begin? then TRIGGER else 0) + TRIGGER * LoopCauses(w, a)
  {
    NeverCleansUp(w);
    if a.PatchFinalizers? {
      Lifecycle.RemovedLacksFinalizer(w.position.sync, Lifecycle.Live(w));
    }
  }

  lemma OthersAddNoWork(w: Lifecycle.World, step: Lifecycle.Step)
    requires Alive(w) && Lifecycle.Allowed(w, step) && !step.UserDelete? && !step.Act?
    ensures LoopWork(Lifecycle.After(w, step)) <= LoopWork(w)
  {
  }

  lemma OwnWriteWork(s: State, step: Step)
    requires Tame(s) && Enabled(s, step) && Tame(After(s, step)) && step.Apply?
    ensures WatchesWork(After(s, step)) <= WatchesWork(s) + 1
  {
    if step.write.Some? {
      OwnEventIsSuppressed(s.target, step.write.value);
      ChangeAddsWork(s.target, step.write.value);
    }
  }

  lemma TaskStepWork(s: State, step: Step)
    requires Tame(s) && Enabled(s, step) && Tame(After(s, step)) && step.Task? && SendsCaused(step.does) == 0
    ensures WatchesWork(After(s, step)) + (if step.does.Send? then TRIGGER else 0) + (if Upkeep(step.does) then 0 else 1)
         <= WatchesWork(s) + if step.does.EndOfStream? then 1 else 0
  {
    TaskReducesWork(EndOf(s, step.side), step.does);
  }

  lemma WatchesReduceWork(s: State, step: Step)
    requires Tame(s) && Enabled(s, step) && Tame(After(s, step)) && Undisturbed(s, step)
    ensures WatchesWork(After(s, step)) + (if step.Task? && step.does.Send? then TRIGGER else 0)
            + (if step.Task? && Progresses(step) then 1 else 0)
         <= WatchesWork(s) + (if Interrupts(step) then 1 else 0) + if step.Apply? then 1 else 0
  {
    match step
    case Apply(_, _) => OwnWriteWork(s, step);
    case Task(_, _) => TaskStepWork(s, step);
    case Change(side, e, _) => ChangeAddsWork(EndOf(s, side), e);
    case _ =>
  }

  /** Undisturbed, every step of the controller and its tasks reduces the work left; only an
      interruption adds to it, by one, and a repeated finalizer, by a trigger. */
  lemma StepReducesWork(s: State, step: Step)
    requires Tame(s) && Enabled(s, step) && Undisturbed(s, step)
    ensures Tame(After(s, step))
    ensures Work(After(s, step)) + (if Progresses(step) then 1 else 0)
         <= Work(s) + (if Interrupts(step) then 1 else 0) + if Repeats(s, step) then TRIGGER else 0
  {
    StepKeepsTame(s, step);
    QueueAccounts(s, step);
    WatchesReduceWork(s, step);
    match Underlying(s, step)
    case Act(a) => CallReducesWork(s.world, a);
    case under => OthersAddNoWork(s.world, under);
  }

  function CountProgress(steps: seq<Step>): nat {
    if steps == [] then 0
    else
      var last := |steps| - 1;
      CountProgress(steps[..last]) + if Progresses(steps[last]) then 1 else 0
  }

  function CountInterruptions(steps: seq<Step>): nat {
    if steps == [] then 0
    else
      var last := |steps| - 1;
      CountInterruptions(steps[..last]) + if Interrupts(steps[last]) then 1 else 0
  }

  lemma {:induction false} WorkIsUsedUp(ss: seq<State>, steps: seq<Step>)
    requires Quiet(ss, steps) && Tame(ss[0])
    ensures Tame(ss[|steps|])
    ensures CountProgress(steps) + Work(ss[|steps|])
         <= Work(ss[0]) + CountInterruptions(steps) + TRIGGER * CountRepeats(ss, steps)
  {
    if steps != [] {
      var last := |steps| - 1;
      WorkIsUsedUp(ss[..last + 1], steps[..last]);
      StepReducesWork(ss[last], steps[last]);
    }
  }

  /** A quiet run of any length has no more reconciles than were due at its start, and no more
      steps of the controller and its tasks than there was work, but for one more reconcile and a
      trigger's worth of steps for each finalizer added again, and one more step for each stream
      that ends and each irrelevant change. */
  lemma ComesToRest(ss: seq<State>, steps: seq<Step>)
    requires Quiet(ss, steps) && Tame(ss[0])
    ensures CountReconciles(steps) <= Due(ss[0]) + CountRepeats(ss, steps)
    ensures CountProgress(steps) <= Work(ss[0]) + CountInterruptions(steps) + TRIGGER * CountRepeats(ss, steps)
  {
    EveryReconcileHasACause(ss, steps);
    OnlyRepeatsCause(ss, steps);
    WorkIsUsedUp(ss, steps);
  }

  // At rest means in line

  /** Another reconcile is certain to begin. */
  ghost predicate Owed(s: State)
    requires Tame(s)
  {
    s.queued > 0 || Requeues(s.world.position) || WillSend(s.source) || WillSend(s.target)
  }

  /** Nothing is owed, because what has been read and written so far still stands, or is made up
      for by a watch that the running reconcile is going to start. */
  ghost predicate Settled(s: State)
    requires Tame(s)
  {
    match s.world.position
    case Idle => InLine(s)
    case Returned(_) => InLine(s)
    case Building(_) => s.source.task.None? || s.read == s.desired
    case Applying(_) => s.source.task.None? || s.read == s.desired
    case StartingWatches(_, side) =>
      if side.Source? then s.source.task.None? || s.target.task.None? || UpToSource(s)
      else s.source.task.Some? && (s.target.task.None? || UpToSource(s))
    case _ => true
  }

  /** The target is there and holds what is desired. */
  predicate UpToSource(s: State) {
    s.world.target.Present? && s.content == s.desired
  }

  /** The finalizer is set, both ends are watched, and the target is as desired. */
  ghost predicate InLine(s: State)
    requires s.world.versions != []
  {
    && Reconcile.HasFinalizer(Lifecycle.Live(s.world))
    && s.source.task.Some? && s.target.task.Some?
    && UpToSource(s)
  }

  /** What others change can be told from Sinker's own writes. */
  ghost predicate Attributable(step: Step) {
    step.Change? ==> RemoteWatcher.IsObjectEvent(step.event) && RemoteWatcher.Relevant(step.event)
  }

  /** A reconcile past its first calls has the finalizer, in its snapshot and so in the live
      object. */
  lemma FinalizerIsSet(w: Lifecycle.World)
    requires Alive(w)
    requires w.position.GettingSource? || w.position.Building? || w.position.Applying? || w.position.StartingWatches?
    ensures Reconcile.HasFinalizer(Lifecycle.Live(w))
  {
    assert Reconcile.HasFinalizer(w.versions[w.snapshot]);
  }

  lemma WatchesStillOwe(s: State, step: Step)
    requires Fits(s.source) && Fits(s.target) && Enabled(s, step)
    requires Fits(After(s, step).source) && Fits(After(s, step).target)
    requires (WillSend(s.source) || WillSend(s.target)) && !step.Restart? && !(step.Act? && step.action.StopWatch?)
    ensures var next := After(s, step);
            WillSend(next.source) || WillSend(next.target) || (step.Task? && step.does.Send?)
  {
    match step
    case Task(side, a) => WillSendUntilItDoes(EndOf(s, side), a);
    case Change(side, e, _) => RelevantChangeWillBeSent(EndOf(s, side), e);
    case Apply(_, Some(e)) => RelevantChangeWillBeSent(s.target, e);
    case _ =>
  }

  lemma LoopStillOwes(s: State, step: Step)
    requires Enabled(s, step) && Begun(step) == 0
    requires s.queued > 0 || Requeues(s.world.position) || step.Restart? || (step.Task? && step.does.Send?)
    ensures After(s, step).queued > 0 || Requeues(After(s, step).world.position)
  {
    QueueAccounts(s, step);
  }

  lemma OwedUntilBegun(s: State, step: Step)
    requires Tame(s) && Enabled(s, step) && Tame(After(s, step))
    requires Owed(s) && Begun(step) == 0
    ensures Owed(After(s, step))
  {
    if s.queued > 0 || Requeues(s.world.position) || step.Restart? || (step.Task? && step.does.Send?) {
      LoopStillOwes(s, step);
    } else {
      WatchesStillOwe(s, step);
    }
  }

  lemma SettledByTask(s: State, step: Step)
    requires Tame(s) && Enabled(s, step) && Tame(After(s, step))
    requires Settled(s) && (step.Task? || step.Merge? || step.Refresh? || step.Edit? || step.Mark?)
    ensures Settled(After(s, step))
  {
  }

  lemma SettledByChange(s: State, step: Step)
    requires Tame(s) && Enabled(s, step) && Tame(After(s, step))
    requires Settled(s) && step.Change? && Attributable(step)
    ensures Owed(After(s, step)) || Settled(After(s, step))
  {
    RelevantChangeWillBeSent(EndOf(s, step.side), step.event);
  }

  lemma SettledByCall(s: State, step: Step)
    requires Tame(s) && Enabled(s, step) && Tame(After(s, step))
    requires Settled(s) && (step.Act? || step.Apply? || step.FinishBadly?)
    ensures Owed(After(s, step)) || Settled(After(s, step))
  {
    NeverCleansUp(s.world);
    if s.world.position.StartingWatches? {
      FinalizerIsSet(s.world);
    }
  }

  /** Nothing is forgotten: either a reconcile is still to come or none is needed. */
  ghost predicate OnTrack(s: State) {
    Tame(s) && (Owed(s) || Settled(s))
  }

  lemma StepKeepsOnTrack(s: State, step: Step)
    requires OnTrack(s) && Enabled(s, step) && Attributable(step)
    ensures OnTrack(After(s, step))
  {
    StepKeepsTame(s, step);
    if Owed(s) && Begun(step) == 0 {
      OwedUntilBegun(s, step);
    } else if Begun(step) == 0 {
      match step
      case Change(_, _, _) => SettledByChange(s, step);
      case Restart =>
      case Act(_) => SettledByCall(s, step);
      case Apply(_, _) => SettledByCall(s, step);
      case FinishBadly => SettledByCall(s, step);
      case _ => SettledByTask(s, step);
    }
  }

  lemma {:induction false} StaysOnTrack(ss: seq<State>, steps: seq<Step>, n: nat)
    requires Run(ss, steps) && OnTrack(ss[0]) && n <= |steps|
    requires forall i | 0 <= i < |steps| :: Attributable(steps[i])
    ensures OnTrack(ss[n])
  {
    if n > 0 {
      StaysOnTrack(ss, steps, n - 1);
      StepKeepsOnTrack(ss[n - 1], steps[n - 1]);
    }
  }

  /** What a task does of itself: no stream has to end or break, and no server has to send a
      bookmark or an error. */
  predicate TasksOwn(a: RemoteWatcher.Action) {
    match a
    case Receive(e) => RemoteWatcher.IsObjectEvent(e) && RemoteWatcher.Versioned(e)
    case EndOfStream => false
    case BrokenStream => false
    case _ => true
  }

  predicate Own(step: Step) {
    step.Act? || step.Apply? || step.Merge? || (step.Task? && TasksOwn(step.does))
  }

  /** The controller and its tasks have nothing to do. */
  ghost predicate AtRest(s: State) {
    forall step | Own(step) :: !Enabled(s, step)
  }

  /** A reconcile under way has a next call, and one that has returned ends. */
  lemma LoopMoves(s: State) returns (step: Step)
    requires Tame(s) && !s.world.position.Idle?
    ensures Own(step) && Enabled(s, step)
    ensures Undisturbed(s, step)
  {
    NeverCleansUp(s.world);
    match s.world.position
    case Resolving(_) => step := Act(Reconcile.ResolveApis(true));
    case Adding(sync) =>
      step := Act(Reconcile.PatchFinalizers(Finalizers.Added(sync.finalizers), Reconcile.Done));
    case GettingSource(_) => step := Act(Reconcile.GetSource(true));
    case Building(_) => step := Act(Reconcile.BuildTarget(true));
    case Applying(_) =>
      var e := SomeOwnWrite(s.target);
      step := Apply(Reconcile.Done, Some(e));
    case StartingWatches(_, side) => step := Act(Reconcile.StartWatch(side));
    case Returned(_) => step := Act(Reconcile.Finish);
  }

  lemma TaskMoves(end: End) returns (a: RemoteWatcher.Action)
    requires Fits(end) && end.task.Some? && !UpToDate(end)
    ensures TasksOwn(a) && TaskMay(end, a)
    ensures end.newest > RemoteWatcher.BEGINNING ==> SendsCaused(a) == 0
  {
    match end.task.value
    case Starting =>
      NothingSinceNewest(end.log, end.newest);
      a := if end.newest > RemoteWatcher.BEGINNING then RemoteWatcher.Fetch(end.newest) else RemoteWatcher.StartFailed;
    case Known(_) => a := RemoteWatcher.Send;
    case Connecting(v) => a := RemoteWatcher.Connect(v, true);
    case Owing(_) => a := RemoteWatcher.Send;
    case Failing => a := RemoteWatcher.Send;
    case Streaming(v) => a := RemoteWatcher.Receive(Coming(end, v)[0]);
  }

  lemma RestingTask(s: State, side: Reconcile.Side)
    requires Tame(s) && AtRest(s) && EndOf(s, side).task.Some?
    ensures UpToDate(EndOf(s, side)) && !WillSend(EndOf(s, side))
  {
    if !UpToDate(EndOf(s, side)) {
      var a := TaskMoves(EndOf(s, side));
      assert Own(Task(side, a)) && Enabled(s, Task(side, a));
    }
  }

  lemma RestingLoop(s: State)
    requires Tame(s) && AtRest(s)
    ensures s.world.position.Idle? && s.queued == 0
  {
    if !s.world.position.Idle? {
      var step := LoopMoves(s);
    } else if s.queued > 0 {
      var begin := Act(Reconcile.Begin(s.world.versions[s.world.cached]));
      assert Own(begin) && Enabled(s, begin);
    }
  }

  /** In line, with nothing queued or under way, and both watches told of every change. */
  ghost predicate Synced(s: State) {
    && Tame(s) && InLine(s) && s.queued == 0 && s.world.position.Idle?
    && UpToDate(s.source) && UpToDate(s.target)
  }

  lemma RestIsSynced(s: State)
    requires OnTrack(s) && AtRest(s)
    ensures Synced(s)
  {
    RestingLoop(s);
    if s.source.task.Some? {
      RestingTask(s, Reconcile.Source);
    }
    if s.target.task.Some? {
      RestingTask(s, Reconcile.Target);
    }
  }

  /** Over every run from the start, with calls and watches failing, the cache lagging, others
      changing source and target and editing the ResourceSync, and the controller restarting: as
      long as the changes can be told from Sinker's own, a sync that has come to rest is in line
      with the source as it is now, nothing is queued, and both watches have been told of every
      change. */
  lemma RestMeansSynced(ss: seq<State>, steps: seq<Step>)
    requires Run(ss, steps) && Fresh(ss[0])
    requires forall i | 0 <= i < |steps| :: Attributable(steps[i])
    requires AtRest(ss[|steps|])
    ensures Synced(ss[|steps|])
  {
    FreshIsTame(ss[0]);
    StaysOnTrack(ss, steps, |steps|);
    RestIsSynced(ss[|steps|]);
  }

  /** The converse: a sync that is in line, or not watched yet, with nothing queued or to be
      told is at rest. */
  lemma NothingToDo(s: State)
    requires Fits(s.source) && Fits(s.target) && s.queued == 0 && s.world.position.Idle?
    requires s.source.task.None? || UpToDate(s.source)
    requires s.target.task.None? || UpToDate(s.target)
    ensures AtRest(s)
  {
    forall step | Own(step) ensures !Enabled(s, step) {
      match step
      case Task(side, a) => assert EndOf(s, side).task.None? || UpToDate(EndOf(s, side));
      case _ =>
    }
  }

  /** Both objects have existed. */
  predicate BothExist(s: State) {
    s.source.newest > RemoteWatcher.BEGINNING && s.target.newest > RemoteWatcher.BEGINNING
  }

  /** Until it is at rest, a sync can go on of itself and without a failure. */
  lemma GoesOnUntilRest(s: State) returns (step: Step)
    requires Tame(s) && !AtRest(s) && BothExist(s)
    ensures Own(step) && Enabled(s, step) && Undisturbed(s, step)
  {
    if !s.world.position.Idle? {
      step := LoopMoves(s);
    } else if s.queued > 0 {
      step := Act(Reconcile.Begin(s.world.versions[s.world.cached]));
    } else if s.source.task.Some? && !UpToDate(s.source) {
      var a := TaskMoves(s.source);
      step := Task(Reconcile.Source, a);
    } else if s.target.task.Some? && !UpToDate(s.target) {
      var a := TaskMoves(s.target);
      step := Task(Reconcile.Target, a);
    } else {
      NothingToDo(s);
      assert false;
    }
  }

  // Rest is reached

  predicate CaughtUp(w: Lifecycle.World) {
    w.versions != [] && w.cached == |w.versions| - 1
  }

  /** The running reconcile has not seen a finalizer that is there, and may add it again. */
  predicate Stale(w: Lifecycle.World)
    requires w.versions != []
  {
    && (w.position.Resolving? || w.position.Adding?)
    && !Reconcile.HasFinalizer(w.position.sync) && Reconcile.HasFinalizer(Lifecycle.Live(w))
  }

  /** Where the cache has caught up, no reconcile begins with a stale snapshot, and one that has
      adds the finalizer again at most once. */
  lemma NoLongerStale(s: State, step: Step)
    requires Tame(s) && CaughtUp(s.world) && Enabled(s, step) && Own(step)
    ensures After(s, step).world.versions != []
    ensures Stale(After(s, step).world) ==> Stale(s.world)
    ensures Repeats(s, step) ==> Stale(s.world) && !Stale(After(s, step).world)
  {
    NeverCleansUp(s.world);
  }

  lemma StillExist(s: State, step: Step)
    requires Enabled(s, step) && BothExist(s)
    ensures BothExist(After(s, step))
  {
  }

  function CatchUp(s: State): Step
    requires s.world.versions != []
  {
    Refresh(|s.world.versions| - 1)
  }

  lemma CatchesUp(s: State)
    requires Tame(s)
    ensures Enabled(s, CatchUp(s)) && Tame(After(s, CatchUp(s))) && CaughtUp(After(s, CatchUp(s)).world)
    ensures Work(After(s, CatchUp(s))) <= Work(s)
    ensures Stale(After(s, CatchUp(s)).world) <==> Stale(s.world)
    ensures BothExist(s) ==> BothExist(After(s, CatchUp(s)))
  {
    StepReducesWork(s, CatchUp(s));
  }

  lemma StartsWith(s: State, step: Step, ss: seq<State>, steps: seq<Step>)
    requires Quiet(ss, steps) && Enabled(s, step) && Undisturbed(s, step) && ss[0] == After(s, step)
    ensures Quiet([s] + ss, [step] + steps)
  {
    var longer, more := [s] + ss, [step] + steps;
    forall i | 0 <= i < |more|
      ensures Enabled(longer[i], more[i]) && longer[i + 1] == After(longer[i], more[i])
      ensures longer[i].world.versions != [] && Undisturbed(longer[i], more[i])
    {
      if i > 0 {
        assert longer[i] == ss[i - 1] && more[i] == steps[i - 1] && longer[i + 1] == ss[i];
      }
    }
  }

  /** Only what the controller and its tasks do of themselves, with the cache catching up. */
  predicate ByItself(steps: seq<Step>) {
    forall i | 0 <= i < |steps| :: Own(steps[i]) || steps[i].Refresh?
  }

  /** A step of the sync by itself, after which the cache catches up: there is less to do. */
  lemma OneRound(s: State) returns (step: Step, next: State, t: State)
    requires Tame(s) && CaughtUp(s.world) && BothExist(s) && !AtRest(s)
    ensures Own(step) && Enabled(s, step) && Undisturbed(s, step) && next == After(s, step)
    ensures Tame(next) && Enabled(next, CatchUp(next)) && t == After(next, CatchUp(next))
    ensures Tame(t) && CaughtUp(t.world) && BothExist(t)
    ensures Stale(t.world) ==> Stale(s.world)
    ensures Work(t) < Work(s) || (Stale(s.world) && !Stale(t.world))
  {
    step := GoesOnUntilRest(s);
    next := After(s, step);
    StepReducesWork(s, step);
    NoLongerStale(s, step);
    StillExist(s, step);
    CatchesUp(next);
    t := After(next, CatchUp(next));
  }

  lemma StartsWithRound(s: State, step: Step, next: State, ss: seq<State>, steps: seq<Step>)
    returns (tt: seq<State>, more: seq<Step>)
    requires Own(step) && Enabled(s, step) && Undisturbed(s, step) && next == After(s, step)
    requires Tame(next) && Enabled(next, CatchUp(next)) && ss != [] && ss[0] == After(next, CatchUp(next))
    requires Quiet(ss, steps) && ByItself(steps)
    ensures Quiet(tt, more) && ByItself(more) && tt[0] == s && tt[|more|] == ss[|steps|]
  {
    StartsWith(next, CatchUp(next), ss, steps);
    StartsWith(s, step, [next] + ss, [CatchUp(next)] + steps);
    tt, more := [s] + ([next] + ss), [step] + ([CatchUp(next)] + steps);
  }

  /** From every state whose cache has caught up, a quiet run of the sync by itself reaches
      rest. */
  lemma {:induction false} ReachesRest(s: State) returns (ss: seq<State>, steps: seq<Step>)
    requires Tame(s) && CaughtUp(s.world) && BothExist(s)
    ensures Quiet(ss, steps) && ByItself(steps) && ss[0] == s && AtRest(ss[|steps|])
    decreases if Stale(s.world) then 1 else 0, Work(s)
  {
    if AtRest(s) {
      ss, steps := [s], [];
    } else {
      var step, next, t := OneRound(s);
      ss, steps := ReachesRest(t);
      ss, steps := StartsWithRound(s, step, next, ss, steps);
    }
  }

  /** Whatever has failed and changed since the start, as long as the changes could be told from
      Sinker's own: a sync left to itself can come in line, with no more reconciles than are due
      and finalizers are added again. */
  lemma ComesInLine(ss: seq<State>, steps: seq<Step>) returns (tt: seq<State>, more: seq<Step>)
    requires Run(ss, steps) && Fresh(ss[0]) && BothExist(ss[|steps|])
    requires forall i | 0 <= i < |steps| :: Attributable(steps[i])
    ensures Quiet(tt, more) && ByItself(more) && tt[0] == ss[|steps|] && Synced(tt[|more|])
    ensures Tame(tt[0]) && CountReconciles(more) <= Due(tt[0]) + CountRepeats(tt, more)
  {
    var s := ss[|steps|];
    FreshIsTame(ss[0]);
    StaysOnTrack(ss, steps, |steps|);
    CatchesUp(s);
    tt, more := ReachesRest(After(s, CatchUp(s)));
    StartsWith(s, CatchUp(s), tt, more);
    tt, more := [s] + tt, [CatchUp(s)] + more;
    ComesToRest(tt, more);
    StaysOnTrackByItself(tt, more);
    RestIsSynced(tt[|more|]);
  }

  lemma StaysOnTrackByItself(ss: seq<State>, steps: seq<Step>)
    requires Run(ss, steps) && ByItself(steps) && OnTrack(ss[0])
    ensures OnTrack(ss[|steps|])
  {
    StaysOnTrack(ss, steps, |steps|);
  }

  // A change that cannot be told from Sinker's own

  /** What a change of this side must leave as it was for the sync to stay in line. */
  function Standing(s: State, side: Reconcile.Side): Json {
    if side.Source? then s.content else s.desired
  }

  /** A run from `s` in which others make this one change and no other. */
  ghost predicate OneChange(
    ss: seq<State>, steps: seq<Step>, s: State, side: Reconcile.Side, e: RemoteWatcher.Event, now: Json)
  {
    && Run(ss, steps) && ss[0] == s
    && steps != [] && steps[0] == Change(side, e, now)
    && forall i | 0 < i < |steps| :: !steps[i].Change?
  }

  /** The change leaves the sync at rest and out of line. */
  ghost predicate Missed(s: State, side: Reconcile.Side, e: RemoteWatcher.Event, now: Json) {
    exists ss, steps :: OneChange(ss, steps, s, side, e, now) && AtRest(ss[|steps|]) && !UpToSource(ss[|steps|])
  }

  lemma ChangeIsPending(s: State, side: Reconcile.Side, e: RemoteWatcher.Event, now: Json)
    requires Synced(s) && IsNewChange(EndOf(s, side), e) && !RemoteWatcher.Relevant(e)
    ensures Enabled(s, Change(side, e, now))
    ensures var changed := After(s, Change(side, e, now));
            && Tame(changed) && changed.queued == 0 && changed.world.position.Idle?
            && changed.world.versions == s.world.versions && changed.world.target.Present?
            && EndOf(changed, side) == Changed(EndOf(s, side), e)
            && WithEnd(changed, side, EndOf(s, side)).source == s.source
            && WithEnd(changed, side, EndOf(s, side)).target == s.target
            && changed.content == (if side.Target? then now else s.content)
            && changed.desired == (if side.Source? then now else s.desired)
  {
    StepKeepsTame(s, Change(side, e, now));
  }

  lemma ChangeIsDelivered(s: State, side: Reconcile.Side, e: RemoteWatcher.Event, changed: State)
    requires Tame(changed) && changed.queued == 0 && changed.world.position.Idle?
    requires Fits(s.source) && Fits(s.target) && UpToDate(s.source) && UpToDate(s.target)
    requires IsNewChange(EndOf(s, side), e) && !RemoteWatcher.Relevant(e)
    requires EndOf(changed, side) == Changed(EndOf(s, side), e)
    requires WithEnd(changed, side, EndOf(s, side)).source == s.source
    requires WithEnd(changed, side, EndOf(s, side)).target == s.target
    ensures var receive := Task(side, RemoteWatcher.Receive(e));
            && Enabled(changed, receive) && AtRest(After(changed, receive))
            && After(changed, receive).content == changed.content && After(changed, receive).desired == changed.desired
  {
    var receive := Task(side, RemoteWatcher.Receive(e));
    IrrelevantChangePasses(EndOf(s, side), e);
    StepKeepsTame(changed, receive);
    NothingToDo(After(changed, receive));
  }

  lemma UnattributedChangeGoesUnseen(s: State, side: Reconcile.Side, e: RemoteWatcher.Event, now: Json)
    returns (ss: seq<State>, steps: seq<Step>)
    requires Synced(s) && IsNewChange(EndOf(s, side), e) && !RemoteWatcher.Relevant(e)
    ensures OneChange(ss, steps, s, side, e, now) && AtRest(ss[|steps|])
    ensures ss[|steps|].content == (if side.Target? then now else s.content)
    ensures ss[|steps|].desired == (if side.Source? then now else s.desired)
  {
    ChangeIsPending(s, side, e, now);
    var changed := After(s, Change(side, e, now));
    ChangeIsDelivered(s, side, e, changed);
    var receive := Task(side, RemoteWatcher.Receive(e));
    ss, steps := [s, changed, After(changed, receive)], [Change(side, e, now), receive];
  }

  /** After a change that is relevant, or that leaves the sync in line. */
  lemma SeenOrHarmless(s: State, side: Reconcile.Side, e: RemoteWatcher.Event, now: Json)
    requires Synced(s) && Enabled(s, Change(side, e, now))
    requires RemoteWatcher.Relevant(e) || now == Standing(s, side)
    ensures var changed := After(s, Change(side, e, now)); OnTrack(changed)
  {
    if RemoteWatcher.Relevant(e) {
      StepKeepsTame(s, Change(side, e, now));
      SettledByChange(s, Change(side, e, now));
    } else {
      ChangeIsPending(s, side, e, now);
    }
  }

  lemma SeenOrHarmlessRun(
    ss: seq<State>, steps: seq<Step>, s: State, side: Reconcile.Side, e: RemoteWatcher.Event, now: Json)
    requires OneChange(ss, steps, s, side, e, now)
    requires Synced(s) && (RemoteWatcher.Relevant(e) || now == Standing(s, side))
    ensures OnTrack(ss[|steps|])
  {
    SeenOrHarmless(s, side, e, now);
    var rest, more := ss[1..], steps[1..];
    assert Run(rest, more) by {
      forall i | 0 <= i < |more| ensures Enabled(rest[i], more[i]) && rest[i + 1] == After(rest[i], more[i]) {
        assert rest[i] == ss[i + 1] && more[i] == steps[i + 1] && rest[i + 1] == ss[i + 2];
      }
    }
    StaysOnTrack(rest, more, |more|);
  }

  /** From every synced state: a change of the source or target by others, followed by anything
      but more changes, can leave the sync at rest and out of line exactly when it is taken for
      Sinker's own and makes a difference. */
  lemma MissedExactlyWhenTakenForOwn(s: State, side: Reconcile.Side, e: RemoteWatcher.Event, now: Json)
    requires Synced(s) && IsNewChange(EndOf(s, side), e)
    ensures Missed(s, side, e, now) <==> !RemoteWatcher.Relevant(e) && now != Standing(s, side)
  {
    if !RemoteWatcher.Relevant(e) && now != Standing(s, side) {
      var ss, steps := UnattributedChangeGoesUnseen(s, side, e, now);
      assert OneChange(ss, steps, s, side, e, now) && AtRest(ss[|steps|]) && !UpToSource(ss[|steps|]);
    } else {
      forall ss, steps | OneChange(ss, steps, s, side, e, now) && AtRest(ss[|steps|]) ensures UpToSource(ss[|steps|]) {
        SeenOrHarmlessRun(ss, steps, s, side, e, now);
        RestIsSynced(ss[|steps|]);
      }
    }
  }

  /** One ResourceSync writes an object that is the source of another. Both write under one
      manager, so a write of the first that makes a difference to the second can leave the second
      at rest and out of line. */
  lemma ChainedSyncIsMissed(s: State, e: RemoteWatcher.Event, now: Json)
    requires Synced(s) && IsOwnWrite(s.source, e) && now != s.content
    ensures Missed(s, Reconcile.Source, e, now)
  {
    OwnEventIsSuppressed(s.source, e);
    MissedExactlyWhenTakenForOwn(s, Reconcile.Source, e, now);
  }

  /** So can a change of the target that is taken for Sinker's own. */
  lemma UnattributedChangeIsMissed(s: State, e: RemoteWatcher.Event, now: Json)
    requires Synced(s) && IsNewChange(s.target, e) && !RemoteWatcher.Relevant(e) && now != s.desired
    ensures Missed(s, Reconcile.Target, e, now)
  {
    MissedExactlyWhenTakenForOwn(s, Reconcile.Target, e, now);
  }
}
