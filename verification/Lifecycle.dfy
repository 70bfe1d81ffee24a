/** Reconciles of one ResourceSync among everything else that happens to it and its target. */
module Lifecycle {
  import opened Wrappers
  import opened Finalizers
  import opened Reconcile

  datatype TargetObject = Absent | Present(deleting: bool, finalizers: seq<string>)

  /** `versions` are all versions the ResourceSync has had, the live one last; `cached` is the
      one the cache has reached and `snapshot` the one the running reconcile was given. */
  datatype World = World(
    versions: seq<Sync>,
    gone: bool,
    cached: nat,
    snapshot: nat,
    position: Position,
    target: TargetObject,
    watches: set<Side>)

  datatype Step =
    | Act(action: Action)
    | UserDelete
    | Edit(sync: Sync)
    | Observe(upTo: nat)
    | TargetChange(target: TargetObject)
    | Restart

  function Start(sync: Sync, target: TargetObject): World {
    World([sync], false, 0, 0, Idle, target, {})
  }

  function Live(w: World): Sync
    requires w.versions != []
  {
    w.versions[|w.versions| - 1]
  }

  function FinalizerList(s: Sync): seq<string> {
    FinalizersCloneOrEmpty(s.finalizers)
  }

  /** A new version of the object, which goes away once it is deleted and nothing holds it. */
  function WithVersion(w: World, s: Sync): World {
    w.(versions := w.versions + [s], gone := w.gone || (s.deleting && FinalizerList(s) == []))
  }

  predicate TookEffect(r: Reply) {
    !r.Failed?
  }

  /** The version of the ResourceSync that a step writes, if it writes one. */
  function Written(w: World, step: Step): Option<Sync>
    requires w.versions != []
  {
    match step
    case Act(PatchFinalizers(list, r)) =>
      if TookEffect(r) then Some(Live(w).(finalizers := Some(list))) else None
    case UserDelete => Some(Live(w).(deleting := true))
    case Edit(s) => Some(s)
    case _ => None
  }

  function TargetAfter(t: TargetObject, a: Action): TargetObject {
    match a
    case DeleteTarget(_, r) => if TookEffect(r) && t.Present? then t.(deleting := true) else t
    case ApplyTarget(r) => if TookEffect(r) && t.Absent? then Present(false, []) else t
    case _ => t
  }

  function WatchesAfter(watches: set<Side>, a: Action): set<Side> {
    match a
    case StopWatch(side) => watches - {side}
    case StartWatch(side) => watches + {side}
    case _ => watches
  }

  /** What the API server and the cache allow an action to see and do. */
  predicate ActionAllowed(w: World, a: Action)
    requires w.versions != [] && w.cached < |w.versions|
  {
    && Next(w.position, a).Some?
    && (a.Begin? ==> a.sync == w.versions[w.cached])
    && (a.GetTarget? && a.got.NotFound? ==> w.target.Absent?)
    && (a.GetTarget? && a.got.Found? ==> w.target == Present(a.got.deleting, a.got.finalizers))
    && (a.PatchFinalizers? && TookEffect(a.patched) ==> !w.gone)
  }

  predicate Allowed(w: World, step: Step)
    requires w.versions != [] && w.cached < |w.versions|
  {
    match step
    case Act(a) => ActionAllowed(w, a)
    case UserDelete => !w.gone
    // other finalizers and the annotations come and go; Sinker's is left alone
    case Edit(s) => !w.gone && s.deleting == Live(w).deleting && (HasFinalizer(Live(w)) ==> HasFinalizer(s))
    case Observe(n) => w.cached <= n < |w.versions|
    case TargetChange(_) => true
    case Restart => true
  }

  /** What a step does to everything but the versions of the ResourceSync. */
  function Moved(w: World, step: Step): World
    requires w.versions != [] && w.cached < |w.versions| && Allowed(w, step)
  {
    match step
    case Act(a) =>
      w.(position := Next(w.position, a).value,
         snapshot := if a.Begin? then w.cached else w.snapshot,
         target := TargetAfter(w.target, a),
         watches := WatchesAfter(w.watches, a))
    case Observe(n) => w.(cached := n)
    case TargetChange(t) => w.(target := t)
    case Restart => w.(position := Idle, watches := {})
    case _ => w
  }

  function After(w: World, step: Step): World
    requires w.versions != [] && w.cached < |w.versions| && Allowed(w, step)
    ensures w.versions <= After(w, step).versions && After(w, step).cached < |After(w, step).versions|
  {
    var written := Written(w, step);
    if written.None? then Moved(w, step) else WithVersion(Moved(w, step), written.value)
  }

  /** `ws[i + 1]` comes from `ws[i]` by `steps[i]`. */
  ghost predicate Linked(ws: seq<World>, steps: seq<Step>) {
    && |ws| == |steps| + 1
    && forall i | 0 <= i < |steps| ::
         && ws[i].versions != [] && ws[i].cached < |ws[i].versions|
         && Allowed(ws[i], steps[i]) && ws[i + 1] == After(ws[i], steps[i])
  }

  /** The worlds of a run, from its start. */
  ghost predicate Run(ws: seq<World>, steps: seq<Step>) {
    Linked(ws, steps) && exists s, t :: ws[0] == Start(s, t)
  }

  /** The three reasons for giving a target up, each seen by a reconcile of a deleted
      snapshot: the target is absent, its deletion is disabled, or the APIs cannot be resolved
      and the deletion is forced. */
  predicate Releases(w: World, step: Step) {
    || (step == Act(GetTarget(NotFound)) && w.position.GettingTarget? && w.position.sync.deleting && w.target.Absent?)
    || (w.position.Resolving? && w.position.sync.deleting &&
        ((step == Act(ResolveApis(true)) && w.position.sync.disableTargetDeletion && HasFinalizer(w.position.sync)) ||
         (step == Act(ResolveApis(false)) && w.position.sync.forceDelete)))
  }

  predicate Applies(step: Step) {
    step.Act? && step.action.ApplyTarget?
  }

  // What every step keeps

  /** The snapshot of the running reconcile is a version the cache had reached. */
  predicate SnapshotKnown(w: World) {
    && w.cached < |w.versions|
    && (w.position.Idle? || w.position.Returned? ||
        (w.snapshot <= w.cached && w.versions[w.snapshot] == w.position.sync))
  }

  predicate DeletionIsFinal(w: World) {
    forall i, j | 0 <= i <= j < |w.versions| :: w.versions[i].deleting ==> w.versions[j].deleting
  }

  /** The position fits the snapshot: cleanup only where it is deleted, the rest where not. */
  predicate PositionFits(p: Position) {
    match p
    case GettingTarget(s) => s.deleting && HasFinalizer(s)
    case DeletingTarget(s, _) => s.deleting && HasFinalizer(s)
    case Stopping(s, _) => s.deleting
    case Removing(s) => s.deleting
    case Adding(s) => !s.deleting && !HasFinalizer(s)
    case GettingSource(s) => !s.deleting && HasFinalizer(s)
    case Building(s) => !s.deleting && HasFinalizer(s)
    case Applying(s) => !s.deleting && HasFinalizer(s)
    case StartingWatches(s, _) => HasFinalizer(s)
    case _ => true
  }

  predicate FinalizerKept(w: World) {
    forall i, j | 0 <= i <= j < |w.versions| :: HasFinalizer(w.versions[i]) ==> HasFinalizer(w.versions[j])
  }

  predicate GoneUnheld(w: World) {
    w.gone ==> w.versions != [] && !HasFinalizer(Live(w))
  }

  predicate Sound(w: World) {
    SnapshotKnown(w) && DeletionIsFinal(w) && PositionFits(w.position) && GoneUnheld(w)
  }

  lemma RemovedLacksFinalizer(s: Sync, t: Sync)
    ensures !HasFinalizer(t.(finalizers := Some(Removed(s.finalizers))))
    ensures HasFinalizer(t.(finalizers := Some(Added(s.finalizers))))
    ensures HasFinalizer(t) ==> FinalizerList(t) != []
  {
  }

  /** A version that is written stays deleted, and loses Sinker's finalizer only in the
      removal at the end of a cleanup. */
  lemma WhatIsWritten(w: World, step: Step)
    requires w.versions != [] && w.cached < |w.versions| && Allowed(w, step) && Written(w, step).Some?
    ensures !w.gone && (Live(w).deleting ==> Written(w, step).value.deleting)
    ensures HasFinalizer(Live(w)) && !w.position.Removing? ==> HasFinalizer(Written(w, step).value)
    ensures HasFinalizer(Written(w, step).value) ==> FinalizerList(Written(w, step).value) != []
  {
    if step.Act? {
      if w.position.Adding? || w.position.Removing? {
        RemovedLacksFinalizer(w.position.sync, Live(w));
      }
    }
  }

  lemma StepKeepsSnapshotKnown(w: World, step: Step)
    requires SnapshotKnown(w) && Allowed(w, step)
    ensures SnapshotKnown(Moved(w, step)) && SnapshotKnown(After(w, step))
  {
  }

  lemma StepKeepsDeletionFinal(w: World, step: Step)
    requires w.cached < |w.versions| && Allowed(w, step) && DeletionIsFinal(w)
    ensures DeletionIsFinal(After(w, step))
  {
    if Written(w, step).Some? {
      WhatIsWritten(w, step);
    }
  }

  lemma StepKeepsPositionFits(w: World, step: Step)
    requires w.cached < |w.versions| && Allowed(w, step) && PositionFits(w.position)
    ensures PositionFits(After(w, step).position)
  {
    assert After(w, step).position == Moved(w, step).position;
  }

  lemma StepKeepsGoneUnheld(w: World, step: Step)
    requires w.cached < |w.versions| && Allowed(w, step) && GoneUnheld(w)
    ensures GoneUnheld(After(w, step))
  {
    if Written(w, step).Some? {
      WhatIsWritten(w, step);
    }
  }

  lemma StepKeepsSound(w: World, step: Step)
    requires Sound(w) && Allowed(w, step)
    ensures Sound(After(w, step))
  {
    StepKeepsSnapshotKnown(w, step);
    StepKeepsDeletionFinal(w, step);
    StepKeepsPositionFits(w, step);
    StepKeepsGoneUnheld(w, step);
  }

  lemma StepKeepsFinalizer(w: World, step: Step)
    requires w.cached < |w.versions| && Allowed(w, step) && FinalizerKept(w) && !w.position.Removing?
    ensures FinalizerKept(After(w, step))
  {
    if Written(w, step).Some? {
      WhatIsWritten(w, step);
    }
  }

  /** A cleanup that has got as far as giving the target up. */
  predicate CleaningUp(p: Position) {
    p.Stopping? || p.Removing?
  }

  /** Once released, the cached version is deleted and so is every later snapshot; until then
      Sinker's finalizer is kept, and no removal is under way. */
  predicate ReleaseState(w: World, released: bool) {
    if released then
      && w.cached < |w.versions| && w.versions[w.cached].deleting
      && (UnderWay(w.position) ==> w.position.sync.deleting)
    else FinalizerKept(w) && !CleaningUp(w.position)
  }

  lemma ReleaseStartsWithDeletion(w: World, step: Step)
    requires Sound(w) && Allowed(w, step) && Releases(w, step)
    ensures ReleaseState(After(w, step), true)
  {
    assert w.versions[w.snapshot].deleting;
  }

  lemma ReleaseIsLasting(w: World, step: Step)
    requires Sound(w) && Allowed(w, step) && ReleaseState(w, true)
    ensures ReleaseState(After(w, step), true)
  {
    var next := Moved(w, step);
    assert next.versions[next.cached].deleting;
    assert UnderWay(next.position) ==> next.position.sync.deleting;
  }

  lemma NoCleanupWithoutRelease(w: World, step: Step)
    requires Sound(w) && Allowed(w, step) && !CleaningUp(w.position) && !Releases(w, step)
    ensures !CleaningUp(Moved(w, step).position)
  {
  }

  lemma StepKeepsReleaseState(w: World, step: Step, released: bool)
    requires Sound(w) && Allowed(w, step) && ReleaseState(w, released)
    ensures ReleaseState(After(w, step), released || Releases(w, step))
  {
    if released {
      ReleaseIsLasting(w, step);
    } else if Releases(w, step) {
      ReleaseStartsWithDeletion(w, step);
    } else {
      StepKeepsFinalizer(w, step);
      NoCleanupWithoutRelease(w, step);
    }
  }

  ghost predicate ReleasedBefore(ws: seq<World>, steps: seq<Step>, n: nat)
    requires n <= |steps| && |ws| == |steps| + 1
  {
    exists k :: 0 <= k < n && Releases(ws[k], steps[k])
  }

  lemma {:induction false} RunState(ws: seq<World>, steps: seq<Step>, n: nat)
    requires Run(ws, steps) && n <= |steps|
    ensures Sound(ws[n]) && ReleaseState(ws[n], ReleasedBefore(ws, steps, n))
  {
    if n > 0 {
      RunState(ws, steps, n - 1);
      StepKeepsSound(ws[n - 1], steps[n - 1]);
      StepKeepsReleaseState(ws[n - 1], steps[n - 1], ReleasedBefore(ws, steps, n - 1));
      assert ReleasedBefore(ws, steps, n) <==>
             ReleasedBefore(ws, steps, n - 1) || Releases(ws[n - 1], steps[n - 1]);
    }
  }

  lemma {:induction false} VersionsOnlyGrow(ws: seq<World>, steps: seq<Step>, i: nat, n: nat)
    requires Run(ws, steps) && i <= n <= |steps|
    ensures ws[i].versions <= ws[n].versions
    decreases n
  {
    if i < n {
      VersionsOnlyGrow(ws, steps, i, n - 1);
    }
  }

  // The guarantees

  /** After a release nothing is applied any more. */
  lemma NothingAppliedAfterRelease(ws: seq<World>, steps: seq<Step>, k: nat, j: nat)
    requires Run(ws, steps) && k < j < |steps| && Releases(ws[k], steps[k])
    ensures !Applies(steps[j])
  {
    RunState(ws, steps, j);
    assert ReleasedBefore(ws, steps, j);
  }

  lemma NothingReleasedBeforeApply(ws: seq<World>, steps: seq<Step>, i: nat)
    requires Run(ws, steps) && i < |steps| && Applies(steps[i])
    ensures !ReleasedBefore(ws, steps, i)
  {
    RunState(ws, steps, i);
  }

  /** Over every run with a lagging cache, failing calls, user deletion, edits by others and
      controller restarts: once the target has been applied, the live ResourceSync keeps
      Sinker's finalizer until a later reconcile of a deleted snapshot releases the target. */
  lemma NoAbandonedTarget(ws: seq<World>, steps: seq<Step>, i: nat, n: nat)
    requires Run(ws, steps) && i < n <= |steps| && Applies(steps[i])
    ensures (!ws[n].gone && ws[n].versions != [] && HasFinalizer(Live(ws[n])))
         || exists k :: i < k < n && Releases(ws[k], steps[k])
  {
    RunState(ws, steps, i);
    RunState(ws, steps, n);
    VersionsOnlyGrow(ws, steps, i, n);
    var at := ws[i].snapshot;
    assert HasFinalizer(ws[i].versions[at]) && ws[n].versions[at] == ws[i].versions[at];
    if ReleasedBefore(ws, steps, n) {
      NothingReleasedBeforeApply(ws, steps, i);
      var k :| 0 <= k < n && Releases(ws[k], steps[k]);
      assert i < k;
    }
  }

  /** The target is only ever applied while the live ResourceSync holds Sinker's finalizer. */
  lemma AppliedOnlyUnderFinalizer(ws: seq<World>, steps: seq<Step>, i: nat)
    requires Run(ws, steps) && i < |steps| && Applies(steps[i])
    ensures !ws[i].gone && ws[i].versions != [] && HasFinalizer(Live(ws[i]))
  {
    RunState(ws, steps, i);
    assert HasFinalizer(ws[i].versions[ws[i].snapshot]);
  }

  /** Every finalizer list that is written comes from the snapshot: to add, its entries followed
      by Sinker's finalizer, which is there once; to remove, its other entries in their order
      (see `RemovalKeepsTheOthersInOrder`) without Sinker's finalizer. */
  lemma EveryWrittenList(ws: seq<World>, steps: seq<Step>, i: nat, list: seq<string>, r: Reply)
    requires Run(ws, steps) && i < |steps| && steps[i] == Act(PatchFinalizers(list, r))
    ensures ws[i].snapshot < |ws[i].versions|
    ensures var held := FinalizerList(ws[i].versions[ws[i].snapshot]);
            if ws[i].versions[ws[i].snapshot].deleting then
              list == Without(held, FINALIZER) && FINALIZER !in list
            else
              list == held + [FINALIZER] && multiset(list)[FINALIZER] == 1 && Without(list, FINALIZER) == held
  {
    RunState(ws, steps, i);
    if ws[i].position.Adding? {
      AddThenRemove(ws[i].position.sync.finalizers);
    }
  }

  /** The target is absent or on its way out. */
  predicate GoneOrGoing(t: TargetObject) {
    t.Absent? || t.deleting
  }

  predicate StartsToWait(p: Position) {
    p.StartingWatches? && p.side.Source? && p.sync.deleting
  }

  lemma WaitBeginsWithDeletion(w: World, step: Step)
    requires Sound(w) && Allowed(w, step) && !StartsToWait(w.position) && StartsToWait(After(w, step).position)
    ensures GoneOrGoing(After(w, step).target)
  {
  }

  /** A cleanup goes on to watch its target and wait only after the target has been seen to be
      deleted, or has been deleted by it. */
  lemma {:induction false} WaitsOnlyForDeletedTarget(ws: seq<World>, steps: seq<Step>, n: nat)
    requires Run(ws, steps) && n <= |steps| && StartsToWait(ws[n].position)
    ensures exists k :: 0 <= k <= n && GoneOrGoing(ws[k].target) && forall i | k <= i <= n :: ws[i].position == ws[n].position
  {
    if n > 0 {
      RunState(ws, steps, n - 1);
      if StartsToWait(ws[n - 1].position) && ws[n - 1].position == ws[n].position {
        WaitsOnlyForDeletedTarget(ws, steps, n - 1);
      } else {
        WaitBeginsWithDeletion(ws[n - 1], steps[n - 1]);
      }
    }
  }

  // Watches

  /** A reconcile of this snapshot may get to start watches. */
  predicate MayStart(s: Sync) {
    HasFinalizer(s) && !(s.deleting && s.disableTargetDeletion)
  }

  /** The cache still shows a deleted ResourceSync that waits for its target, and the live one
      has lost Sinker's finalizer or is gone. */
  predicate Exposed(w: World) {
    && w.cached < |w.versions|
    && w.versions[w.cached].deleting && MayStart(w.versions[w.cached])
    && !HasFinalizer(Live(w))
  }

  predicate Begins(step: Step) {
    step.Act? && step.action.Begin?
  }

  /** A watch without Sinker's finalizer; an object that is gone has none. */
  predicate LeaksWatch(w: World) {
    w.watches != {} && w.versions != [] && !HasFinalizer(Live(w))
  }

  ghost predicate Guarded(ws: seq<World>, steps: seq<Step>) {
    |ws| == |steps| + 1 && forall i | 0 <= i < |steps| && Begins(steps[i]) :: !Exposed(ws[i])
  }

  /** The reconcile relies on the finalizer its snapshot had. */
  predicate NeedsFinalizer(p: Position) {
    match p
    case Resolving(s) => MayStart(s)
    case GettingTarget(_) => true
    case DeletingTarget(_, _) => true
    case GettingSource(_) => true
    case Building(_) => true
    case Applying(_) => true
    case StartingWatches(_, _) => true
    case _ => false
  }

  predicate WatchesFit(p: Position, watches: set<Side>) {
    match p
    case StartingWatches(_, Target) => Source in watches
    case Stopping(_, Target) => Source !in watches
    case Removing(_) => watches == {}
    case _ => true
  }

  /** Watches stop before the finalizer goes and start only while it is there. */
  predicate WatchState(w: World) {
    && w.versions != []
    && (w.watches != {} || NeedsFinalizer(w.position) ==> HasFinalizer(Live(w)))
    && WatchesFit(w.position, w.watches)
  }

  lemma StepKeepsWatchesFit(w: World, step: Step)
    requires w.cached < |w.versions| && Allowed(w, step) && WatchesFit(w.position, w.watches)
    ensures WatchesFit(Moved(w, step).position, Moved(w, step).watches)
  {
    match w.position {
      case Stopping(_, Target) =>
        forall side | side in w.watches - {Target} ensures side == Source {}
      case _ =>
    }
  }

  /** A snapshot that is not deleted and has the finalizer is never ahead of the live object. */
  lemma UndeletedSnapshotsAreGuarded(w: World, released: bool)
    requires ReleaseState(w, released) && w.cached < |w.versions| && !Exposed(w)
    ensures MayStart(w.versions[w.cached]) ==> HasFinalizer(Live(w))
  {
  }

  /** A reconcile needs the finalizer only from a snapshot that had it. */
  lemma NeedIsInherited(w: World, step: Step)
    requires Sound(w) && Allowed(w, step) && WatchState(w)
    requires Begins(step) && MayStart(w.versions[w.cached]) ==> HasFinalizer(Live(w))
    requires Moved(w, step).watches != {} || NeedsFinalizer(Moved(w, step).position)
    ensures HasFinalizer(Live(w)) && !w.position.Removing?
  {
  }

  lemma StepKeepsWatchState(w: World, step: Step)
    requires Sound(w) && Allowed(w, step) && WatchState(w)
    requires Begins(step) && MayStart(w.versions[w.cached]) ==> HasFinalizer(Live(w))
    ensures WatchState(After(w, step))
  {
    StepKeepsWatchesFit(w, step);
    var next := Moved(w, step);
    if next.watches != {} || NeedsFinalizer(next.position) {
      NeedIsInherited(w, step);
      if Written(w, step).Some? {
        WhatIsWritten(w, step);
      }
    }
  }

  lemma {:induction false} WatchRunState(ws: seq<World>, steps: seq<Step>, n: nat)
    requires Run(ws, steps) && Guarded(ws, steps) && n <= |steps|
    ensures WatchState(ws[n])
  {
    if n > 0 {
      WatchRunState(ws, steps, n - 1);
      RunState(ws, steps, n - 1);
      if Begins(steps[n - 1]) {
        UndeletedSnapshotsAreGuarded(ws[n - 1], ReleasedBefore(ws, steps, n - 1));
      }
      StepKeepsWatchState(ws[n - 1], steps[n - 1]);
    }
  }

  /** Over every run in which no reconcile begins in an exposed world, however far the cache
      lags: a ResourceSync without Sinker's finalizer has no watch; no watch is left when the
      finalizer is patched away, even if that patch fails; and a reconcile that gets to start
      watches leaves both ends watched. */
  lemma FinalizerGuardsWatches(ws: seq<World>, steps: seq<Step>, n: nat)
    requires Run(ws, steps) && Guarded(ws, steps) && n <= |steps|
    ensures ws[n].versions != []
    ensures !HasFinalizer(Live(ws[n])) ==> ws[n].watches == {}
    ensures ws[n].gone ==> ws[n].watches == {}
    ensures n < |steps| && steps[n].Act? && steps[n].action.PatchFinalizers? && ws[n].position.Removing? ==>
              ws[n].watches == {} && ws[n + 1].watches == {}
    ensures n < |steps| && steps[n] == Act(StartWatch(Target)) ==> ws[n + 1].watches == {Source, Target}
  {
    WatchRunState(ws, steps, n);
    RunState(ws, steps, n);
    if n < |steps| && steps[n] == Act(StartWatch(Target)) {
      BothSides(ws[n + 1].watches);
    }
  }

  lemma BothSides(watches: set<Side>)
    requires Source in watches && Target in watches
    ensures watches == {Source, Target}
  {
    forall side | side in watches ensures side in {Source, Target} {
      match side
      case Source =>
      case Target =>
    }
  }

  // Exactly when a reconcile can leak a watch

  ghost predicate Reached(w: World) {
    exists ws, steps :: Run(ws, steps) && w == ws[|steps|]
  }

  lemma ReachedState(w: World)
    requires Reached(w)
    ensures Sound(w) && exists released :: ReleaseState(w, released)
  {
    var ws, steps :| Run(ws, steps) && w == ws[|steps|];
    RunState(ws, steps, |steps|);
  }

  /** One reconcile among anything else: it begins with the first step, and no other does. */
  ghost predicate OneReconcile(ws: seq<World>, steps: seq<Step>) {
    && Linked(ws, steps) && steps != [] && Begins(steps[0])
    && forall i | 0 < i < |steps| :: !Begins(steps[i])
  }

  lemma {:induction false} UnexposedReconcileState(ws: seq<World>, steps: seq<Step>, n: nat)
    requires OneReconcile(ws, steps) && n <= |steps|
    requires Sound(ws[0]) && WatchState(ws[0])
    requires MayStart(ws[0].versions[ws[0].cached]) ==> HasFinalizer(Live(ws[0]))
    ensures Sound(ws[n]) && WatchState(ws[n])
  {
    if n > 0 {
      UnexposedReconcileState(ws, steps, n - 1);
      StepKeepsSound(ws[n - 1], steps[n - 1]);
      StepKeepsWatchState(ws[n - 1], steps[n - 1]);
    }
  }

  lemma GoesOn(ws: seq<World>, steps: seq<Step>, step: Step, next: World)
    requires Linked(ws, steps) && ws[|steps|].versions != [] && ws[|steps|].cached < |ws[|steps|].versions|
    requires Allowed(ws[|steps|], step) && next == After(ws[|steps|], step)
    ensures Linked(ws + [next], steps + [step])
  {
    var longer, more := ws + [next], steps + [step];
    forall i | 0 <= i < |more|
      ensures longer[i].versions != [] && longer[i].cached < |longer[i].versions|
      ensures Allowed(longer[i], more[i]) && longer[i + 1] == After(longer[i], more[i])
    {
      if i < |steps| {
        assert longer[i] == ws[i] && longer[i + 1] == ws[i + 1];
      }
    }
  }

  lemma ExposedReconcileBegins(w: World) returns (ws: seq<World>, steps: seq<Step>)
    requires w.position.Idle? && Exposed(w)
    ensures var held := w.versions[w.cached];
            && OneReconcile(ws, steps) && ws[0] == w
            && ws[|steps|] == w.(position := GettingTarget(held), snapshot := w.cached)
  {
    var held := w.versions[w.cached];
    var resolving := w.(position := Resolving(held), snapshot := w.cached);
    GoesOn([w], [], Act(Begin(held)), resolving);
    GoesOn([w] + [resolving], [] + [Act(Begin(held))], Act(ResolveApis(true)),
           resolving.(position := GettingTarget(held)));
    ws := [w] + [resolving] + [resolving.(position := GettingTarget(held))];
    steps := [] + [Act(Begin(held))] + [Act(ResolveApis(true))];
  }

  lemma ExposedReconcileWaits(w: World) returns (ws: seq<World>, steps: seq<Step>)
    requires w.position.Idle? && Exposed(w)
    ensures var held := w.versions[w.cached];
            && OneReconcile(ws, steps) && ws[0] == w
            && ws[|steps|] == w.(position := StartingWatches(held, Source), snapshot := w.cached,
                                 target := Present(true, []))
  {
    ws, steps := ExposedReconcileBegins(w);
    var held, found := w.versions[w.cached], Present(true, []);
    var changed := ws[|steps|].(target := found);
    GoesOn(ws, steps, TargetChange(found), changed);
    ws, steps := ws + [changed], steps + [TargetChange(found)];
    var starting := changed.(position := StartingWatches(held, Source));
    GoesOn(ws, steps, Act(GetTarget(Found(true, []))), starting);
    ws, steps := ws + [starting], steps + [Act(GetTarget(Found(true, [])))];
  }

  /** From an exposed world: the reconcile finds a target that is already being deleted, and
      starts to watch its source. */
  lemma ExposedReconcileLeaks(w: World) returns (ws: seq<World>, steps: seq<Step>)
    requires w.position.Idle? && Exposed(w)
    ensures OneReconcile(ws, steps) && ws[0] == w && LeaksWatch(ws[|steps|])
    ensures ws[|steps|].gone == w.gone && ws[|steps|].versions == w.versions
  {
    ws, steps := ExposedReconcileWaits(w);
    var held := w.versions[w.cached];
    var started := ws[|steps|].(position := StartingWatches(held, Target), watches := w.watches + {Source});
    GoesOn(ws, steps, Act(StartWatch(Source)), started);
    ws, steps := ws + [started], steps + [Act(StartWatch(Source))];
    assert Source in started.watches;
  }

  /** From every idle world that can be reached without a leak, a reconcile that begins there
      can leak a watch exactly when the world is exposed. */
  lemma LeakExactlyWhenExposed(w: World)
    requires Reached(w) && w.position.Idle? && !LeaksWatch(w)
    ensures (exists ws, steps :: OneReconcile(ws, steps) && ws[0] == w && LeaksWatch(ws[|steps|])) <==> Exposed(w)
  {
    if Exposed(w) {
      var ws, steps := ExposedReconcileLeaks(w);
    } else {
      ReachedState(w);
      var released :| ReleaseState(w, released);
      UndeletedSnapshotsAreGuarded(w, released);
      forall ws, steps | OneReconcile(ws, steps) && ws[0] == w ensures !LeaksWatch(ws[|steps|]) {
        UnexposedReconcileState(ws, steps, |steps|);
      }
    }
  }

  // Exposed worlds are reached

  lemma Proceed(w: World, step: Step, next: World)
    requires Reached(w) && w.versions != [] && w.cached < |w.versions| && Allowed(w, step)
    requires next == After(w, step)
    ensures Reached(next)
  {
    var ws, steps :| Run(ws, steps) && w == ws[|steps|];
    GoesOn(ws, steps, step, next);
    assert (ws + [next])[0] == ws[0];
    assert Run(ws + [next], steps + [step]) && next == (ws + [next])[|steps + [step]|];
  }

  lemma {:induction false} ProceedThrough(ws: seq<World>, steps: seq<Step>, n: nat)
    requires Linked(ws, steps) && Reached(ws[0]) && n <= |steps|
    ensures Reached(ws[n])
  {
    if n > 0 {
      ProceedThrough(ws, steps, n - 1);
      Proceed(ws[n - 1], steps[n - 1], ws[n]);
    }
  }

  predicate WaitsForTarget(held: Sync) {
    held.deleting && MayStart(held)
  }

  function Freed(held: Sync): Sync {
    held.(finalizers := Some(Removed(held.finalizers)))
  }

  lemma CleanupStarts(held: Sync)
    requires WaitsForTarget(held)
    ensures Reached(Start(held, Absent).(position := GettingTarget(held)))
  {
    var w := Start(held, Absent);
    assert Run([w], []) && w == [w][0];
    Proceed(w, Act(Begin(held)), w.(position := Resolving(held)));
    Proceed(w.(position := Resolving(held)), Act(ResolveApis(true)), w.(position := GettingTarget(held)));
  }

  lemma CleanupStopsWatches(held: Sync)
    requires WaitsForTarget(held)
    ensures Reached(Start(held, Absent).(position := Removing(held)))
  {
    CleanupStarts(held);
    var w := Start(held, Absent);
    Proceed(w.(position := GettingTarget(held)), Act(GetTarget(NotFound)), w.(position := Stopping(held, Source)));
    Proceed(w.(position := Stopping(held, Source)), Act(StopWatch(Source)), w.(position := Stopping(held, Target)));
    Proceed(w.(position := Stopping(held, Target)), Act(StopWatch(Target)), w.(position := Removing(held)));
  }

  /** The world after a cleanup that the cache has not seen. The object is gone unless something
      else holds it. */
  function CleanedUp(held: Sync): World {
    World([held, Freed(held)], Removed(held.finalizers) == [], 0, 0, Idle, Absent, {})
  }

  lemma CleanupFrees(held: Sync)
    requires WaitsForTarget(held)
    ensures Reached(CleanedUp(held).(position := Returned(AwaitChange)))
  {
    CleanupStopsWatches(held);
    Proceed(Start(held, Absent).(position := Removing(held)), Act(PatchFinalizers(Removed(held.finalizers), Done)),
            CleanedUp(held).(position := Returned(AwaitChange)));
  }

  lemma CleanupEnds(held: Sync)
    requires WaitsForTarget(held)
    ensures Reached(CleanedUp(held))
  {
    CleanupFrees(held);
    Proceed(CleanedUp(held).(position := Returned(AwaitChange)), Act(Finish), CleanedUp(held));
  }

  /** Every deleted ResourceSync that waits for its target, whether or not something else holds
      it, has a run with a stale cache that leaks a watch: the cleanup ends unseen, which leaves
      an exposed world, and a second cleanup begins. */
  lemma StaleSnapshotLeaksAWatch(held: Sync) returns (w: World)
    requires WaitsForTarget(held)
    ensures Reached(w) && LeaksWatch(w)
    ensures w.gone <==> Removed(held.finalizers) == []
  {
    CleanupEnds(held);
    RemovedLacksFinalizer(held, held);
    assert Exposed(CleanedUp(held));
    LeakExactlyWhenExposed(CleanedUp(held));
    var ws, steps := ExposedReconcileLeaks(CleanedUp(held));
    ProceedThrough(ws, steps, |steps|);
    w := ws[|steps|];
  }
}
