/** A sync that may be deleted at any time: its cleanup does not get stuck. */
module Departure {
  import opened Wrappers
  import opened Ends
  import opened Quiescence
  import Finalizers
  import Lifecycle
  import Reconcile
  import RemoteWatcher

  /** A step of the sync and everything around it, or the user deleting the ResourceSync. */
  datatype Move = Sync(step: Step) | Delete

  function OfLifecycle(s: State, m: Move): Lifecycle.Step {
    match m
    case Sync(step) => Underlying(s, step)
    case Delete => Lifecycle.UserDelete
  }

  /** The API server lets finalizers of a deleted object only be taken away. */
  predicate OnlyTakesAway(live: Reconcile.Sync, written: Option<Reconcile.Sync>) {
    live.deleting && written.Some? ==>
      forall f | f in Lifecycle.FinalizerList(written.value) :: f in Lifecycle.FinalizerList(live)
  }

  ghost predicate May(s: State, m: Move) {
    && s.world.versions != [] && s.world.cached < |s.world.versions|
    && Lifecycle.Allowed(s.world, OfLifecycle(s, m))
    && (m.Sync? ==> Enabled(s, m.step))
    && OnlyTakesAway(Lifecycle.Live(s.world), Lifecycle.Written(s.world, OfLifecycle(s, m)))
  }

  /** The cache comes to show the deletion, which is a new generation of the object. */
  predicate Notices(w: Lifecycle.World, m: Move)
    requires w.cached < |w.versions|
    requires m.Sync? && m.step.Refresh? ==> m.step.upTo < |w.versions|
  {
    m.Sync? && m.step.Refresh? && !w.versions[w.cached].deleting && w.versions[m.step.upTo].deleting
  }

  ghost function AfterMove(s: State, m: Move): State
    requires May(s, m)
  {
    match m
    case Delete => s.(world := Lifecycle.After(s.world, Lifecycle.UserDelete))
    case Sync(step) =>
      var t := After(s, step);
      if Notices(s.world, m) then t.(queued := t.queued + 1) else t
  }

  ghost predicate Run(ss: seq<State>, moves: seq<Move>) {
    && |ss| == |moves| + 1
    && forall i | 0 <= i < |moves| :: May(ss[i], moves[i]) && ss[i + 1] == AfterMove(ss[i], moves[i])
  }

  // What every move keeps

  predicate Deleted(s: State)
    requires s.world.versions != []
  {
    Lifecycle.Live(s.world).deleting
  }

  /** A deleted version without Sinker's finalizer is followed by none that has it. */
  predicate FreeForGood(w: Lifecycle.World) {
    forall i, j | 0 <= i <= j < |w.versions| ::
      w.versions[i].deleting && !Reconcile.HasFinalizer(w.versions[i]) ==> !Reconcile.HasFinalizer(w.versions[j])
  }

  ghost predicate Coherent(s: State) {
    && s.world.versions != []
    && Lifecycle.Sound(s.world) && FreeForGood(s.world)
    && Fits(s.source) && Fits(s.target)
  }

  lemma WorldAfterMove(s: State, m: Move)
    requires May(s, m)
    ensures AfterMove(s, m).world == Lifecycle.After(s.world, OfLifecycle(s, m))
    ensures AfterMove(s, m).source == (if m.Sync? then After(s, m.step).source else s.source)
    ensures AfterMove(s, m).target == (if m.Sync? then After(s, m.step).target else s.target)
  {
  }

  lemma StaysFreeForGood(w: Lifecycle.World, step: Lifecycle.Step)
    requires w.versions != [] && w.cached < |w.versions| && Lifecycle.Allowed(w, step)
    requires FreeForGood(w) && Lifecycle.DeletionIsFinal(w)
    requires OnlyTakesAway(Lifecycle.Live(w), Lifecycle.Written(w, step))
    ensures FreeForGood(Lifecycle.After(w, step))
  {
    var written := Lifecycle.Written(w, step);
    if written.Some? {
      var next, last := Lifecycle.After(w, step).versions, |w.versions|;
      assert next == w.versions + [written.value];
      forall i | 0 <= i < last && w.versions[i].deleting && !Reconcile.HasFinalizer(w.versions[i])
        ensures !Reconcile.HasFinalizer(next[last])
      {
        assert w.versions[last - 1].deleting && !Reconcile.HasFinalizer(w.versions[last - 1]);
        assert Finalizers.FINALIZER !in Lifecycle.FinalizerList(Lifecycle.Live(w));
      }
    }
  }

  lemma MoveKeepsCoherent(s: State, m: Move)
    requires Coherent(s) && May(s, m)
    ensures Coherent(AfterMove(s, m))
  {
    WorldAfterMove(s, m);
    Lifecycle.StepKeepsSound(s.world, OfLifecycle(s, m));
    StaysFreeForGood(s.world, OfLifecycle(s, m));
    if m.Sync? {
      EndsStayFitting(s, m.step);
    }
  }

  /** Deletion is for good, and while it is deleted an object gets no finalizer. */
  lemma WaitingIsInherited(s: State, m: Move)
    requires Coherent(s) && May(s, m)
    ensures AfterMove(s, m).world.versions != []
    ensures Deleted(s) ==> Deleted(AfterMove(s, m))
    ensures Deleted(s) && !Reconcile.HasFinalizer(Lifecycle.Live(s.world)) ==>
              !Reconcile.HasFinalizer(Lifecycle.Live(AfterMove(s, m).world))
    ensures Deleted(AfterMove(s, m)) && !m.Delete? ==> Deleted(s)
  {
    WorldAfterMove(s, m);
    if Lifecycle.Written(s.world, OfLifecycle(s, m)).Some? {
      Lifecycle.WhatIsWritten(s.world, OfLifecycle(s, m));
      if !Reconcile.HasFinalizer(Lifecycle.Live(s.world)) {
        assert Finalizers.FINALIZER !in Lifecycle.FinalizerList(Lifecycle.Live(s.world));
      }
    }
  }

  // The cleanup does not get stuck

  /** Sinker's finalizer holds a deleted object. */
  predicate Waits(s: State)
    requires s.world.versions != []
  {
    Deleted(s) && Reconcile.HasFinalizer(Lifecycle.Live(s.world))
  }

  /** Another reconcile is certain to begin, if only when the cache shows the deletion. */
  ghost predicate Called(s: State)
    requires Coherent(s)
  {
    || s.queued > 0 || Requeues(s.world.position) || WillSend(s.source) || WillSend(s.target)
    || !s.world.versions[s.world.cached].deleting
  }

  /** A cleanup that has found the target there, and will watch it or does so already. */
  predicate Holding(s: State) {
    var there := s.world.target.Present?;
    match s.world.position
    case Resolving(sync) => sync.deleting
    case GettingTarget(_) => true
    case DeletingTarget(_, _) => s.target.task.None? || there
    case StartingWatches(_, side) =>
      if side.Source? then s.source.task.None? || s.target.task.None? || there
      else s.source.task.Some? && (s.target.task.None? || there)
    case Stopping(_, _) => true
    case Removing(_) => true
    case Idle => s.source.task.Some? && s.target.task.Some? && there
    case Returned(_) => s.source.task.Some? && s.target.task.Some? && there
    case _ => false
  }

  ghost predicate Attended(s: State) {
    Coherent(s) && (Waits(s) ==> Called(s) || Holding(s))
  }

  lemma DeletionIsNoticed(s: State, m: Move)
    requires Coherent(s) && May(s, m) && Coherent(AfterMove(s, m)) && m.Delete?
    requires Waits(s) ==> Called(s) || Holding(s)
    ensures Waits(AfterMove(s, m)) ==> Called(AfterMove(s, m)) || Holding(AfterMove(s, m))
  {
    if !Deleted(s) {
      assert !s.world.versions[s.world.cached].deleting;
    }
  }

  lemma CacheStays(w: Lifecycle.World, step: Lifecycle.Step)
    requires w.cached < |w.versions| && Lifecycle.Allowed(w, step)
    requires !step.Observe? || step.upTo == w.cached
    ensures var next := Lifecycle.After(w, step);
            next.cached == w.cached && next.versions[next.cached] == w.versions[w.cached]
  {
  }

  lemma UnseenUntilNoticed(s: State, step: Step)
    requires Coherent(s) && May(s, Sync(step)) && Coherent(AfterMove(s, Sync(step)))
    requires !s.world.versions[s.world.cached].deleting
    ensures var t := AfterMove(s, Sync(step)); t.queued > 0 || !t.world.versions[t.world.cached].deleting
  {
    if !step.Refresh? {
      CacheStays(s.world, Underlying(s, step));
      WorldAfterMove(s, Sync(step));
    }
  }

  lemma CalledUntilBegun(s: State, step: Step)
    requires Coherent(s) && May(s, Sync(step)) && Coherent(AfterMove(s, Sync(step)))
    requires Called(s) && Begun(step) == 0 && !(step.Act? && step.action.StopWatch?)
    ensures Called(AfterMove(s, Sync(step)))
  {
    if !s.world.versions[s.world.cached].deleting {
      UnseenUntilNoticed(s, step);
    } else if s.queued > 0 || Requeues(s.world.position) || step.Restart? || (step.Task? && step.does.Send?) {
      LoopStillOwes(s, step);
    } else {
      WatchesStillOwe(s, step);
    }
  }

  /** A target that goes away is a change that the watch is told of. */
  lemma HeldThroughChange(s: State, step: Step)
    requires Coherent(s) && May(s, Sync(step)) && Coherent(AfterMove(s, Sync(step)))
    requires Holding(s) && step.Change?
    ensures Called(AfterMove(s, Sync(step))) || Holding(AfterMove(s, Sync(step)))
  {
    match step.side
    case Source =>
    case Target => TargetHeldThroughChange(s, step);
  }

  lemma TargetHeldThroughChange(s: State, step: Step)
    requires Coherent(s) && May(s, Sync(step)) && Coherent(AfterMove(s, Sync(step)))
    requires Holding(s) && step.Change? && step.side.Target?
    ensures WillSend(AfterMove(s, Sync(step)).target) || Holding(AfterMove(s, Sync(step)))
  {
    RelevantChangeWillBeSent(s.target, step.event);
  }

  lemma HeldThroughOthers(s: State, step: Step)
    requires Coherent(s) && May(s, Sync(step)) && Coherent(AfterMove(s, Sync(step)))
    requires Holding(s) && (step.Task? || step.Merge? || step.Refresh? || step.Edit? || step.Mark?)
    ensures Holding(AfterMove(s, Sync(step)))
  {
  }

  lemma HeldThroughRemoval(s: State, step: Step)
    requires Coherent(s) && May(s, Sync(step)) && s.world.position.Removing? && step.Act?
    requires Waits(AfterMove(s, Sync(step)))
    ensures Requeues(AfterMove(s, Sync(step)).world.position)
  {
    Lifecycle.RemovedLacksFinalizer(s.world.position.sync, Lifecycle.Live(s.world));
  }

  lemma HeldThroughCall(s: State, step: Step)
    requires Coherent(s) && May(s, Sync(step)) && Coherent(AfterMove(s, Sync(step)))
    requires Holding(s) && (step.Act? || step.Apply? || step.FinishBadly?) && Begun(step) == 0
    requires Waits(s) && Waits(AfterMove(s, Sync(step)))
    ensures Called(AfterMove(s, Sync(step))) || Holding(AfterMove(s, Sync(step)))
  {
    if s.world.position.Resolving? {
      assert s.world.versions[s.world.snapshot] == s.world.position.sync;
    } else if s.world.position.Removing? && step.Act? {
      HeldThroughRemoval(s, step);
    }
  }

  lemma StoppingHolds(s: State, step: Step)
    requires Coherent(s) && May(s, Sync(step)) && step.Act? && step.action.StopWatch?
    ensures Holding(AfterMove(s, Sync(step)))
  {
  }

  lemma BeginningHolds(s: State, step: Step)
    requires Coherent(s) && May(s, Sync(step)) && Coherent(AfterMove(s, Sync(step))) && Begun(step) == 1
    ensures Called(AfterMove(s, Sync(step))) || Holding(AfterMove(s, Sync(step)))
  {
  }

  lemma StepKeepsAttended(s: State, step: Step)
    requires Attended(s) && May(s, Sync(step))
    ensures Attended(AfterMove(s, Sync(step)))
  {
    var m := Sync(step);
    MoveKeepsCoherent(s, m);
    WaitingIsInherited(s, m);
    if Waits(AfterMove(s, m)) {
      if Begun(step) == 1 {
        BeginningHolds(s, step);
      } else if step.Act? && step.action.StopWatch? {
        StoppingHolds(s, step);
      } else if Called(s) {
        CalledUntilBegun(s, step);
      } else {
        match step
        case Change(_, _, _) => HeldThroughChange(s, step);
        case Restart =>
        case Act(_) => HeldThroughCall(s, step);
        case Apply(_, _) => HeldThroughCall(s, step);
        case FinishBadly => HeldThroughCall(s, step);
        case _ => HeldThroughOthers(s, step);
      }
    }
  }

  lemma MoveKeepsAttended(s: State, m: Move)
    requires Attended(s) && May(s, m)
    ensures Attended(AfterMove(s, m))
  {
    match m
    case Sync(step) => StepKeepsAttended(s, step);
    case Delete =>
      MoveKeepsCoherent(s, m);
      DeletionIsNoticed(s, m);
  }

  lemma {:induction false} StaysAttended(ss: seq<State>, moves: seq<Move>, n: nat)
    requires Run(ss, moves) && Fresh(ss[0]) && n <= |moves|
    ensures Attended(ss[n])
  {
    if n > 0 {
      StaysAttended(ss, moves, n - 1);
      MoveKeepsAttended(ss[n - 1], moves[n - 1]);
    }
  }

  // At rest

  /** The controller and its tasks can do nothing, not even fail. */
  ghost predicate Resting(s: State) {
    forall step | Own(step) :: !May(s, Sync(step))
  }

  /** Every call may fail. */
  lemma CleanupCanMove(s: State) returns (step: Step)
    requires Coherent(s)
    requires var p := s.world.position; p.GettingTarget? || p.DeletingTarget? || p.Stopping? || p.Removing?
    ensures Own(step) && May(s, Sync(step))
  {
    match s.world.position
    case GettingTarget(_) => step := Act(Reconcile.GetTarget(Reconcile.GetFailed));
    case DeletingTarget(_, propagation) => step := Act(Reconcile.DeleteTarget(propagation, Reconcile.Failed));
    case Stopping(_, side) => step := Act(Reconcile.StopWatch(side));
    case Removing(sync) =>
      step := Act(Reconcile.PatchFinalizers(Finalizers.Removed(sync.finalizers), Reconcile.Failed));
  }

  lemma LoopCanMove(s: State) returns (step: Step)
    requires Coherent(s) && !s.world.position.Idle?
    ensures Own(step) && May(s, Sync(step))
  {
    match s.world.position
    case Resolving(_) => step := Act(Reconcile.ResolveApis(false));
    case Adding(sync) =>
      step := Act(Reconcile.PatchFinalizers(Finalizers.Added(sync.finalizers), Reconcile.Failed));
    case GettingSource(_) => step := Act(Reconcile.GetSource(false));
    case Building(_) => step := Act(Reconcile.BuildTarget(false));
    case Applying(_) => step := Apply(Reconcile.Failed, None);
    case StartingWatches(_, side) => step := Act(Reconcile.StartWatch(side));
    case Returned(_) => step := Act(Reconcile.Finish);
    case _ => step := CleanupCanMove(s);
  }

  lemma TaskCanMove(s: State, side: Reconcile.Side) returns (step: Step)
    requires Coherent(s) && EndOf(s, side).task.Some? && !UpToDate(EndOf(s, side))
    ensures Own(step) && May(s, Sync(step))
  {
    var a := TaskMoves(EndOf(s, side));
    step := Task(side, a);
  }

  lemma RestingExactlyWhen(s: State)
    requires Coherent(s)
    ensures Resting(s) <==>
            && s.queued == 0 && s.world.position.Idle?
            && (s.source.task.None? || UpToDate(s.source)) && (s.target.task.None? || UpToDate(s.target))
  {
    if !s.world.position.Idle? {
      var step := LoopCanMove(s);
    } else if s.queued > 0 {
      var begin := Act(Reconcile.Begin(s.world.versions[s.world.cached]));
      assert Own(begin) && May(s, Sync(begin));
    } else if s.source.task.Some? && !UpToDate(s.source) {
      var step := TaskCanMove(s, Reconcile.Source);
    } else if s.target.task.Some? && !UpToDate(s.target) {
      var step := TaskCanMove(s, Reconcile.Target);
    } else {
      NothingToDo(s);
    }
  }

  /** Over every run from the start in which the ResourceSync is deleted, whatever fails, whatever
      others change, attributable or not, and however often the controller restarts: once the
      cache shows the deletion and nothing is left to do, either Sinker's finalizer has gone, or
      the target is still there and both watches follow their streams and have been told of every
      change, so that the cleanup goes on when the target goes. */
  lemma CleanupIsNotStuck(ss: seq<State>, moves: seq<Move>)
    requires Run(ss, moves) && Fresh(ss[0]) && Resting(ss[|moves|])
    ensures var s := ss[|moves|];
            && Coherent(s)
            && (s.world.versions[s.world.cached].deleting && Reconcile.HasFinalizer(Lifecycle.Live(s.world)) ==>
                  s.world.target.Present? && UpToDate(s.source) && UpToDate(s.target))
  {
    var s := ss[|moves|];
    StaysAttended(ss, moves, |moves|);
    RestingExactlyWhen(s);
    assert s.world.versions[s.world.cached].deleting ==> Deleted(s);
  }
}
