/** The order in which one reconcile calls the API and the watch registry. */
module Reconcile {
  import opened Wrappers
  import opened Finalizers
  import opened WatcherRegistry
  import Status

  /** What a reconcile reads of a ResourceSync. The rest of the object never changes. */
  datatype Sync = Sync(
    finalizers: Option<seq<string>>,
    deleting: bool,
    forceDelete: bool,
    disableTargetDeletion: bool)

  predicate HasFinalizer(s: Sync) {
    HasTargetFinalizer(s.finalizers)
  }

  /** The answer to a write. A failed call may still have changed the object. */
  datatype Reply = Done | FailedAfterEffect | Failed

  datatype TargetReply = NotFound | Found(deleting: bool, finalizers: seq<string>) | GetFailed

  datatype Propagation = Background | Foreground

  datatype Side = Source | Target

  datatype Action =
    | Begin(sync: Sync)
    | ResolveApis(ok: bool)
    | GetTarget(got: TargetReply)
    | DeleteTarget(propagation: Propagation, deleted: Reply)
    | StopWatch(side: Side)
    | StartWatch(side: Side)
    | PatchFinalizers(list: seq<string>, patched: Reply)
    | GetSource(ok: bool)
    | BuildTarget(ok: bool)
    | ApplyTarget(applied: Reply)
    | Finish

  datatype Outcome = AwaitChange | RequeueAfter | Errored

  /** Where a reconcile stands: the call it makes next, for the snapshot it was given. */
  datatype Position =
    | Idle
    | Resolving(sync: Sync)
    | GettingTarget(sync: Sync)
    | DeletingTarget(sync: Sync, propagation: Propagation)
    | Stopping(sync: Sync, side: Side)
    | Removing(sync: Sync)
    | Adding(sync: Sync)
    | GettingSource(sync: Sync)
    | Building(sync: Sync)
    | Applying(sync: Sync)
    | StartingWatches(sync: Sync, side: Side)
    | Returned(outcome: Outcome)

  function PropagationFor(finalizers: seq<string>): Propagation {
    if finalizers != [] then Background else Foreground
  }

  function Returning(r: Reply, outcome: Outcome): Position {
    Returned(if r.Done? then outcome else Errored)
  }

  function Resolved(s: Sync, ok: bool): Position {
    if !ok then if s.forceDelete && s.deleting then Stopping(s, Source) else Returned(Errored)
    else if s.deleting then
      if !HasFinalizer(s) then Returned(AwaitChange)
      else if s.disableTargetDeletion then Stopping(s, Source)
      else GettingTarget(s)
    else if !HasFinalizer(s) then Adding(s)
    else GettingSource(s)
  }

  /** The position after an action, `None` where the action is not the next call. */
  function Next(p: Position, a: Action): Option<Position> {
    match (p, a)
    case (Idle, Begin(s)) => Some(Resolving(s))
    case (Resolving(s), ResolveApis(ok)) => Some(Resolved(s, ok))
    case (GettingTarget(s), GetTarget(got)) =>
      Some(match got
           case NotFound => Stopping(s, Source)
           case GetFailed => Returned(Errored)
           case Found(deleting, finalizers) =>
             if deleting then StartingWatches(s, Source) else DeletingTarget(s, PropagationFor(finalizers)))
    case (DeletingTarget(s, p), DeleteTarget(q, r)) =>
      if p != q then None else Some(if r.Done? then StartingWatches(s, Source) else Returned(Errored))
    case (Stopping(s, side), StopWatch(which)) =>
      if side != which then None else Some(if side.Source? then Stopping(s, Target) else Removing(s))
    case (Removing(s), PatchFinalizers(list, r)) =>
      if list != Removed(s.finalizers) then None else Some(Returning(r, AwaitChange))
    case (Adding(s), PatchFinalizers(list, r)) =>
      if list != Added(s.finalizers) then None else Some(Returning(r, RequeueAfter))
    case (GettingSource(s), GetSource(ok)) => Some(if ok then Building(s) else Returned(Errored))
    case (Building(s), BuildTarget(ok)) => Some(if ok then Applying(s) else Returned(Errored))
    case (Applying(s), ApplyTarget(r)) => Some(if r.Done? then StartingWatches(s, Source) else Returned(Errored))
    case (StartingWatches(s, side), StartWatch(which)) =>
      if side != which then None
      else Some(if side.Source? then StartingWatches(s, Target) else Returned(AwaitChange))
    case (Returned(_), Finish) => Some(Idle)
    case _ => None
  }

  function Follow(actions: seq<Action>): Option<Position> {
    if actions == [] then Some(Idle)
    else
      var last := |actions| - 1;
      var p := Follow(actions[..last]);
      if p.None? then None else Next(p.value, actions[last])
  }

  /** What the API answers during one reconcile. `built` is false where the mappings fail or
      the ResourceSync has no UID for the owner reference of a local target. */
  datatype Answers = Answers(
    apis: bool,
    target: TargetReply,
    delete: Reply,
    patch: Reply,
    source: bool,
    built: bool,
    apply: Reply)

  predicate UnderWay(p: Position) {
    !p.Idle? && !p.Returned?
  }

  /** A bound on the calls that are still to come. */
  function CallsLeft(p: Position): nat {
    match p
    case Resolving(_) => 6
    case GettingTarget(_) => 5
    case GettingSource(_) => 5
    case DeletingTarget(_, _) => 4
    case Building(_) => 4
    case Applying(_) => 3
    case Stopping(_, side) => if side.Source? then 3 else 2
    case StartingWatches(_, side) => if side.Source? then 2 else 1
    case Removing(_) => 1
    case Adding(_) => 1
    case _ => 0
  }

  /** The call a reconcile makes next, with its answer. */
  function Call(p: Position, answers: Answers): (a: Action)
    requires UnderWay(p)
    ensures Next(p, a).Some? && !Next(p, a).value.Idle? && CallsLeft(Next(p, a).value) < CallsLeft(p)
  {
    match p
    case Resolving(_) => ResolveApis(answers.apis)
    case GettingTarget(_) => GetTarget(answers.target)
    case DeletingTarget(_, propagation) => DeleteTarget(propagation, answers.delete)
    case Stopping(_, side) => StopWatch(side)
    case Removing(s) => PatchFinalizers(Removed(s.finalizers), answers.patch)
    case Adding(s) => PatchFinalizers(Added(s.finalizers), answers.patch)
    case GettingSource(_) => GetSource(answers.source)
    case Building(_) => BuildTarget(answers.built)
    case Applying(_) => ApplyTarget(answers.apply)
    case StartingWatches(_, side) => StartWatch(side)
  }

  /** All calls of a reconcile from a position on. */
  function Calls(p: Position, answers: Answers): seq<Action>
    decreases CallsLeft(p)
  {
    if !UnderWay(p) then [] else [Call(p, answers)] + Calls(Next(p, Call(p, answers)).value, answers)
  }

  lemma OnlyTwoSides(side: Side)
    ensures side == Source || side == Target
  {
    match side
    case Source =>
    case Target =>
  }

  lemma StartingCalls(s: Sync, answers: Answers)
    ensures Calls(StartingWatches(s, Source), answers) == [StartWatch(Source), StartWatch(Target)]
  {
    assert Calls(StartingWatches(s, Target), answers) == [StartWatch(Target)];
  }

  lemma StoppingCalls(s: Sync, answers: Answers)
    ensures Calls(Stopping(s, Source), answers) ==
            [StopWatch(Source), StopWatch(Target), PatchFinalizers(Removed(s.finalizers), answers.patch)]
  {
    assert Calls(Removing(s), answers) == [PatchFinalizers(Removed(s.finalizers), answers.patch)];
    assert Calls(Stopping(s, Target), answers) ==
           [StopWatch(Target), PatchFinalizers(Removed(s.finalizers), answers.patch)];
  }

  /** The last calls of each branch. */
  lemma ClosingCalls(s: Sync, answers: Answers, a: Action)
    ensures a in Calls(StartingWatches(s, Source), answers) <==> a.StartWatch?
    ensures a in Calls(Stopping(s, Source), answers) <==>
              a.StopWatch? || a == PatchFinalizers(Removed(s.finalizers), answers.patch)
    ensures a in Calls(Adding(s), answers) <==> a == PatchFinalizers(Added(s.finalizers), answers.patch)
  {
    StartingCalls(s, answers);
    StoppingCalls(s, answers);
    AddingCalls(s, answers);
    if a.StartWatch? || a.StopWatch? {
      OnlyTwoSides(a.side);
    }
  }

  lemma AddingCalls(s: Sync, answers: Answers)
    ensures Calls(Adding(s), answers) == [PatchFinalizers(Added(s.finalizers), answers.patch)]
  {
  }

  lemma FollowOne(before: seq<Action>, a: Action)
    requires Follow(before).Some?
    ensures Follow(before + [a]) == Next(Follow(before).value, a)
  {
    assert (before + [a])[..|before|] == before;
  }

  /** A reconcile always returns. */
  lemma {:induction false} CallsReturn(before: seq<Action>, p: Position, answers: Answers)
    requires Follow(before) == Some(p) && !p.Idle?
    ensures var end := Follow(before + Calls(p, answers)); end.Some? && end.value.Returned?
    decreases CallsLeft(p)
  {
    if UnderWay(p) {
      var a := Call(p, answers);
      FollowOne(before, a);
      CallsReturn(before + [a], Next(p, a).value, answers);
      assert before + Calls(p, answers) == before + [a] + Calls(Next(p, a).value, answers);
    } else {
      assert before + [] == before;
    }
  }

  /** The target is to be brought in line. */
  predicate Syncs(s: Sync, answers: Answers) {
    answers.apis && !s.deleting && HasFinalizer(s)
  }

  /** The target has to be gone before it is released. */
  predicate CleansUp(s: Sync, answers: Answers) {
    answers.apis && s.deleting && HasFinalizer(s) && !s.disableTargetDeletion
  }

  predicate Deletes(s: Sync, answers: Answers) {
    CleansUp(s, answers) && answers.target.Found? && !answers.target.deleting
  }

  predicate ReleasesTarget(s: Sync, answers: Answers) {
    && s.deleting
    && if answers.apis then HasFinalizer(s) && (s.disableTargetDeletion || answers.target.NotFound?)
       else s.forceDelete
  }

  predicate StartsWatches(s: Sync, answers: Answers) {
    || (Syncs(s, answers) && answers.source && answers.built && answers.apply.Done?)
    || (CleansUp(s, answers) && answers.target.Found? && (answers.target.deleting || answers.delete.Done?))
  }

  /** One of the calls that are made fails. */
  predicate Fails(s: Sync, answers: Answers) {
    || (!answers.apis && !(s.deleting && s.forceDelete))
    || (ReleasesTarget(s, answers) && !answers.patch.Done?)
    || (CleansUp(s, answers) && answers.target.GetFailed?)
    || (Deletes(s, answers) && !answers.delete.Done?)
    || (answers.apis && !s.deleting && !HasFinalizer(s) && !answers.patch.Done?)
    || (Syncs(s, answers) && !(answers.source && answers.built && answers.apply.Done?))
  }

  /** Every call a reconcile makes, and exactly when it makes it. */
  lemma WhatAReconcileCalls(s: Sync, answers: Answers, a: Action)
    ensures a in Calls(Resolving(s), answers) <==>
            match a
            case ResolveApis(ok) => ok == answers.apis
            case GetTarget(got) => CleansUp(s, answers) && got == answers.target
            case DeleteTarget(p, r) =>
              Deletes(s, answers) && (p.Background? <==> answers.target.finalizers != []) && r == answers.delete
            case StopWatch(_) => ReleasesTarget(s, answers)
            case StartWatch(_) => StartsWatches(s, answers)
            case PatchFinalizers(list, r) =>
              && r == answers.patch
              && ((ReleasesTarget(s, answers) && list == Removed(s.finalizers)) ||
                  (answers.apis && !s.deleting && !HasFinalizer(s) && list == Added(s.finalizers)))
            case GetSource(ok) => Syncs(s, answers) && ok == answers.source
            case BuildTarget(ok) => Syncs(s, answers) && answers.source && ok == answers.built
            case ApplyTarget(r) => Syncs(s, answers) && answers.source && answers.built && r == answers.apply
            case _ => false
  {
    OneCall(Resolving(s), answers, a);
    ClosingCalls(s, answers, a);
    match Resolved(s, answers.apis)
    case GettingSource(_) => SyncingCalls(s, answers, a);
    case GettingTarget(_) => CleanupCalls(s, answers, a);
    case _ =>
  }

  lemma OneCall(p: Position, answers: Answers, a: Action)
    requires UnderWay(p)
    ensures a in Calls(p, answers) <==>
            a == Call(p, answers) || a in Calls(Next(p, Call(p, answers)).value, answers)
  {
  }

  lemma ApplyingCalls(s: Sync, answers: Answers, a: Action)
    ensures a in Calls(Applying(s), answers) <==>
              a == ApplyTarget(answers.apply) || (answers.apply.Done? && a.StartWatch?)
  {
    OneCall(Applying(s), answers, a);
    ClosingCalls(s, answers, a);
  }

  lemma BuildingCalls(s: Sync, answers: Answers, a: Action)
    ensures a in Calls(Building(s), answers) <==>
              a == BuildTarget(answers.built) || (answers.built && a in Calls(Applying(s), answers))
  {
    OneCall(Building(s), answers, a);
  }

  lemma SyncingCalls(s: Sync, answers: Answers, a: Action)
    ensures a in Calls(GettingSource(s), answers) <==>
              || a == GetSource(answers.source)
              || (answers.source && a == BuildTarget(answers.built))
              || (answers.source && answers.built && a == ApplyTarget(answers.apply))
              || (answers.source && answers.built && answers.apply.Done? && a.StartWatch?)
  {
    OneCall(GettingSource(s), answers, a);
    BuildingCalls(s, answers, a);
    ApplyingCalls(s, answers, a);
  }

  lemma CleanupCalls(s: Sync, answers: Answers, a: Action)
    ensures a in Calls(GettingTarget(s), answers) <==>
              || a == GetTarget(answers.target)
              || (answers.target.NotFound? && a in Calls(Stopping(s, Source), answers))
              || (answers.target.Found? && !answers.target.deleting &&
                  a == DeleteTarget(PropagationFor(answers.target.finalizers), answers.delete))
              || (answers.target.Found? && (answers.target.deleting || answers.delete.Done?) && a.StartWatch?)
  {
    OneCall(GettingTarget(s), answers, a);
    if answers.target.Found? && !answers.target.deleting {
      OneCall(DeletingTarget(s, PropagationFor(answers.target.finalizers)), answers, a);
    }
    ClosingCalls(s, answers, a);
  }

  class Reconciler {
    const manager: RemoteWatcherManager
    const owner: ObjectRef
    const source: ClusterResourceRef
    const target: ClusterResourceRef
    ghost var actions: seq<Action>

    ghost predicate Valid()
      reads this, manager
    {
      manager.Valid() && Follow(actions).Some?
    }

    ghost function At(): Position
      reads this, manager
      requires Valid()
    {
      Follow(actions).value
    }

    constructor (
      manager: RemoteWatcherManager, owner: ObjectRef, source: ClusterResourceRef, target: ClusterResourceRef)
      requires manager.Valid()
      ensures Valid() && At() == Idle
      ensures this.manager == manager && this.owner == owner && this.source == source && this.target == target
    {
      this.manager, this.owner, this.source, this.target := manager, owner, source, target;
      actions := [];
    }

    function WatchKey(side: Side): Key {
      Key(if side.Source? then source else target, owner)
    }

    /** There is a watch of the source and one of the target. */
    predicate BothWatched()
      reads manager
    {
      Key(source, owner) in manager.watchers && Key(target, owner) in manager.watchers
    }

    predicate NeitherWatched()
      reads manager
    {
      Key(source, owner) !in manager.watchers && Key(target, owner) !in manager.watchers
    }

    /** Both ends are watched where the reconcile gets to start watches, none is where it gives the
        target up, and otherwise all watches are left as they were. */
    twostate predicate WatchesAreLeft(s: Sync, answers: Answers)
      reads manager
    {
      if StartsWatches(s, answers) then BothWatched()
      else if ReleasesTarget(s, answers) then NeitherWatched()
      else manager.View() == old(manager.View())
    }

    /** The tasks of other ResourceSyncs are what they were. */
    twostate predicate OthersUntouched()
      reads manager
    {
      forall k: Key | k.resourceSync != owner ::
        (k in manager.watchers <==> k in old(manager.watchers)) &&
        (k in manager.watchers ==> manager.watchers[k] == old(manager.watchers[k]))
    }

    ghost method Do(a: Action)
      requires Valid() && Next(At(), a).Some?
      modifies this`actions
      ensures Valid() && actions == old(actions) + [a] && At() == Next(old(At()), a).value
    {
      actions := actions + [a];
      assert actions[..|actions| - 1] == old(actions);
    }

    ghost method End(done: Outcome)
      requires Valid() && At() == Returned(done)
      modifies this`actions
      ensures Valid() && actions == old(actions) + [Finish] && At() == Idle
      ensures Follow(actions[..|actions| - 1]) == Some(Returned(done))
    {
      Do(Finish);
      assert actions[..|actions| - 1] == old(actions);
    }

    /** The next call, leaving the calls after it. */
    ghost method Ask(a: Action, answers: Answers)
      requires Valid() && UnderWay(At()) && a == Call(At(), answers)
      modifies this`actions
      ensures Valid() && At() == Next(old(At()), a).value
      ensures actions + Calls(At(), answers) == old(actions) + Calls(old(At()), answers)
    {
      Do(a);
    }

    /** The tasks of every other key are what they were. */
    twostate predicate OnlyTouched(key: Key)
      reads manager
    {
      forall k: Key | k != key ::
        (k in manager.watchers <==> k in old(manager.watchers)) &&
        (k in manager.watchers ==> manager.watchers[k] == old(manager.watchers[k]))
    }

    method StartWatchIfNotWatching(side: Side)
      requires Valid() && Next(At(), StartWatch(side)).Some?
      modifies this`actions, manager
      ensures Valid() && At() == Next(old(At()), StartWatch(side)).value
      ensures actions == old(actions) + [StartWatch(side)]
      ensures side.Source? ==> Key(source, owner) in manager.watchers && OnlyTouched(Key(source, owner))
      ensures side.Target? ==> Key(target, owner) in manager.watchers && OnlyTouched(Key(target, owner))
    {
      manager.AddIfNotExists(WatchKey(side));
      Do(StartWatch(side));
    }

    method StopWatchIfWatching(side: Side)
      requires Valid() && Next(At(), StopWatch(side)).Some?
      modifies this`actions, manager
      ensures Valid() && At() == Next(old(At()), StopWatch(side)).value
      ensures actions == old(actions) + [StopWatch(side)]
      ensures side.Source? ==> Key(source, owner) !in manager.watchers && OnlyTouched(Key(source, owner))
      ensures side.Target? ==> Key(target, owner) !in manager.watchers && OnlyTouched(Key(target, owner))
    {
      var _ := manager.StopAndRemoveIfExists(WatchKey(side));
      Do(StopWatch(side));
    }

    method StartRemoteWatchesIfNotWatching(ghost sync: Sync)
      requires Valid() && At() == StartingWatches(sync, Source)
      modifies this`actions, manager
      ensures Valid() && At() == Returned(AwaitChange)
      ensures actions == old(actions) + [StartWatch(Source), StartWatch(Target)]
      ensures BothWatched() && OthersUntouched()
    {
      StartWatchIfNotWatching(Source);
      StartWatchIfNotWatching(Target);
    }

    method StopRemoteWatchesIfWatching(ghost sync: Sync)
      requires Valid() && At() == Stopping(sync, Source)
      modifies this`actions, manager
      ensures Valid() && At() == Removing(sync)
      ensures actions == old(actions) + [StopWatch(Source), StopWatch(Target)]
      ensures NeitherWatched() && OthersUntouched()
    {
      StopWatchIfWatching(Source);
      StopWatchIfWatching(Target);
    }

    /** Stops the watches first, whatever becomes of the patch. */
    method StopWatchesAndRemoveFinalizers(sync: Sync, patch: Reply) returns (outcome: Outcome)
      requires Valid() && At() == Stopping(sync, Source)
      modifies this`actions, manager
      ensures Valid() && At() == Returned(outcome)
      ensures actions == old(actions) + [StopWatch(Source), StopWatch(Target),
                                         PatchFinalizers(Removed(sync.finalizers), patch)]
      ensures outcome == if patch.Done? then AwaitChange else Errored
      ensures NeitherWatched() && OthersUntouched()
    {
      StopRemoteWatchesIfWatching(sync);
      var patched := WithItemRemoved(FinalizersCloneOrEmpty(sync.finalizers), FINALIZER);
      Do(PatchFinalizers(patched, patch));
      return if patch.Done? then AwaitChange else Errored;
    }

    method AddTargetFinalizer(sync: Sync, patch: Reply) returns (outcome: Outcome)
      requires Valid() && At() == Adding(sync)
      modifies this`actions
      ensures Valid() && At() == Returned(outcome)
      ensures actions == old(actions) + [PatchFinalizers(Added(sync.finalizers), patch)]
      ensures outcome == if patch.Done? then RequeueAfter else Errored
    {
      Do(PatchFinalizers(FinalizersCloneOrEmpty(sync.finalizers) + [FINALIZER], patch));
      return if patch.Done? then RequeueAfter else Errored;
    }

    method ReconcileDeletedResource(sync: Sync, answers: Answers) returns (outcome: Outcome)
      requires Valid() && sync.deleting && At() == Resolved(sync, true)
      modifies this`actions, manager
      ensures Valid() && At() == Returned(outcome)
      ensures actions == old(actions) + Calls(old(At()), answers)
      ensures outcome == if Fails(sync, answers.(apis := true)) then Errored else AwaitChange
      ensures WatchesAreLeft(sync, answers.(apis := true)) && OthersUntouched()
    {
      StartingCalls(sync, answers);
      StoppingCalls(sync, answers);
      if !HasFinalizer(sync) {
        return AwaitChange;
      }
      if sync.disableTargetDeletion {
        outcome := StopWatchesAndRemoveFinalizers(sync, answers.patch);
        return;
      }
      Ask(GetTarget(answers.target), answers);
      match answers.target {
        case NotFound =>
          outcome := StopWatchesAndRemoveFinalizers(sync, answers.patch);
          return;
        case GetFailed =>
          return Errored;
        case Found(deleting, finalizers) =>
          if !deleting {
            var propagation := if finalizers != [] then Background else Foreground;
            Ask(DeleteTarget(propagation, answers.delete), answers);
            if !answers.delete.Done? {
              return Errored;
            }
          }
          StartRemoteWatchesIfNotWatching(sync);
          return AwaitChange;
      }
    }

    method ReconcileNormally(sync: Sync, answers: Answers) returns (outcome: Outcome)
      requires Valid() && At() == GettingSource(sync)
      modifies this`actions, manager
      ensures Valid() && At() == Returned(outcome)
      ensures actions == old(actions) + Calls(old(At()), answers)
      ensures outcome == if answers.source && answers.built && answers.apply.Done? then AwaitChange else Errored
      ensures if outcome == AwaitChange then BothWatched() else manager.View() == old(manager.View())
      ensures OthersUntouched()
    {
      StartingCalls(sync, answers);
      Ask(GetSource(answers.source), answers);
      if !answers.source {
        return Errored;
      }
      Ask(BuildTarget(answers.built), answers);
      if !answers.built {
        return Errored;
      }
      Ask(ApplyTarget(answers.apply), answers);
      if !answers.apply.Done? {
        return Errored;
      }
      StartRemoteWatchesIfNotWatching(sync);
      return AwaitChange;
    }

    method ReconcileHelper(sync: Sync, answers: Answers) returns (outcome: Outcome)
      requires Valid() && At() == Idle
      modifies this`actions, manager
      ensures Valid()
      ensures actions == old(actions) + [Begin(sync)] + Calls(Resolving(sync), answers)
      ensures At() == Returned(outcome) && OthersUntouched()
      ensures outcome == Errored <==> Fails(sync, answers)
      ensures outcome == RequeueAfter <==>
              answers.apis && !sync.deleting && !HasFinalizer(sync) && answers.patch.Done?
      ensures WatchesAreLeft(sync, answers)
    {
      StoppingCalls(sync, answers);
      AddingCalls(sync, answers);
      Do(Begin(sync));
      Ask(ResolveApis(answers.apis), answers);
      if !answers.apis {
        if sync.forceDelete && sync.deleting {
          outcome := StopWatchesAndRemoveFinalizers(sync, answers.patch);
          return;
        }
        return Errored;
      }
      if sync.deleting {
        outcome := ReconcileDeletedResource(sync, answers);
      } else if !HasFinalizer(sync) {
        outcome := AddTargetFinalizer(sync, answers.patch);
      } else {
        outcome := ReconcileNormally(sync, answers);
      }
    }

    /** The reconcile and its status. `read` is the live status, or `None` where reading it
        fails; a failing read or write becomes the outcome. */
    method Reconcile(
      sync: Sync, cached: Status.Snapshot, answers: Answers,
      message: string, read: Option<Option<Status.ResourceSyncStatus>>, writes: bool, now: Status.Time)
      returns (outcome: Outcome, ghost done: Outcome, status: Option<Status.ResourceSyncStatus>)
      requires Valid() && At() == Idle && cached.deleted == sync.deleting
      modifies this`actions, manager
      ensures Valid() && At() == Idle && OthersUntouched()
      ensures actions == old(actions) + [Begin(sync)] + Calls(Resolving(sync), answers) + [Finish]
      ensures Follow(actions[..|actions| - 1]) == Some(Returned(done))
      ensures (outcome, status) == WithStatus(done, cached, message, read, writes, now)
      ensures done == Errored <==> Fails(sync, answers)
      ensures done == Errored || !sync.deleting ==>
                if read.None? then outcome == Errored && status == None
                else outcome == (if writes then done else Errored) &&
                     Status.Says(status, done == Errored, message, cached.generation, read.value, now)
      ensures WatchesAreLeft(sync, answers)
    {
      outcome := ReconcileHelper(sync, answers);
      done := outcome;
      End(done);
      outcome, status := UpdateStatus(outcome, cached, message, read, writes, now);
    }
  }

  /** What becomes of an outcome and the live status: a write that the outcome calls for
      follows `Status.AfterAttempt` from the live status, and fails where that cannot be read
      or written. */
  function WithStatus(
    done: Outcome, cached: Status.Snapshot, message: string,
    read: Option<Option<Status.ResourceSyncStatus>>, writes: bool, now: Status.Time)
    : (Outcome, Option<Status.ResourceSyncStatus>)
  {
    var a := Status.Attempt(cached, if done.Errored? then Status.Failed(message) else Status.Succeeded, now);
    if !Status.IsWrite(a) then (done, None)
    else if read.None? then (Errored, None)
    else (if writes then done else Errored, Status.AfterAttempt(read.value, a))
  }

  /** Reads the live status unless nothing will be written, and writes what comes of it. */
  method UpdateStatus(
    done: Outcome, cached: Status.Snapshot, message: string,
    read: Option<Option<Status.ResourceSyncStatus>>, writes: bool, now: Status.Time)
    returns (outcome: Outcome, status: Option<Status.ResourceSyncStatus>)
    ensures (outcome, status) == WithStatus(done, cached, message, read, writes, now)
    ensures done != Errored && cached.deleted ==> outcome == done && status == None
    ensures done == Errored || !cached.deleted ==>
              if read.None? then outcome == Errored && status == None
              else outcome == (if writes then done else Errored) &&
                   Status.Says(status, done == Errored, message, cached.generation, read.value, now)
  {
    var live: Option<Status.ResourceSyncStatus> := None;
    if done.Errored? || !cached.deleted {
      if read.None? {
        return Errored, None;
      }
      live := read.value;
    }
    var result := if done.Errored? then Status.Failed(message) else Status.Succeeded;
    status := Status.ReconcileStatus(cached, live, result, now);
    outcome := if status.Some? && !writes then Errored else done;
  }
}
