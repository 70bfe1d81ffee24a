/** The condition written after each reconcile, and its transition time over histories. */
module Status {
  import opened Wrappers

  type Time = int

  datatype Condition = Condition(
    type_: string,
    status: string,
    reason: string,
    message: string,
    lastTransitionTime: Time,
    observedGeneration: Option<int>)

  datatype ResourceSyncStatus = ResourceSyncStatus(conditions: Option<seq<Condition>>)

  const RESOURCE_SYNC_FAILING_CONDITION: string := "ResourceSyncFailing"
  const RESOURCE_SYNC_SUCCEEDED_REASON: string := "ResourceSyncSucceeded"

  /** What the reconcile was given from the cache. */
  datatype Snapshot = Snapshot(deleted: bool, generation: Option<int>, status: Option<ResourceSyncStatus>)

  datatype Outcome = Succeeded | Failed(message: string)

  /** The first condition of Sinker's type. */
  function FindFailing(conditions: seq<Condition>): (c: Option<Condition>)
    ensures c.None? <==> forall i | 0 <= i < |conditions| :: conditions[i].type_ != "ResourceSyncFailing"
    ensures c.Some? ==> exists i :: IsFirstFailing(conditions, i) && conditions[i] == c.value
  {
    if conditions == [] then None
    else if conditions[0].type_ == RESOURCE_SYNC_FAILING_CONDITION then
      assert IsFirstFailing(conditions, 0);
      Some(conditions[0])
    else
      var c := FindFailing(conditions[1..]);
      FirstOfRest(conditions);
      c
  }

  predicate IsFirstFailing(conditions: seq<Condition>, i: int) {
    && 0 <= i < |conditions| && conditions[i].type_ == "ResourceSyncFailing"
    && forall j | 0 <= j < i :: conditions[j].type_ != "ResourceSyncFailing"
  }

  lemma FirstOfRest(conditions: seq<Condition>)
    requires conditions != [] && conditions[0].type_ != "ResourceSyncFailing"
    ensures forall i :: IsFirstFailing(conditions[1..], i) ==>
              IsFirstFailing(conditions, i + 1) && conditions[i + 1] == conditions[1..][i]
    ensures forall i | 0 < i < |conditions| :: conditions[i] == conditions[1..][i - 1]
  {
  }

  function FailingCondition(status: Option<ResourceSyncStatus>): Option<Condition> {
    if status.None? || status.value.conditions.None? then None
    else FindFailing(status.value.conditions.value)
  }

  function SyncFailingTransitionTime(status: Option<ResourceSyncStatus>, newStatus: string, now: Time): Time {
    var c := FailingCondition(status);
    if c.Some? && c.value.status == newStatus then c.value.lastTransitionTime else now
  }

  function SyncFailingCondition(
    sync: Snapshot, live: Option<ResourceSyncStatus>, status: string, reason: string, message: string, now: Time)
    : Condition
  {
    Condition(RESOURCE_SYNC_FAILING_CONDITION, status, reason, message,
              SyncFailingTransitionTime(live, status, now), sync.generation)
  }

  /** `None` means that nothing is written. */
  function ReconcileStatus(sync: Snapshot, live: Option<ResourceSyncStatus>, outcome: Outcome, now: Time)
    : Option<ResourceSyncStatus>
  {
    match outcome
    case Failed(message) =>
      Some(ResourceSyncStatus(Some([
        SyncFailingCondition(sync, live, "True", RESOURCE_SYNC_FAILING_CONDITION, message, now)])))
    case Succeeded =>
      if sync.deleted then None
      else
        Some(ResourceSyncStatus(Some([
          SyncFailingCondition(sync, live, "False", RESOURCE_SYNC_SUCCEEDED_REASON, "Sync succeeded", now)])))
  }

  /** The time since which the failing condition has had this value: that of the live status
      where it has the value, and otherwise now. */
  ghost predicate IsSince(live: Option<ResourceSyncStatus>, value: string, now: Time, since: Time) {
    if live.Some? && live.value.conditions.Some? &&
       exists i :: IsFirstFailing(live.value.conditions.value, i) && live.value.conditions.value[i].status == value
    then exists i :: IsFirstFailing(live.value.conditions.value, i) && live.value.conditions.value[i].lastTransitionTime == since
    else since == now
  }

  /** The status written for an attempt: one condition, `True` with the error or `False`. */
  ghost predicate Says(
    status: Option<ResourceSyncStatus>, failed: bool, message: string, generation: Option<int>,
    live: Option<ResourceSyncStatus>, now: Time)
  {
    && status.Some? && status.value.conditions.Some? && |status.value.conditions.value| == 1
    && var c := status.value.conditions.value[0];
       && c.type_ == "ResourceSyncFailing" && c.observedGeneration == generation
       && (if failed then c.status == "True" && c.reason == "ResourceSyncFailing" && c.message == message
           else c.status == "False" && c.reason == "ResourceSyncSucceeded" && c.message == "Sync succeeded")
       && IsSince(live, c.status, now, c.lastTransitionTime)
  }

  /** What is written, and exactly when something is. */
  lemma WhatIsWritten(sync: Snapshot, live: Option<ResourceSyncStatus>, outcome: Outcome, now: Time)
    ensures var status := ReconcileStatus(sync, live, outcome, now);
            if outcome.Succeeded? && sync.deleted then status == None
            else Says(status, outcome.Failed?, if outcome.Failed? then outcome.message else "", sync.generation, live, now)
  {
    if !(outcome.Succeeded? && sync.deleted) {
      TransitionTimeIsSince(live, if outcome.Failed? then "True" else "False", now);
    }
  }

  lemma TransitionTimeIsSince(live: Option<ResourceSyncStatus>, value: string, now: Time)
    ensures IsSince(live, value, now, SyncFailingTransitionTime(live, value, now))
  {
    if live.Some? && live.value.conditions.Some? {
      var conditions := live.value.conditions.value;
      var c := FindFailing(conditions);
      forall i, j | IsFirstFailing(conditions, i) && IsFirstFailing(conditions, j) ensures i == j {}
    }
  }

  // Histories

  datatype Attempt = Attempt(sync: Snapshot, outcome: Outcome, now: Time)

  /** The live status after an attempt whose status read and write both succeed. */
  function AfterAttempt(live: Option<ResourceSyncStatus>, a: Attempt): Option<ResourceSyncStatus> {
    var written := ReconcileStatus(a.sync, live, a.outcome, a.now);
    if written.Some? then written else live
  }

  function AfterHistory(live: Option<ResourceSyncStatus>, history: seq<Attempt>): Option<ResourceSyncStatus> {
    if history == [] then live
    else
      var last := |history| - 1;
      AfterAttempt(AfterHistory(live, history[..last]), history[last])
  }

  predicate IsWrite(a: Attempt) {
    a.outcome.Failed? || !a.sync.deleted
  }

  /** The attempts of a history that write a status, in order. */
  function Writes(history: seq<Attempt>): seq<Attempt> {
    if history == [] then []
    else
      var last := |history| - 1;
      Writes(history[..last]) + (if IsWrite(history[last]) then [history[last]] else [])
  }

  function ValueOf(a: Attempt): string {
    if a.outcome.Failed? then "True" else "False"
  }

  /** `ws[i..]` is the current unbroken block of writes of one value. */
  predicate CurrentBlockStartsAt(ws: seq<Attempt>, i: nat) {
    && i < |ws|
    && (forall k | i <= k < |ws| :: ValueOf(ws[k]) == ValueOf(ws[i]))
    && (i > 0 ==> ValueOf(ws[i - 1]) != ValueOf(ws[i]))
  }

  /** The time a block starting at the first write inherits from the initial status. */
  function Inherited(live: Option<ResourceSyncStatus>, first: Attempt): Time {
    var c := FailingCondition(live);
    if c.Some? && c.value.status == ValueOf(first) then c.value.lastTransitionTime else first.now
  }

  /** The one condition that a write leaves, with a given transition time. */
  function ConditionOf(a: Attempt, since: Time): Condition {
    Condition(
      RESOURCE_SYNC_FAILING_CONDITION,
      ValueOf(a),
      if a.outcome.Failed? then RESOURCE_SYNC_FAILING_CONDITION else RESOURCE_SYNC_SUCCEEDED_REASON,
      if a.outcome.Failed? then a.outcome.message else "Sync succeeded",
      since,
      a.sync.generation)
  }

  function StatusOf(a: Attempt, since: Time): Option<ResourceSyncStatus> {
    Some(ResourceSyncStatus(Some([ConditionOf(a, since)])))
  }

  lemma OneWrite(live: Option<ResourceSyncStatus>, a: Attempt)
    requires IsWrite(a)
    ensures AfterAttempt(live, a) == StatusOf(a, SyncFailingTransitionTime(live, ValueOf(a), a.now))
  {
  }

  lemma WriteAfterWrite(b: Attempt, since: Time, a: Attempt)
    ensures SyncFailingTransitionTime(StatusOf(b, since), ValueOf(a), a.now)
         == if ValueOf(b) == ValueOf(a) then since else a.now
  {
    assert FailingCondition(StatusOf(b, since)) == Some(ConditionOf(b, since));
  }

  /** The first write of the current block; every nonempty list of writes has one. */
  function BlockStart(ws: seq<Attempt>): (i: nat)
    requires ws != []
    ensures CurrentBlockStartsAt(ws, i)
  {
    var last := |ws| - 1;
    if last == 0 || ValueOf(ws[last - 1]) != ValueOf(ws[last]) then last
    else
      var i := BlockStart(ws[..last]);
      assert ValueOf(ws[..last][last - 1]) == ValueOf(ws[i]);
      i
  }

  /** When the current block began, or the time it inherits where it reaches back to the start. */
  function Since(live: Option<ResourceSyncStatus>, ws: seq<Attempt>): Time
    requires ws != []
  {
    var i := BlockStart(ws);
    if i > 0 then ws[i].now else Inherited(live, ws[0])
  }

  /** A write of the value of the write before goes on with its block. */
  lemma SinceAfterWrite(live: Option<ResourceSyncStatus>, ws: seq<Attempt>, a: Attempt)
    requires ws != []
    ensures Since(live, ws + [a]) == if ValueOf(ws[|ws| - 1]) == ValueOf(a) then Since(live, ws) else a.now
  {
    assert (ws + [a])[..|ws|] == ws;
  }

  /** The status that a list of writes leaves: one condition, its value, reason, message and
      generation those of the last write, its transition time the start of the current block. */
  function StatusAfterWrites(live: Option<ResourceSyncStatus>, ws: seq<Attempt>): Option<ResourceSyncStatus> {
    if ws == [] then live else StatusOf(ws[|ws| - 1], Since(live, ws))
  }

  lemma OneMoreWrite(live: Option<ResourceSyncStatus>, ws: seq<Attempt>, a: Attempt)
    requires IsWrite(a)
    ensures AfterAttempt(StatusAfterWrites(live, ws), a) == StatusAfterWrites(live, ws + [a])
  {
    OneWrite(StatusAfterWrites(live, ws), a);
    if ws == [] {
      assert ws + [a] == [a];
    } else {
      SinceAfterWrite(live, ws, a);
      WriteAfterWrite(ws[|ws| - 1], Since(live, ws), a);
    }
  }

  lemma OneMoreAttempt(live: Option<ResourceSyncStatus>, history: seq<Attempt>, a: Attempt)
    ensures AfterHistory(live, history + [a]) == AfterAttempt(AfterHistory(live, history), a)
    ensures Writes(history + [a]) == Writes(history) + if IsWrite(a) then [a] else []
    ensures !IsWrite(a) ==> AfterAttempt(AfterHistory(live, history), a) == AfterHistory(live, history)
  {
    assert (history + [a])[..|history|] == history;
  }

  /** After every history the live status is what its writes leave, whatever the cached
      statuses in the history say. */
  lemma {:induction false} TransitionTimeOverHistory(live: Option<ResourceSyncStatus>, history: seq<Attempt>)
    ensures AfterHistory(live, history) == StatusAfterWrites(live, Writes(history))
  {
    if history != [] {
      var before, a := history[..|history| - 1], history[|history| - 1];
      assert history == before + [a];
      TransitionTimeOverHistory(live, before);
      OneMoreAttempt(live, before, a);
      if IsWrite(a) {
        OneMoreWrite(live, Writes(before), a);
      } else {
        assert Writes(history) == Writes(before);
      }
    }
  }

  /** A history of nothing but successes of deleted resources leaves the status alone. */
  lemma NoWritesNoChange(live: Option<ResourceSyncStatus>, history: seq<Attempt>)
    requires forall i | 0 <= i < |history| :: history[i].sync.deleted && history[i].outcome.Succeeded?
    ensures AfterHistory(live, history) == live
  {
    TransitionTimeOverHistory(live, history);
    NothingWritten(history);
  }

  lemma {:induction false} NothingWritten(history: seq<Attempt>)
    requires forall i | 0 <= i < |history| :: !IsWrite(history[i])
    ensures Writes(history) == []
  {
    if history != [] {
      NothingWritten(history[..|history| - 1]);
    }
  }
}
