/** One end of a sync: its watch task against the changes made to the watched object. */
module Ends {
  import opened Wrappers
  import opened Filters
  import opened RemoteWatcher

  /** `log` holds the changes made so far, `newest` the newest version the server has given out.
      There is no task until the controller starts one. */
  datatype End = End(task: Option<Position>, log: seq<Event>, newest: Version)

  predicate AtVersion(p: Position) {
    !p.Starting? && !p.Failing?
  }

  /** Nothing has a version that has not been given out. */
  predicate Fits(end: End) {
    && IsLog(end.log)
    && (forall i | 0 <= i < |end.log| :: VersionOf(end.log[i]) <= end.newest)
    && (end.task.Some? && AtVersion(end.task.value) ==> end.task.value.version <= end.newest)
  }

  /** The changes the task has yet to be told of. */
  function Coming(end: End, version: Version): seq<Event>
    requires IsLog(end.log)
  {
    Since(end.log, version)
  }

  /** What the server lets a task do: a GET returns the object as it is, a stream offers the next
      change or a bookmark, anything may fail, but no version expires. */
  predicate TaskMay(end: End, a: Action) {
    && IsLog(end.log)
    && end.task.Some? && Next(end.task.value, a).Some?
    && (a.Fetch? ==> BEGINNING < a.version <= end.newest && Coming(end, a.version) == [])
    && (a.Receive? && end.task.value.Streaming? ==>
          if Versioned(a.event) then Offers(end.log, end.task.value.version, a.event) else a.event != Error(EXPIRED))
  }

  function Advanced(end: End, a: Action): End
    requires TaskMay(end, a)
  {
    end.(task := Next(end.task.value, a),
         newest := if a.Receive? && a.event.Bookmark? && a.event.version > end.newest then a.event.version else end.newest)
  }

  /** A task is started only where there is none. */
  function Spawned(end: End): End {
    if end.task.None? then end.(task := Some(Starting)) else end
  }

  predicate IsNewChange(end: End, e: Event) {
    IsObjectEvent(e) && Versioned(e) && VersionOf(e) > end.newest
  }

  function Changed(end: End, e: Event): End
    requires IsNewChange(end, e)
  {
    end.(log := end.log + [e], newest := VersionOf(e))
  }

  // What every step of an end keeps

  lemma OfferedIsGivenOut(end: End, version: Version, e: Event)
    requires Fits(end) && Offers(end.log, version, e) && !e.Bookmark?
    ensures Versioned(e) && VersionOf(e) <= end.newest
  {
    SinceIsOfLog(end.log, version);
    assert e in Coming(end, version);
  }

  lemma AdvancedFits(end: End, a: Action)
    requires Fits(end) && TaskMay(end, a)
    ensures Fits(Advanced(end, a))
  {
    if a.Receive? && Versioned(a.event) && !a.event.Bookmark? {
      OfferedIsGivenOut(end, end.task.value.version, a.event);
    }
  }

  lemma ChangedFits(end: End, e: Event)
    requires Fits(end) && IsNewChange(end, e)
    ensures Fits(Changed(end, e))
  {
  }

  lemma {:induction false} SinceIsOfLog(log: seq<Event>, version: Version)
    requires IsLog(log)
    ensures forall e | e in Since(log, version) :: e in log
  {
    if log != [] && VersionOf(log[0]) <= version {
      SinceIsOfLog(log[1..], version);
    }
  }

  /** A new change comes after everything a task has yet to be told of. */
  lemma {:induction false} SinceAppend(log: seq<Event>, e: Event, version: Version)
    requires IsLog(log) && IsLog(log + [e]) && Versioned(e) && VersionOf(e) > version
    ensures Since(log + [e], version) == Since(log, version) + [e]
  {
    if log == [] {
      assert log + [e] == [e];
    } else if VersionOf(log[0]) <= version {
      assert (log + [e])[1..] == log[1..] + [e];
      SinceAppend(log[1..], e, version);
    }
  }

  lemma {:induction false} CountAppend(changes: seq<Event>, e: Event)
    requires IsObjectEvent(e)
    ensures CountRelevant(changes + [e]) == CountRelevant(changes) + if Relevant(e) then 1 else 0
  {
    if changes == [] {
      assert changes + [e] == [e] && [e][1..] == [];
    } else {
      assert (changes + [e])[1..] == changes[1..] + [e];
      CountAppend(changes[1..], e);
    }
  }

  // The reconciles an end will send

  /** The sends still to come where nothing fails; a task not yet started will send one. */
  function SendsAhead(end: End): nat
    requires IsLog(end.log)
  {
    if end.task.None? then 1
    else
      match end.task.value
      case Starting => 1
      case Failing => 2
      case Known(v) => 1 + CountRelevant(Coming(end, v))
      case Owing(v) => 1 + CountRelevant(Coming(end, v))
      case Connecting(v) => CountRelevant(Coming(end, v))
      case Streaming(v) => CountRelevant(Coming(end, v))
  }

  /** How many more sends an action may bring about: a failure is answered by one, and the start
      after it by another, which a failed start already had coming. */
  function SendsCaused(a: Action): nat {
    match a
    case StartFailed => 1
    case Connect(_, accepted) => if accepted then 0 else 2
    case Receive(e) => if Versioned(e) then 0 else 2
    case BrokenStream => 2
    case _ => 0
  }

  lemma OfferedIsCounted(log: seq<Event>, version: Version, e: Event)
    requires IsLog(log) && Offers(log, version, e)
    ensures Versioned(e)
    ensures CountRelevant(Since(log, version))
         == CountRelevant(Since(log, VersionOf(e))) + if IsObjectEvent(e) && Relevant(e) then 1 else 0
  {
    AfterOffered(log, version, e);
    CountOne(e, Since(log, VersionOf(e)));
    OneIsCounted(e);
  }

  lemma ReceiveAccounts(end: End, e: Event)
    requires Fits(end) && TaskMay(end, Receive(e)) && Versioned(e)
    ensures SendsAhead(Advanced(end, Receive(e))) == SendsAhead(end)
  {
    OfferedIsCounted(end.log, end.task.value.version, e);
  }

  lemma OneIsCounted(e: Event)
    ensures CountRelevant(ChangeOf(e)) == if IsObjectEvent(e) && Relevant(e) then 1 else 0
  {
    assert ChangeOf(e) != [] ==> ChangeOf(e)[1..] == [];
  }

  lemma TaskAccounts(end: End, a: Action)
    requires Fits(end) && TaskMay(end, a)
    ensures IsLog(Advanced(end, a).log)
    ensures SendsAhead(Advanced(end, a)) + (if a.Send? then 1 else 0) <= SendsAhead(end) + SendsCaused(a)
  {
    if a.Receive? && Versioned(a.event) {
      ReceiveAccounts(end, a.event);
    }
  }

  lemma ChangeAccounts(end: End, e: Event)
    requires Fits(end) && IsNewChange(end, e)
    ensures IsLog(Changed(end, e).log)
    ensures SendsAhead(Changed(end, e)) <= SendsAhead(end) + if Relevant(e) then 1 else 0
  {
    ChangedFits(end, e);
    if end.task.Some? && AtVersion(end.task.value) {
      var v := end.task.value.version;
      SinceAppend(end.log, e, v);
      CountAppend(Coming(end, v), e);
    }
  }

  // Whether a started task will still send

  predicate WillSend(end: End)
    requires IsLog(end.log)
  {
    end.task.Some? && SendsAhead(end) > 0
  }

  /** A task that will send does so, whatever fails. */
  lemma WillSendUntilItDoes(end: End, a: Action)
    requires Fits(end) && TaskMay(end, a)
    ensures WillSend(end) ==> a.Send? || (IsLog(Advanced(end, a).log) && WillSend(Advanced(end, a)))
  {
    if a.Receive? && Versioned(a.event) {
      ReceiveAccounts(end, a.event);
    }
  }

  /** Once a task has been started, every relevant change leaves it with a send to come. */
  lemma RelevantChangeWillBeSent(end: End, e: Event)
    requires Fits(end) && IsNewChange(end, e)
    ensures IsLog(Changed(end, e).log)
    ensures WillSend(end) || (end.task.Some? && Relevant(e)) ==> WillSend(Changed(end, e))
  {
    ChangedFits(end, e);
    if end.task.Some? && AtVersion(end.task.value) {
      var v := end.task.value.version;
      SinceAppend(end.log, e, v);
      CountAppend(Coming(end, v), e);
    }
  }

  /** Every failure, and every event that calls for a reconcile, leaves the task with one to send. */
  lemma WhatCallsWillBeSent(end: End, a: Action)
    requires Fits(end) && TaskMay(end, a) && CallsForSend(a)
    ensures IsLog(Advanced(end, a).log) && WillSend(Advanced(end, a))
  {
  }

  /** The task follows its stream and has been told of everything. */
  predicate UpToDate(end: End)
    requires IsLog(end.log)
  {
    end.task.Some? && end.task.value.Streaming? && Coming(end, end.task.value.version) == []
  }

  lemma OnlyNewChangeComes(end: End, e: Event)
    requires Fits(end) && UpToDate(end) && IsNewChange(end, e)
    ensures Fits(Changed(end, e))
    ensures Coming(Changed(end, e), end.task.value.version) == [e]
    ensures Coming(Changed(end, e), VersionOf(e)) == []
  {
    var log, v := end.log + [e], end.task.value.version;
    ChangedFits(end, e);
    SinceAppend(end.log, e, v);
    assert [] + [e] == [e];
    NothingSinceNewest(log, VersionOf(e));
  }

  lemma {:induction false} NothingSinceNewest(log: seq<Event>, newest: Version)
    requires IsLog(log) && forall i | 0 <= i < |log| :: VersionOf(log[i]) <= newest
    ensures Since(log, newest) == []
  {
    if log != [] {
      NothingSinceNewest(log[1..], newest);
    }
  }

  /** An irrelevant change is delivered, and the task is where it was. */
  lemma IrrelevantChangePasses(end: End, e: Event)
    requires Fits(end) && UpToDate(end) && IsNewChange(end, e) && !Relevant(e)
    ensures Fits(Changed(end, e)) && TaskMay(Changed(end, e), Receive(e))
    ensures UpToDate(Advanced(Changed(end, e), Receive(e)))
  {
    OnlyNewChangeComes(end, e);
  }

  // The work left for a task

  /** What one trigger is worth: beginning a reconcile, its calls and the event of its apply. */
  const TRIGGER: nat := 9

  function EventWork(e: Event): nat {
    if IsObjectEvent(e) && Relevant(e) then 2 + TRIGGER else 1
  }

  function EventsWork(es: seq<Event>): nat {
    if es == [] then 0 else EventWork(es[0]) + EventsWork(es[1..])
  }

  function TaskWork(end: End): nat
    requires IsLog(end.log)
  {
    if end.task.None? then 3 + TRIGGER
    else
      match end.task.value
      case Starting => 3 + TRIGGER
      case Failing => 4 + 2 * TRIGGER
      case Known(v) => 2 + TRIGGER + EventsWork(Coming(end, v))
      case Owing(v) => 1 + TRIGGER + EventsWork(Coming(end, v))
      case Connecting(v) => 1 + EventsWork(Coming(end, v))
      case Streaming(v) => EventsWork(Coming(end, v))
  }

  lemma {:induction false} EventsWorkAppend(es: seq<Event>, e: Event)
    ensures EventsWork(es + [e]) == EventsWork(es) + EventWork(e)
  {
    if es == [] {
      assert es + [e] == [e] && [e][1..] == [];
    } else {
      assert (es + [e])[1..] == es[1..] + [e];
      EventsWorkAppend(es[1..], e);
    }
  }

  /** A stream that ends is opened again, and a bookmark changes nothing but the version. */
  predicate Upkeep(a: Action) {
    a.EndOfStream? || (a.Receive? && a.event.Bookmark?)
  }

  lemma OfferedIsWork(log: seq<Event>, version: Version, e: Event)
    requires IsLog(log) && Offers(log, version, e)
    ensures Versioned(e)
    ensures EventsWork(Since(log, version))
         == EventsWork(Since(log, VersionOf(e))) + if e.Bookmark? then 0 else EventWork(e)
  {
    AfterOffered(log, version, e);
    if e.Bookmark? {
      assert Since(log, version) == Since(log, VersionOf(e));
    } else {
      assert Since(log, version)[0] == e && Since(log, version)[1..] == Since(log, VersionOf(e));
    }
  }

  lemma ReceiveReducesWork(end: End, e: Event)
    requires Fits(end) && TaskMay(end, Receive(e)) && Versioned(e)
    ensures TaskWork(Advanced(end, Receive(e))) + (if e.Bookmark? then 0 else 1) == TaskWork(end)
  {
    OfferedIsWork(end.log, end.task.value.version, e);
  }

  /** A send becomes a trigger in the queue. */
  lemma TaskReducesWork(end: End, a: Action)
    requires Fits(end) && TaskMay(end, a) && SendsCaused(a) == 0
    ensures IsLog(Advanced(end, a).log)
    ensures var left := TaskWork(Advanced(end, a)) + if a.Send? then TRIGGER else 0;
            if a.EndOfStream? then left == TaskWork(end) + 1
            else if Upkeep(a) then left == TaskWork(end)
            else left + 1 == TaskWork(end)
  {
    if a.Receive? {
      ReceiveReducesWork(end, a.event);
    }
  }

  lemma ChangeAddsWork(end: End, e: Event)
    requires Fits(end) && IsNewChange(end, e) && !Relevant(e)
    ensures IsLog(Changed(end, e).log) && TaskWork(Changed(end, e)) <= TaskWork(end) + 1
  {
    ChangedFits(end, e);
    if end.task.Some? && AtVersion(end.task.value) {
      var v := end.task.value.version;
      SinceAppend(end.log, e, v);
      EventsWorkAppend(Coming(end, v), e);
    }
  }

  // Sinker's own writes

  /** An apply stamps Sinker's entry with a time newer than every other entry's. */
  ghost predicate StampedBySinker(fields: seq<ManagedFieldsEntry>) {
    && AllTimed(fields)
    && exists i :: 0 <= i < |fields| && fields[i].manager == Some(GROUP) &&
         forall j | 0 <= j < |fields| && j != i :: fields[j].time.value < fields[i].time.value
  }

  ghost predicate IsOwnWrite(end: End, e: Event) {
    && IsNewChange(end, e) && !e.Deleted?
    && e.obj.managedFields.Some? && StampedBySinker(e.obj.managedFields.value)
  }

  /** The event of Sinker's own write is suppressed: its newest entry is Sinker's. */
  lemma OwnEventIsSuppressed(end: End, e: Event)
    requires IsOwnWrite(end, e)
    ensures !Relevant(e)
  {
    var fields := e.obj.managedFields.value;
    var i :| 0 <= i < |fields| && fields[i].manager == Some(GROUP) &&
             forall j | 0 <= j < |fields| && j != i :: fields[j].time.value < fields[i].time.value;
    assert IsLastNewest(fields, i);
    AttributionIsExact(fields, GROUP);
  }

  /** Any other change is answered: one whose newest entry names another manager or none, one with
      an untimed entry or no entries, and a deletion. */
  lemma ForeignEventIsRelevant(e: Event)
    requires IsObjectEvent(e)
    requires !e.Deleted? && e.obj.managedFields.Some? && AllTimed(e.obj.managedFields.value) ==>
               forall i: nat :: IsLastNewest(e.obj.managedFields.value, i) ==>
                 e.obj.managedFields.value[i].manager != Some("sinker.influxdata.io")
    ensures Relevant(e)
  {
    RelevantExactlyWhen(e);
    if e.obj.managedFields.Some? && e.obj.managedFields.value != [] && AllTimed(e.obj.managedFields.value) {
      var i := MostRecentIsLastNewest(e.obj.managedFields.value);
    }
  }

  /** There is always a write that Sinker could make next. */
  lemma SomeOwnWrite(end: End) returns (e: Event)
    ensures IsOwnWrite(end, e)
  {
    var stamp := [ManagedFieldsEntry(Some(GROUP), Some(0))];
    assert stamp[0].manager == Some(GROUP);
    assert StampedBySinker(stamp);
    e := Modified(Object(Some(end.newest + 1), Some(stamp)));
  }
}
