/** A watch task among changes to the object it watches: no relevant change is lost, unless the
    server expired the version and the task went on from the beginning. */
module WatchSafety {
  import opened Wrappers
  import opened RemoteWatcher

  /** What happens, in the order it happens: the object changes, the server's version moves on
      for other reasons, or the task acts. */
  datatype Step =
    | Change(event: Event)
    | OtherVersion(version: Version)
    | Act(action: Action)

  function Actions(steps: seq<Step>): seq<Action> {
    if steps == [] then []
    else
      var last := |steps| - 1;
      Actions(steps[..last]) + if steps[last].Act? then [steps[last].action] else []
  }

  /** The newest version the server has given out. */
  function Newest(steps: seq<Step>): Version {
    if steps == [] then 0
    else
      var last := |steps| - 1;
      match steps[last]
      case Change(e) => if Versioned(e) then VersionOf(e) else Newest(steps[..last])
      case OtherVersion(v) => v
      case Act(_) => Newest(steps[..last])
  }

  predicate Changed(steps: seq<Step>, j: nat, e: Event) {
    j < |steps| && steps[j] == Change(e)
  }

  /** No change has a version after `version` and up to `upTo`. */
  ghost predicate NothingBetween(steps: seq<Step>, version: Version, upTo: Version) {
    forall j | 0 <= j < |steps| && steps[j].Change? && Versioned(steps[j].event) ::
      VersionOf(steps[j].event) <= version || VersionOf(steps[j].event) > upTo
  }

  /** What the server may deliver on a stream that has reached `version`: the next change as it
      happened, an object without a version, an error, or a bookmark with no change left before
      it. From the beginning, whatever it chooses to replay. */
  ghost predicate Deliverable(steps: seq<Step>, version: Version, e: Event) {
    if !Versioned(e) then true
    else if version == BEGINNING then VersionOf(e) <= Newest(steps)
    else if IsObjectEvent(e) then
      && (exists j :: 0 <= j < |steps| && steps[j] == Change(e))
      && VersionOf(e) > version
      && NothingBetween(steps, version, VersionOf(e) - 1)
    else version <= e.version <= Newest(steps) && NothingBetween(steps, version, e.version)
  }

  ghost predicate Allowed(steps: seq<Step>, next: Step) {
    match next
    case Change(e) => IsObjectEvent(e) && Versioned(e) && VersionOf(e) > Newest(steps)
    case OtherVersion(v) => v >= Newest(steps)
    case Act(a) =>
      var p := At(steps);
      && p.Some? && Next(p.value, a).Some?
      && (a.Fetch? ==> BEGINNING < a.version <= Newest(steps))
      && (a.Receive? && p.value.Streaming? ==> Deliverable(steps, p.value.version, a.event))
  }

  ghost predicate History(steps: seq<Step>) {
    steps == [] ||
    var last := |steps| - 1;
    History(steps[..last]) && Allowed(steps[..last], steps[last])
  }

  /** The version the task has covered, where it stands at one. */
  function Cursor(p: Position): Option<Version> {
    if p.Connecting? || p.Streaming? then Some(p.version) else None
  }

  /** Where the task stands. */
  function At(steps: seq<Step>): Option<Position> {
    Follow(Actions(steps))
  }

  lemma LastStep(steps: seq<Step>, next: Step)
    ensures At(steps + [next]) == if !next.Act? then At(steps)
                                  else if At(steps).None? then None
                                  else Next(At(steps).value, next.action)
    ensures History(steps + [next]) <==> History(steps) && Allowed(steps, next)
  {
    var all := steps + [next];
    assert all[..|all| - 1] == steps;
    if next.Act? {
      assert Actions(all)[..|Actions(all)| - 1] == Actions(steps);
    } else {
      assert Actions(all) == Actions(steps);
    }
  }

  lemma {:induction false} HistoryIsFollowed(steps: seq<Step>)
    requires History(steps)
    ensures At(steps).Some?
  {
    if steps != [] {
      var last := |steps| - 1;
      HistoryIsFollowed(steps[..last]);
      assert steps == steps[..last] + [steps[last]];
      LastStep(steps[..last], steps[last]);
    }
  }

  /** Every version a task holds, and every version of a change, has been given out. */
  lemma {:induction false} VersionsGivenOut(steps: seq<Step>)
    requires History(steps)
    ensures At(steps).Some?
    ensures var p := At(steps).value; !p.Starting? && !p.Failing? ==> p.version <= Newest(steps)
    ensures forall j | 0 <= j < |steps| && steps[j].Change? ::
              Versioned(steps[j].event) && BEGINNING < VersionOf(steps[j].event) <= Newest(steps)
  {
    HistoryIsFollowed(steps);
    if steps != [] {
      var last := |steps| - 1;
      VersionsGivenOut(steps[..last]);
      assert steps == steps[..last] + [steps[last]];
      LastStep(steps[..last], steps[last]);
    }
  }

  predicate Expires(step: Step) {
    step == Act(Receive(Error(EXPIRED)))
  }

  /** A version taken over from a stream that was opened at, or sent back to, the beginning. */
  predicate Replayed(steps: seq<Step>, k: nat) {
    && k < |steps| && steps[k].Act? && steps[k].action.Receive? && Versioned(steps[k].action.event)
    && At(steps[..k]) == Some(Streaming(BEGINNING))
  }

  /** A replay that takes a task past `version` without a reconcile. */
  predicate PassedAt(steps: seq<Step>, k: nat, version: Version) {
    && Replayed(steps, k)
    && var e := steps[k].action.event;
       version <= VersionOf(e) && (e.Bookmark? || !Relevant(e))
  }

  predicate AnsweredAt(steps: seq<Step>, k: nat, version: Version) {
    (k < |steps| && steps[k] == Act(Send)) || PassedAt(steps, k, version)
  }

  predicate AnsweredAfter(steps: seq<Step>, j: int, version: Version) {
    exists k: nat :: j < k < |steps| && AnsweredAt(steps, k, version)
  }

  /** Everything up to the cursor that is relevant has been answered. */
  ghost predicate Answered(steps: seq<Step>, version: Version) {
    forall j | 0 <= j < |steps| && steps[j].Change? && IsObjectEvent(steps[j].event) && Versioned(steps[j].event) ::
      VersionOf(steps[j].event) <= version && Relevant(steps[j].event) ==>
        AnsweredAfter(steps, j, VersionOf(steps[j].event))
  }

  lemma AnsweredLater(steps: seq<Step>, next: Step, version: Version)
    requires Answered(steps, version)
    requires next.Change? && Versioned(next.event) ==> VersionOf(next.event) > version
    ensures Answered(steps + [next], version)
  {
    var all := steps + [next];
    forall j | 0 <= j < |all| && all[j].Change? && IsObjectEvent(all[j].event) && Versioned(all[j].event) &&
               VersionOf(all[j].event) <= version && Relevant(all[j].event)
      ensures AnsweredAfter(all, j, VersionOf(all[j].event))
    {
      assert all[j] == steps[j];
      var v := VersionOf(all[j].event);
      var k: nat :| j < k < |steps| && AnsweredAt(steps, k, v);
      assert all[..k] == steps[..k];
      assert AnsweredAt(all, k, v);
    }
  }

  /** A replay that leaves the task at a cursor has not owed a reconcile. */
  predicate Replays(steps: seq<Step>, next: Step, version: Version) {
    && next.Act? && next.action.Receive? && Versioned(next.action.event) && At(steps) == Some(Streaming(BEGINNING))
    && Next(Streaming(BEGINNING), next.action) == Some(Streaming(version))
  }

  lemma AnsweredNow(steps: seq<Step>, next: Step, version: Version)
    requires next == Act(Send) || Replays(steps, next, version)
    ensures Answered(steps + [next], version)
  {
    var all := steps + [next];
    assert all[..|steps|] == steps;
    forall j | 0 <= j < |all| && all[j].Change? && IsObjectEvent(all[j].event) && Versioned(all[j].event) &&
               VersionOf(all[j].event) <= version
      ensures AnsweredAfter(all, j, VersionOf(all[j].event))
    {
      assert AnsweredAt(all, |steps|, VersionOf(all[j].event));
    }
  }

  lemma {:induction false} CursorAnswered(steps: seq<Step>)
    requires History(steps)
    ensures At(steps).Some?
    ensures var c := Cursor(At(steps).value); c.Some? ==> Answered(steps, c.value)
  {
    VersionsGivenOut(steps);
    if steps != [] {
      var last := |steps| - 1;
      var before, next := steps[..last], steps[last];
      assert steps == before + [next];
      VersionsGivenOut(before);
      CursorAnswered(before);
      LastStep(before, next);
      var c := Cursor(At(steps).value);
      if c.Some? {
        if next == Act(Send) || Replays(before, next, c.value) {
          AnsweredNow(before, next, c.value);
        } else {
          if next.Act? {
            PassingIrrelevant(before, next.action, c.value);
          }
          AnsweredLater(before, next, c.value);
        }
      }
    }
  }

  /** An action other than a send or a replay that leaves the task at a cursor has passed
      nothing that needed one. */
  lemma PassingIrrelevant(steps: seq<Step>, a: Action, version: Version)
    requires History(steps) && Allowed(steps, Act(a)) && !a.Send?
    requires var p := At(steps).value;
             && Cursor(Next(p, a).value) == Some(version)
             && (Cursor(p).Some? ==> Answered(steps, Cursor(p).value))
             && (p == Streaming(BEGINNING) && a.Receive? ==> !Versioned(a.event))
    ensures Answered(steps, version)
  {
    var p := At(steps).value;
    VersionsGivenOut(steps);
    if a.Receive? && IsObjectEvent(a.event) {
      OneVersionOneChange(steps);
    }
  }

  /** Two changes never share a version. */
  lemma {:induction false} OneVersionOneChange(steps: seq<Step>)
    requires History(steps)
    ensures forall i, j | 0 <= i < j < |steps| && steps[i].Change? && steps[j].Change? ::
              && Versioned(steps[i].event) && Versioned(steps[j].event)
              && VersionOf(steps[i].event) < VersionOf(steps[j].event)
  {
    if steps != [] {
      OneVersionOneChange(steps[..|steps| - 1]);
      VersionsGivenOut(steps[..|steps| - 1]);
    }
  }

  predicate AtBeginning(p: Option<Position>) {
    p.Some? && !p.value.Starting? && !p.value.Failing? && p.value.version == BEGINNING
  }

  /** The task's version expired at `m`, and it has stayed at the beginning since. */
  predicate ExpiredAt(steps: seq<Step>, m: nat) {
    m < |steps| && Expires(steps[m]) && forall i | m < i <= |steps| :: AtBeginning(At(steps[..i]))
  }

  /** A task is at the beginning only since its version has expired. */
  lemma {:induction false} BeginningIsExpired(steps: seq<Step>) returns (m: nat)
    requires History(steps) && AtBeginning(At(steps))
    ensures ExpiredAt(steps, m)
  {
    assert steps[..|steps|] == steps;
    if steps == [] {
      assert false;
    } else {
      var last := |steps| - 1;
      var before, next := steps[..last], steps[last];
      assert steps == before + [next];
      VersionsGivenOut(before);
      LastStep(before, next);
      if Expires(next) {
        m := last;
      } else {
        if next.Act? && next.action.Receive? {
          NotBackToTheBeginning(before, next.action);
        }
        m := BeginningIsExpired(before);
        forall i | m < i <= |steps| ensures AtBeginning(At(steps[..i])) {
          assert i <= last ==> steps[..i] == before[..i];
        }
      }
    }
  }

  /** Only an expiry takes a task from a later version back to the beginning. */
  lemma NotBackToTheBeginning(steps: seq<Step>, a: Action)
    requires History(steps) && Allowed(steps, Act(a)) && a.Receive?
    ensures var p := At(steps).value;
            p.Streaming? && p.version != BEGINNING && a.event != Error(EXPIRED) ==>
              Next(p, a).value.Failing? || Next(p, a).value.version != BEGINNING
  {
  }

  lemma {:induction false} HistoryOfPrefix(steps: seq<Step>, n: nat)
    requires History(steps) && n <= |steps|
    ensures History(steps[..n])
    decreases |steps|
  {
    if n < |steps| {
      HistoryOfPrefix(steps[..|steps| - 1], n);
      assert steps[..|steps| - 1][..n] == steps[..n];
    } else {
      assert steps[..n] == steps;
    }
  }

  /** Over every history of changes, connects, stream ends, errors of any code and restarts,
      each deletion, external change or unattributable change at or before the task's cursor is
      followed by a reconcile sent after it happened, or else, after it happened, the task stood
      at the beginning because its version had expired, and a replay from there that needed no
      reconcile took the cursor past the change. */
  lemma NoLostUpdate(steps: seq<Step>, j: nat, e: Event)
    requires History(steps) && Changed(steps, j, e) && IsObjectEvent(e) && Versioned(e) && Relevant(e)
    requires var p := At(steps); p.Some? && Cursor(p.value).Some? && VersionOf(e) <= Cursor(p.value).value
    ensures || (exists k :: j < k < |steps| && steps[k] == Act(Send))
            || (exists m, k: nat :: j < k < |steps| && PassedAt(steps, k, VersionOf(e)) && ExpiredAt(steps[..k], m))
  {
    CursorAnswered(steps);
    assert AnsweredAfter(steps, j, VersionOf(e));
    var k: nat :| j < k < |steps| && AnsweredAt(steps, k, VersionOf(e));
    if steps[k] != Act(Send) {
      HistoryOfPrefix(steps, k);
      var m := BeginningIsExpired(steps[..k]);
      assert PassedAt(steps, k, VersionOf(e)) && ExpiredAt(steps[..k], m);
    }
  }

  // What a replay may lose

  /** A history that goes on. */
  lemma GoesOn(steps: seq<Step>, next: Step, p: Position)
    requires History(steps) && At(steps).Some? && Allowed(steps, next)
    requires p == if next.Act? then Next(At(steps).value, next.action).value else At(steps).value
    ensures History(steps + [next]) && At(steps + [next]) == Some(p)
    ensures Newest(steps + [next]) == if next.OtherVersion? then next.version
                                      else if next.Change? then VersionOf(next.event) else Newest(steps)
  {
    LastStep(steps, next);
    assert (steps + [next])[..|steps|] == steps;
  }

  lemma FetchedTask() returns (steps: seq<Step>)
    ensures History(steps) && At(steps) == Some(Connecting(1)) && Newest(steps) == 1
  {
    GoesOn([], OtherVersion(1), Starting);
    steps := [] + [OtherVersion(1)];
    GoesOn(steps, Act(Fetch(1)), Known(1));
    steps := steps + [Act(Fetch(1))];
    GoesOn(steps, Act(Send), Connecting(1));
    steps := steps + [Act(Send)];
  }

  /** A task that has been sent back to the beginning. */
  lemma ExpiredTask() returns (steps: seq<Step>)
    ensures History(steps) && At(steps) == Some(Connecting(BEGINNING)) && Newest(steps) == 1
  {
    steps := FetchedTask();
    GoesOn(steps, Act(Connect(1, true)), Streaming(1));
    steps := steps + [Act(Connect(1, true))];
    GoesOn(steps, Act(Receive(Error(EXPIRED))), Streaming(BEGINNING));
    steps := steps + [Act(Receive(Error(EXPIRED)))];
    GoesOn(steps, Act(EndOfStream), Connecting(BEGINNING));
    steps := steps + [Act(EndOfStream)];
  }

  /** The exception in `NoLostUpdate` is needed: whatever the relevant change `e`, a later write
      of Sinker's own, replayed in its place, takes the cursor past it without a reconcile. */
  lemma ReplayMayLoseAChange(e: Event, own: Event) returns (steps: seq<Step>, j: nat)
    requires IsObjectEvent(e) && Versioned(e) && Relevant(e) && VersionOf(e) > 1
    requires IsObjectEvent(own) && Versioned(own) && !Relevant(own) && VersionOf(own) > VersionOf(e)
    ensures History(steps) && Changed(steps, j, e)
    ensures At(steps) == Some(Streaming(VersionOf(own))) && VersionOf(e) <= Cursor(At(steps).value).value
    ensures forall k | j < k < |steps| :: steps[k] != Act(Send)
  {
    steps := ExpiredTask();
    j := |steps|;
    GoesOn(steps, Change(e), Connecting(BEGINNING));
    steps := steps + [Change(e)];
    GoesOn(steps, Change(own), Connecting(BEGINNING));
    steps := steps + [Change(own)];
    GoesOn(steps, Act(Connect(BEGINNING, true)), Streaming(BEGINNING));
    steps := steps + [Act(Connect(BEGINNING, true))];
    GoesOn(steps, Act(Receive(own)), Streaming(VersionOf(own)));
    steps := steps + [Act(Receive(own))];
  }
}
