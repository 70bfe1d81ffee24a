/** One watch task: fetch the object, then follow its events, sending a reconcile for every
    change that Sinker did not make.

    What the API server answers is passed in as a script. A script that runs out is a task that
    is still waiting, so a run over every script is every finite piece of the endless loop. */
module RemoteWatcher {
  import opened Wrappers
  import opened Filters

  /** Resource versions are compared by the server alone; 0 is the literal "0". */
  type Version = nat

  const BEGINNING: Version := 0
  const EXPIRED: int := 410

  datatype Object = Object(resourceVersion: Option<Version>, managedFields: Option<seq<ManagedFieldsEntry>>)

  datatype Event =
    | Added(obj: Object)
    | Modified(obj: Object)
    | Deleted(obj: Object)
    | Bookmark(version: Version)
    | Error(code: int)

  datatype Connection = Refused | Stream(events: seq<Event>, broken: bool)

  /** `Unavailable` is any failure before a version is known: no namespace, no API, a failed
      GET, or an object without a version. */
  datatype Startup = Unavailable | Fetched(version: Version, connections: seq<Connection>)

  // Handling one event

  predicate IsObjectEvent(e: Event) {
    e.Added? || e.Modified? || e.Deleted?
  }

  /** A change to reconcile for: a deletion, or a change not known to be Sinker's own. */
  predicate Relevant(e: Event)
    requires IsObjectEvent(e)
  {
    e.Deleted? || WasLastModifiedBy(e.obj.managedFields, GROUP) != Some(true)
  }

  /** Exactly when a change calls for a reconcile, by its managed fields. */
  lemma RelevantExactlyWhen(e: Event)
    requires IsObjectEvent(e)
    ensures Relevant(e) <==>
            || e.Deleted? || e.obj.managedFields.None?
            || var fields := e.obj.managedFields.value;
               || fields == [] || !AllTimed(fields)
               || exists i: nat :: IsLastNewest(fields, i) && fields[i].manager != Some("sinker.influxdata.io")
  {
    if e.obj.managedFields.Some? {
      AttributionIsExact(e.obj.managedFields.value, GROUP);
    }
  }

  /** The version to go on from and whether a reconcile is sent first, or `None` where an
      object event carries no version. */
  function Handle(version: Version, e: Event): Option<(Version, bool)> {
    if IsObjectEvent(e) then
      if e.obj.resourceVersion.None? then None
      else Some((e.obj.resourceVersion.value, Relevant(e)))
    else if e.Bookmark? then Some((e.version, false))
    else if e.code == EXPIRED then Some((BEGINNING, false))
    else Some((version, true))
  }

  /** A stream of events: the version reached, `None` where the stream had to be given up,
      and the number of reconciles sent. */
  function Hear(version: Version, events: seq<Event>): (Option<Version>, nat)
    decreases events
  {
    if events == [] then (Some(version), 0)
    else
      match Handle(version, events[0])
      case None => (None, 0)
      case Some((next, reconcile)) =>
        var (reached, sends) := Hear(next, events[1..]);
        (reached, sends + if reconcile then 1 else 0)
  }

  function Listened(version: Version, c: Connection): (Option<Version>, nat) {
    match c
    case Refused => (None, 0)
    case Stream(events, broken) =>
      var (reached, sends) := Hear(version, events);
      (if broken then None else reached, sends)
  }

  function Watched(version: Version, connections: seq<Connection>): (Option<Version>, nat)
    decreases connections
  {
    if connections == [] then (Some(version), 0)
    else
      var (reached, sends) := Listened(version, connections[0]);
      if reached.None? then (None, sends)
      else
        var (end, more) := Watched(reached.value, connections[1..]);
        (end, sends + more)
  }

  function Started(s: Startup): (Option<Version>, nat) {
    match s
    case Unavailable => (None, 0)
    case Fetched(version, connections) =>
      var (reached, sends) := Watched(version, connections);
      (reached, 1 + sends)
  }

  /** Every start that fails is answered by one more reconcile and another start. */
  function Ran(startups: seq<Startup>): (Option<Version>, nat)
    decreases startups
  {
    if startups == [] then (None, 0)
    else
      var (reached, sends) := Started(startups[0]);
      if reached.Some? then (reached, sends)
      else
        var (end, more) := Ran(startups[1..]);
        (end, sends + 1 + more)
  }

  // The order of a task's actions

  datatype Action =
    | StartFailed
    | Fetch(version: Version)
    | Send
    | Connect(version: Version, accepted: bool)
    | Receive(event: Event)
    | EndOfStream
    | BrokenStream

  /** Where a task stands. `Owing` has a reconcile to send before it goes on at `version`;
      `Failing` has one to send before it starts over. */
  datatype Position =
    | Starting
    | Known(version: Version)
    | Connecting(version: Version)
    | Streaming(version: Version)
    | Owing(version: Version)
    | Failing

  function Next(p: Position, a: Action): Option<Position> {
    match (p, a)
    case (Starting, StartFailed) => Some(Failing)
    case (Starting, Fetch(v)) => Some(Known(v))
    case (Known(v), Send) => Some(Connecting(v))
    case (Connecting(v), Connect(w, accepted)) =>
      if v != w then None else if accepted then Some(Streaming(v)) else Some(Failing)
    case (Streaming(v), Receive(e)) =>
      var handled := Handle(v, e);
      if handled.None? then Some(Failing)
      else if handled.value.1 then Some(Owing(handled.value.0))
      else Some(Streaming(handled.value.0))
    case (Streaming(v), EndOfStream) => Some(Connecting(v))
    case (Streaming(v), BrokenStream) => Some(Failing)
    case (Owing(v), Send) => Some(Streaming(v))
    case (Failing, Send) => Some(Starting)
    case _ => None
  }

  /** A failure, the version to start from, or an event that calls for a reconcile. */
  predicate CallsForSend(a: Action) {
    match a
    case StartFailed => true
    case Fetch(_) => true
    case Connect(_, accepted) => !accepted
    case Receive(e) =>
      if IsObjectEvent(e) then e.obj.resourceVersion.None? || Relevant(e)
      else e.Error? && e.code != 410
    case BrokenStream => true
    case Send => false
    case EndOfStream => false
  }

  /** What calls for a reconcile is answered at once: sending it is the next thing the task does.
      After anything else the task does something else. */
  lemma AnsweredExactlyWhenCalledFor(p: Position, a: Action, b: Action)
    requires Next(p, a).Some? && Next(Next(p, a).value, b).Some?
    ensures b.Send? <==> CallsForSend(a)
  {
  }

  /** An object event without a version. */
  predicate GivesUp(e: Event) {
    IsObjectEvent(e) && e.obj.resourceVersion.None?
  }

  /** The events that call for a reconcile, up to the first at which the stream is given up. */
  function CountCalls(events: seq<Event>): nat {
    if events == [] || GivesUp(events[0]) then 0
    else (if CallsForSend(Receive(events[0])) then 1 else 0) + CountCalls(events[1..])
  }

  /** A stream is heard to its end exactly when every change in it has a version, and sends one
      reconcile for each event that calls for one. */
  lemma {:induction false} HearingCalls(version: Version, events: seq<Event>)
    ensures Hear(version, events).0.Some? <==> forall i | 0 <= i < |events| :: !GivesUp(events[i])
    ensures Hear(version, events).1 == CountCalls(events)
    decreases events
  {
    if events != [] && !GivesUp(events[0]) {
      HearingCalls(Handle(version, events[0]).value.0, events[1..]);
      assert forall i | 0 < i < |events| :: events[i] == events[1..][i - 1];
    }
  }

  /** Where a stream that has been heard goes on: at the version of its last event, at the
      beginning after an expiry, and where it was after any other error. */
  lemma LastEventDecides(version: Version, before: seq<Event>, last: Event)
    requires Hear(version, before).0.Some?
    ensures Hear(version, before + [last]).0 ==
            match last
            case Bookmark(v) => Some(v)
            case Error(code) => if code == 410 then Some(0) else Hear(version, before).0
            case _ => last.obj.resourceVersion
  {
    HearSplits(version, before, [last]);
    assert [last][1..] == [];
  }

  /** The position after a sequence of actions, `None` where the sequence is out of order. */
  function Follow(actions: seq<Action>): Option<Position> {
    if actions == [] then Some(Starting)
    else
      var last := |actions| - 1;
      var p := Follow(actions[..last]);
      if p.None? then None else Next(p.value, actions[last])
  }

  /** The number of reconciles sent. */
  function Sends(actions: seq<Action>): nat {
    if actions == [] then 0
    else
      var last := |actions| - 1;
      Sends(actions[..last]) + if actions[last].Send? then 1 else 0
  }

  class RemoteWatcher {
    /** Reconciles pushed to the queue. */
    var sent: nat
    ghost var actions: seq<Action>

    ghost predicate Valid()
      reads this
    {
      Follow(actions).Some? && sent == Sends(actions)
    }

    ghost function At(): Position
      reads this
      requires Valid()
    {
      Follow(actions).value
    }

    constructor ()
      ensures Valid() && actions == [] && sent == 0
    {
      sent, actions := 0, [];
    }

    ghost method Do(a: Action)
      requires Valid() && Next(At(), a).Some? && !a.Send?
      modifies this`actions
      ensures Valid() && sent == old(sent) && actions == old(actions) + [a] && At() == Next(old(At()), a).value
    {
      actions := actions + [a];
      assert actions[..|actions| - 1] == old(actions);
    }

    method SendReconcile()
      requires Valid() && Next(At(), Send).Some?
      modifies this
      ensures Valid() && actions == old(actions) + [Send]
      ensures At() == Next(old(At()), Send).value && sent == old(sent) + 1
    {
      sent, actions := sent + 1, actions + [Send];
      assert actions[..|actions| - 1] == old(actions);
    }

    /** One event of a stream: the version to go on from, unless the event has none. */
    method ReceiveEvent(rv: Version, e: Event) returns (next: Option<Version>)
      requires Valid() && At() == Streaming(rv)
      modifies this
      ensures Valid() && old(actions) <= actions
      ensures match Handle(rv, e)
              case None => next == None && sent == old(sent) && At() == Failing
              case Some((version, reconcile)) =>
                next == Some(version) && sent == old(sent) + (if reconcile then 1 else 0) && At() == Streaming(version)
      ensures IsObjectEvent(e) ==> next == e.obj.resourceVersion
      ensures e.Bookmark? ==> next == Some(e.version) && sent == old(sent)
      ensures e.Error? ==> if e.code == 410 then next == Some(0) && sent == old(sent)
                           else next == Some(rv) && sent == old(sent) + 1
      ensures IsObjectEvent(e) ==> sent == old(sent) + (if next.Some? && Relevant(e) then 1 else 0)
    {
      Do(Receive(e));
      if e.Deleted? {
        if e.obj.resourceVersion.None? {
          return None;
        }
        SendReconcile();
        return Some(e.obj.resourceVersion.value);
      } else if e.Added? || e.Modified? {
        if e.obj.resourceVersion.None? {
          return None;
        }
        var ours := WasLastModifiedBy(e.obj.managedFields, GROUP);
        if ours.None? || !ours.value {
          SendReconcile();
        }
        return Some(e.obj.resourceVersion.value);
      } else if e.Bookmark? {
        return Some(e.version);
      } else if e.code == EXPIRED {
        return Some(BEGINNING);
      }
      SendReconcile();
      return Some(rv);
    }

    method Listen(version: Version, c: Connection) returns (reached: Option<Version>)
      requires Valid() && At() == Connecting(version)
      modifies this
      ensures Valid() && old(actions) <= actions
      ensures (reached, sent) == (Listened(version, c).0, old(sent) + Listened(version, c).1)
      ensures At() == if reached.Some? then Connecting(reached.value) else Failing
      ensures reached.Some? <==> c.Stream? && !c.broken && forall i | 0 <= i < |c.events| :: !GivesUp(c.events[i])
      ensures sent == old(sent) + if c.Stream? then CountCalls(c.events) else 0
    {
      if c.Stream? {
        HearingCalls(version, c.events);
      }
      Do(Connect(version, c.Stream?));
      if c.Refused? {
        return None;
      }
      var rv, i := version, 0;
      while i < |c.events|
        invariant 0 <= i <= |c.events|
        invariant Valid() && At() == Streaming(rv) && old(actions) <= actions
        invariant var (all, rest) := (Hear(version, c.events), Hear(rv, c.events[i..]));
                  all.0 == rest.0 && old(sent) + all.1 == sent + rest.1
      {
        var e := c.events[i];
        assert c.events[i..][1..] == c.events[i + 1..];
        var next := ReceiveEvent(rv, e);
        if next.None? {
          return None;
        }
        rv := next.value;
        i := i + 1;
      }
      if c.broken {
        Do(BrokenStream);
        return None;
      }
      Do(EndOfStream);
      return Some(rv);
    }

    /** Reconnects from the version reached until a connection fails. */
    method Watch(version: Version, connections: seq<Connection>) returns (reached: Option<Version>)
      requires Valid() && At() == Connecting(version)
      modifies this
      ensures Valid() && old(actions) <= actions
      ensures (reached, sent) == (Watched(version, connections).0, old(sent) + Watched(version, connections).1)
      ensures At() == if reached.Some? then Connecting(reached.value) else Failing
    {
      var rv, i := version, 0;
      while i < |connections|
        invariant 0 <= i <= |connections|
        invariant Valid() && At() == Connecting(rv) && old(actions) <= actions
        invariant var (all, rest) := (Watched(version, connections), Watched(rv, connections[i..]));
                  all.0 == rest.0 && old(sent) + all.1 == sent + rest.1
      {
        assert connections[i..][1..] == connections[i + 1..];
        var next := Listen(rv, connections[i]);
        if next.None? {
          return None;
        }
        rv := next.value;
        i := i + 1;
      }
      return Some(rv);
    }

    /** Fetches first, then sends, then watches from the fetched version. */
    method Start(s: Startup) returns (reached: Option<Version>)
      requires Valid() && At() == Starting
      modifies this
      ensures Valid() && old(actions) + (if s.Fetched? then [Fetch(s.version), Send] else [StartFailed]) <= actions
      ensures (reached, sent) == (Started(s).0, old(sent) + Started(s).1)
      ensures At() == if reached.Some? then Connecting(reached.value) else Failing
    {
      if s.Unavailable? {
        Do(StartFailed);
        return None;
      }
      Do(Fetch(s.version));
      SendReconcile();
      reached := Watch(s.version, s.connections);
    }

    /** Starts over after every failure, having sent a reconcile for it. */
    method Run(startups: seq<Startup>)
      requires Valid() && At() == Starting
      modifies this
      ensures Valid() && old(actions) <= actions
      ensures sent == old(sent) + Ran(startups).1
      ensures At() == if Ran(startups).0.Some? then Connecting(Ran(startups).0.value) else Starting
    {
      var i := 0;
      ghost var goal := Ran(startups);
      assert startups[0..] == startups;
      while i < |startups|
        invariant 0 <= i <= |startups|
        invariant Valid() && At() == Starting && old(actions) <= actions
        invariant goal.0 == Ran(startups[i..]).0
        invariant old(sent) + goal.1 == sent + Ran(startups[i..]).1
      {
        assert startups[i..][1..] == startups[i + 1..];
        var reached := Start(startups[i]);
        if reached.Some? {
          return;
        }
        SendReconcile();
        i := i + 1;
      }
    }
  }

  // Where streams are cut does not matter

  /** An event that advances the version and does not fail the stream. */
  predicate Versioned(e: Event) {
    e.Bookmark? || (IsObjectEvent(e) && e.obj.resourceVersion.Some?)
  }

  function VersionOf(e: Event): Version
    requires Versioned(e)
  {
    if e.Bookmark? then e.version else e.obj.resourceVersion.value
  }

  /** The changes of an object in order, each with a version newer than the one before. */
  predicate IsLog(log: seq<Event>) {
    && (forall i | 0 <= i < |log| :: IsObjectEvent(log[i]) && Versioned(log[i]))
    && forall i, j | 0 <= i < j < |log| :: VersionOf(log[i]) < VersionOf(log[j])
  }

  /** The changes after `version`, which a watch from there has yet to deliver. */
  function Since(log: seq<Event>, version: Version): (rest: seq<Event>)
    requires IsLog(log)
    ensures IsLog(rest)
    ensures rest != [] ==> VersionOf(rest[0]) > version
  {
    if log == [] || VersionOf(log[0]) > version then log else Since(log[1..], version)
  }

  /** What may come next on a stream that has reached `version`: the next change, or a bookmark
      that does not go back and has no change left before it. It may repeat the version. */
  predicate Offers(log: seq<Event>, version: Version, e: Event)
    requires IsLog(log)
  {
    var rest := Since(log, version);
    if e.Bookmark? then version <= e.version && (rest != [] ==> e.version < VersionOf(rest[0]))
    else rest != [] && e == rest[0]
  }

  /** What a version leaves to be delivered is fixed by the changes on either side of it. */
  lemma {:induction false} SinceLater(log: seq<Event>, version: Version, later: Version)
    requires IsLog(log) && version <= later
    requires Since(log, version) != [] ==> later <= VersionOf(Since(log, version)[0])
    ensures Since(log, later) == if Since(log, version) != [] && later == VersionOf(Since(log, version)[0])
                                 then Since(log, version)[1..] else Since(log, version)
  {
    if log != [] && VersionOf(log[0]) <= version {
      SinceLater(log[1..], version, later);
    } else if |log| > 1 {
      assert VersionOf(log[0]) < VersionOf(log[1]);
    }
  }

  /** An event that is offered is versioned; a change is taken off what is left to be
      delivered, and a bookmark leaves that as it is. */
  lemma AfterOffered(log: seq<Event>, version: Version, e: Event)
    requires IsLog(log) && Offers(log, version, e)
    ensures Versioned(e) && VersionOf(e) >= version
    ensures Since(log, version) == ChangeOf(e) + Since(log, VersionOf(e))
  {
    SinceLater(log, version, VersionOf(e));
  }

  /** A stream opened at `version` that delivers changes of the log in order, none left out,
      with bookmarks anywhere between them. */
  predicate Delivers(log: seq<Event>, version: Version, events: seq<Event>)
    requires IsLog(log)
    decreases events
  {
    events == [] ||
    (Offers(log, version, events[0]) && Versioned(events[0]) && Delivers(log, VersionOf(events[0]), events[1..]))
  }

  /** Every connection serves the version it is asked for and ends normally. */
  ghost predicate Serves(log: seq<Event>, version: Version, connections: seq<Connection>)
    requires IsLog(log)
    decreases connections
  {
    connections == [] ||
    var c := connections[0];
    && c.Stream? && !c.broken && Delivers(log, version, c.events)
    && var reached := Listened(version, c).0;
       reached.Some? && Serves(log, reached.value, connections[1..])
  }

  function Delivered(connections: seq<Connection>): seq<Event> {
    if connections == [] then []
    else (if connections[0].Stream? then connections[0].events else []) + Delivered(connections[1..])
  }

  /** The changes among the events of a stream. */
  function Changes(events: seq<Event>): seq<Event> {
    if events == [] then [] else ChangeOf(events[0]) + Changes(events[1..])
  }

  function ChangeOf(e: Event): seq<Event> {
    if IsObjectEvent(e) then [e] else []
  }

  function CountRelevant(changes: seq<Event>): nat {
    if changes == [] then 0
    else (if IsObjectEvent(changes[0]) && Relevant(changes[0]) then 1 else 0) + CountRelevant(changes[1..])
  }

  lemma {:induction false} HearSplits(version: Version, a: seq<Event>, b: seq<Event>)
    requires Hear(version, a).0.Some?
    ensures Hear(version, a + b) == (Hear(Hear(version, a).0.value, b).0,
                                     Hear(version, a).1 + Hear(Hear(version, a).0.value, b).1)
    decreases a
  {
    if a == [] {
      assert a + b == b;
    } else {
      assert (a + b)[1..] == a[1..] + b;
      HearSplits(Handle(version, a[0]).value.0, a[1..], b);
    }
  }

  /** The first event of a stream and the rest of it. */
  lemma HearOne(version: Version, events: seq<Event>)
    requires events != [] && Versioned(events[0])
    ensures var (reached, sends) := Hear(VersionOf(events[0]), events[1..]);
            Hear(version, events) == (reached, sends + CountRelevant(ChangeOf(events[0])))
  {
    assert ChangeOf(events[0]) != [] ==> ChangeOf(events[0])[1..] == [];
  }

  lemma CountOne(e: Event, changes: seq<Event>)
    ensures CountRelevant(ChangeOf(e) + changes) == CountRelevant(ChangeOf(e)) + CountRelevant(changes)
  {
    if IsObjectEvent(e) {
      assert ([e] + changes)[1..] == changes && [e][1..] == [];
    } else {
      assert [] + changes == changes;
    }
  }

  lemma {:induction false} HearCounts(version: Version, events: seq<Event>)
    requires forall i | 0 <= i < |events| :: Versioned(events[i])
    ensures Hear(version, events).0.Some?
    ensures Hear(version, events).1 == CountRelevant(Changes(events))
    decreases events
  {
    if events != [] {
      HearOne(version, events);
      CountOne(events[0], Changes(events[1..]));
      HearCounts(VersionOf(events[0]), events[1..]);
    }
  }

  lemma {:induction false} DeliveredIsVersioned(log: seq<Event>, version: Version, events: seq<Event>)
    requires IsLog(log) && Delivers(log, version, events)
    ensures forall i | 0 <= i < |events| :: Versioned(events[i])
    decreases events
  {
    if events != [] {
      DeliveredIsVersioned(log, VersionOf(events[0]), events[1..]);
      forall i | 0 <= i < |events| ensures Versioned(events[i]) {
        assert i > 0 ==> events[i] == events[1..][i - 1];
      }
    }
  }

  /** Hearing a stream delivers the changes that follow, once each, sends a reconcile for each
      relevant one, and leaves exactly the changes after them. */
  lemma {:induction false} HearingAdvances(log: seq<Event>, version: Version, events: seq<Event>)
    requires IsLog(log) && Delivers(log, version, events)
    ensures Hear(version, events).0.Some? && Hear(version, events).0.value >= version
    ensures Hear(version, events).1 == CountRelevant(Changes(events))
    ensures Since(log, version) == Changes(events) + Since(log, Hear(version, events).0.value)
    decreases events
  {
    DeliveredIsVersioned(log, version, events);
    HearCounts(version, events);
    if events == [] {
      assert Since(log, version) == [] + Since(log, version);
    } else {
      var e := events[0];
      AfterOffered(log, version, e);
      HearingAdvances(log, VersionOf(e), events[1..]);
      HearOne(version, events);
      Associate(ChangeOf(e), Changes(events[1..]), Since(log, Hear(version, events).0.value));
    }
  }

  lemma Associate<T>(a: seq<T>, b: seq<T>, c: seq<T>)
    ensures a + b + c == a + (b + c)
  {
  }

  lemma {:induction false} DeliversSplits(log: seq<Event>, version: Version, a: seq<Event>, b: seq<Event>)
    requires IsLog(log) && Delivers(log, version, a)
    requires Hear(version, a).0.Some? && Delivers(log, Hear(version, a).0.value, b)
    ensures Delivers(log, version, a + b)
    decreases a
  {
    if a == [] {
      assert a + b == b;
    } else {
      assert (a + b)[1..] == a[1..] + b;
      DeliversSplits(log, VersionOf(a[0]), a[1..], b);
    }
  }

  /** The first of the connections, and where the others go on. */
  lemma FirstConnection(log: seq<Event>, version: Version, connections: seq<Connection>)
    returns (events: seq<Event>, reached: Version)
    requires IsLog(log) && Serves(log, version, connections) && connections != []
    ensures connections[0] == Stream(events, false) && Delivers(log, version, events)
    ensures Hear(version, events).0 == Some(reached)
    ensures Serves(log, reached, connections[1..])
    ensures Watched(version, connections) ==
            (Watched(reached, connections[1..]).0, Hear(version, events).1 + Watched(reached, connections[1..]).1)
    ensures Delivered(connections) == events + Delivered(connections[1..])
  {
    events := connections[0].events;
    reached := Hear(version, events).0.value;
  }

  lemma {:induction false} CutsAreOneStream(log: seq<Event>, version: Version, connections: seq<Connection>)
    requires IsLog(log) && Serves(log, version, connections)
    ensures Delivers(log, version, Delivered(connections))
    ensures Watched(version, connections) == Hear(version, Delivered(connections))
    decreases connections
  {
    if connections != [] {
      var events, reached := FirstConnection(log, version, connections);
      var rest := Delivered(connections[1..]);
      CutsAreOneStream(log, reached, connections[1..]);
      HearSplits(version, events, rest);
      DeliversSplits(log, version, events, rest);
    }
  }

  /** However a log is cut into streams that end normally, with bookmarks anywhere, the watch
      delivers each change of a prefix of what follows once, sends one reconcile for each
      relevant one, and goes on with the changes after them; version and reconciles are those
      of hearing it all in one stream. */
  lemma StreamCutsDoNotMatter(log: seq<Event>, version: Version, connections: seq<Connection>)
    requires IsLog(log) && Serves(log, version, connections)
    ensures Delivers(log, version, Delivered(connections))
    ensures Watched(version, connections) == Hear(version, Delivered(connections))
    ensures Watched(version, connections).0.Some?
    ensures Watched(version, connections).1 == CountRelevant(Changes(Delivered(connections)))
    ensures Since(log, version) ==
            Changes(Delivered(connections)) + Since(log, Watched(version, connections).0.value)
  {
    CutsAreOneStream(log, version, connections);
    HearingAdvances(log, version, Delivered(connections));
  }

  /** Two ways to cut a log that deliver equally many changes deliver the same ones, send the
      same number of reconciles and have the same changes still to come. */
  lemma AnyTwoCutsAgree(log: seq<Event>, version: Version, cs: seq<Connection>, ds: seq<Connection>)
    requires IsLog(log) && Serves(log, version, cs) && Serves(log, version, ds)
    requires |Changes(Delivered(cs))| == |Changes(Delivered(ds))|
    ensures Changes(Delivered(cs)) == Changes(Delivered(ds))
    ensures Watched(version, cs).0.Some? && Watched(version, ds).0.Some?
    ensures Watched(version, cs).1 == Watched(version, ds).1
    ensures Since(log, Watched(version, cs).0.value) == Since(log, Watched(version, ds).0.value)
  {
    StreamCutsDoNotMatter(log, version, cs);
    StreamCutsDoNotMatter(log, version, ds);
    SamePieces(Changes(Delivered(cs)), Since(log, Watched(version, cs).0.value),
               Changes(Delivered(ds)), Since(log, Watched(version, ds).0.value));
  }

  lemma SamePieces<T>(a: seq<T>, x: seq<T>, b: seq<T>, y: seq<T>)
    requires a + x == b + y && |a| == |b|
    ensures a == b && x == y
  {
    assert a == (a + x)[..|a|] && x == (a + x)[|a|..];
    assert b == (b + y)[..|b|] && y == (b + y)[|b|..];
  }
}
