/** The registry of watch tasks: at most one running task for each key. */
module WatcherRegistry {
  import opened Wrappers

  datatype GVKN = GVKN(apiVersion: string, kind: string, name: string)
  datatype SecretRef = SecretRef(name: string, namespace: Option<string>, key: string)
  datatype ClusterRef = ClusterRef(namespace: Option<string>, secretRef: SecretRef)
  datatype ClusterResourceRef = ClusterResourceRef(resourceRef: GVKN, cluster: Option<ClusterRef>)
  datatype ObjectRef = ObjectRef(name: string, namespace: Option<string>)

  datatype Key = Key(object: ClusterResourceRef, resourceSync: ObjectRef)

  type TaskId = nat

  /** `tasks` holds every spawned task that has not been joined, with the key it watches;
      `aborted` those that ended without being asked to. */
  datatype Registry = Registry(
    watchers: map<Key, TaskId>,
    tasks: map<TaskId, Key>,
    aborted: set<TaskId>,
    nextId: TaskId)

  const EMPTY: Registry := Registry(map[], map[], {}, 0)

  /** Entries and tasks that have not been joined correspond one to one. */
  ghost predicate OneToOne(r: Registry) {
    && (forall k | k in r.watchers :: r.watchers[k] in r.tasks && r.tasks[r.watchers[k]] == k)
    && (forall t | t in r.tasks :: r.tasks[t] in r.watchers && r.watchers[r.tasks[t]] == t)
    && (forall t | t in r.tasks :: t < r.nextId)
    && r.aborted <= r.tasks.Keys
  }

  datatype Op = Add(key: Key) | Stop(key: Key) | StopAll | Abort(task: TaskId)

  function Apply(r: Registry, op: Op): Registry {
    match op
    case Add(k) =>
      if k in r.watchers then r
      else r.(watchers := r.watchers[k := r.nextId], tasks := r.tasks[r.nextId := k], nextId := r.nextId + 1)
    case Stop(k) =>
      if k !in r.watchers then r
      else
        r.(watchers := r.watchers - {k}, tasks := r.tasks - {r.watchers[k]}, aborted := r.aborted - {r.watchers[k]})
    case StopAll => r.(watchers := map[], tasks := r.tasks - r.watchers.Values, aborted := r.aborted - r.watchers.Values)
    case Abort(t) => if t in r.tasks then r.(aborted := r.aborted + {t}) else r
  }

  function ApplyOps(r: Registry, ops: seq<Op>): Registry
    decreases ops
  {
    if ops == [] then r else ApplyOps(Apply(r, ops[0]), ops[1..])
  }

  /** The keys an operation may change. */
  predicate Touches(op: Op, k: Key) {
    op.StopAll? || ((op.Add? || op.Stop?) && op.key == k)
  }

  lemma ApplyKeepsOneToOne(r: Registry, op: Op)
    requires OneToOne(r)
    ensures OneToOne(Apply(r, op))
    ensures forall k | !Touches(op, k) ::
              (k in r.watchers <==> k in Apply(r, op).watchers) &&
              (k in r.watchers ==> Apply(r, op).watchers[k] == r.watchers[k])
    ensures op.Add? ==> op.key in Apply(r, op).watchers && (op.key in r.watchers ==> Apply(r, op) == r)
    ensures op.Stop? ==> op.key !in Apply(r, op).watchers
    ensures op.Abort? && op.task in r.tasks ==> op.task in Apply(r, op).aborted
    ensures op.StopAll? ==> Apply(r, op).watchers == map[] && Apply(r, op).tasks == map[]
  {
    if op.StopAll? {
      forall t | t in r.tasks ensures t in r.watchers.Values {
        assert r.watchers[r.tasks[t]] == t;
      }
    }
  }

  predicate Stops(op: Op, k: Key) {
    op.StopAll? || (op.Stop? && op.key == k)
  }

  /** Over every sequence of operations, with tasks ending on their own at any time, entries
      and unjoined tasks stay in one-to-one correspondence; a key keeps its task until it is
      stopped, however often it is added again, and a key never has two tasks. */
  lemma {:induction false} RegistryStaysOneToOne(r: Registry, ops: seq<Op>)
    requires OneToOne(r)
    ensures OneToOne(ApplyOps(r, ops))
    ensures forall k | k in r.watchers && (forall i | 0 <= i < |ops| :: !Stops(ops[i], k)) ::
              k in ApplyOps(r, ops).watchers && ApplyOps(r, ops).watchers[k] == r.watchers[k]
    ensures forall t, u | t in ApplyOps(r, ops).tasks && u in ApplyOps(r, ops).tasks ::
              ApplyOps(r, ops).tasks[t] == ApplyOps(r, ops).tasks[u] ==> t == u
    decreases ops
  {
    if ops != [] {
      var next := Apply(r, ops[0]);
      ApplyKeepsOneToOne(r, ops[0]);
      RegistryStaysOneToOne(next, ops[1..]);
      forall k | k in r.watchers && forall i | 0 <= i < |ops| :: !Stops(ops[i], k)
        ensures k in ApplyOps(r, ops).watchers && ApplyOps(r, ops).watchers[k] == r.watchers[k]
      {
        assert !Stops(ops[0], k);
        forall i | 0 <= i < |ops| - 1 ensures !Stops(ops[1..][i], k) {
          assert ops[1..][i] == ops[i + 1];
        }
      }
    }
  }

  class RemoteWatcherManager {
    var watchers: map<Key, TaskId>
    var tasks: map<TaskId, Key>
    var aborted: set<TaskId>
    var nextId: TaskId

    ghost predicate Valid()
      reads this
    {
      OneToOne(View())
    }

    ghost function View(): Registry
      reads this
    {
      Registry(watchers, tasks, aborted, nextId)
    }

    constructor ()
      ensures Valid() && View() == EMPTY
    {
      watchers, tasks, aborted, nextId := map[], map[], {}, 0;
    }

    method AddIfNotExists(key: Key)
      requires Valid()
      modifies this
      ensures Valid() && View() == Apply(old(View()), Add(key))
    {
      ApplyKeepsOneToOne(View(), Add(key));
      if key in watchers {
        return;
      }
      var task := nextId;
      tasks, nextId := tasks[task := key], nextId + 1;
      watchers := watchers[key := task];
    }

    /** Cancels and waits for the task, whether or not it is still alive. */
    method StopAndRemoveIfExists(key: Key) returns (joinedCleanly: bool)
      requires Valid()
      modifies this
      ensures Valid() && View() == Apply(old(View()), Stop(key))
      ensures joinedCleanly <==> key !in old(watchers) || old(watchers[key]) !in old(aborted)
    {
      ApplyKeepsOneToOne(View(), Stop(key));
      if key !in watchers {
        return true;
      }
      var task := watchers[key];
      watchers := watchers - {key};
      joinedCleanly := task !in aborted;
      tasks, aborted := tasks - {task}, aborted - {task};
    }

    /** Stops the keys of a snapshot one after the other, in the map's own order, going on past
        tasks that did not end cleanly. */
    method StopAll()
      requires Valid()
      modifies this
      ensures Valid() && View() == Apply(old(View()), Op.StopAll)
      ensures watchers == map[] && tasks == map[]
    {
      ApplyKeepsOneToOne(View(), Op.StopAll);
      var keys := watchers.Keys;
      while keys != {}
        invariant Valid() && nextId == old(nextId)
        invariant watchers.Keys == keys
        decreases keys
      {
        var key :| key in keys;
        var _ := StopAndRemoveIfExists(key);
        keys := keys - {key};
      }
      assert forall t :: t !in tasks;
    }
  }
}
