/** The finalizer list of a ResourceSync and the two edits Sinker makes to it. */
module Finalizers {
  import opened Wrappers

  const FINALIZER: string := "sinker.influxdata.io/target"

  predicate HasTargetFinalizer(finalizers: Option<seq<string>>) {
    finalizers.Some? && FINALIZER in finalizers.value
  }

  function FinalizersCloneOrEmpty(finalizers: Option<seq<string>>): seq<string> {
    if finalizers.None? then [] else finalizers.value
  }

  function Without(items: seq<string>, item: string): (kept: seq<string>)
    ensures item !in kept
  {
    if items == [] then []
    else if items[0] == item then Without(items[1..], item)
    else [items[0]] + Without(items[1..], item)
  }

  function Removed(finalizers: Option<seq<string>>): seq<string> {
    Without(FinalizersCloneOrEmpty(finalizers), FINALIZER)
  }

  function Added(finalizers: Option<seq<string>>): seq<string> {
    FinalizersCloneOrEmpty(finalizers) + [FINALIZER]
  }

  /** `retain` over the owned list. */
  method WithItemRemoved(items: seq<string>, item: string) returns (kept: seq<string>)
    ensures kept == Without(items, item)
  {
    kept := [];
    var i := 0;
    while i < |items|
      invariant 0 <= i <= |items|
      invariant kept == Without(items[..i], item)
    {
      WithoutSplits(items[..i], [items[i]], item);
      assert items[..i] + [items[i]] == items[..i + 1];
      assert [items[i]][1..] == [];
      if items[i] != item {
        kept := kept + [items[i]];
      }
      i := i + 1;
    }
    assert items[..i] == items;
  }

  lemma {:induction false} WithoutSplits(a: seq<string>, b: seq<string>, item: string)
    ensures Without(a + b, item) == Without(a, item) + Without(b, item)
  {
    if a == [] {
      assert a + b == b;
    } else {
      assert (a + b)[1..] == a[1..] + b;
      WithoutSplits(a[1..], b, item);
    }
  }

  /** Removal keeps exactly the other entries, with their repetitions and in their order:
      `at[k]` is where the kept entry `k` came from. */
  lemma {:induction false} RemovalKeepsTheOthersInOrder(items: seq<string>, item: string) returns (at: seq<nat>)
    ensures |at| == |Without(items, item)|
    ensures forall k | 0 <= k < |at| :: at[k] < |items| && items[at[k]] == Without(items, item)[k]
    ensures forall k, l | 0 <= k < l < |at| :: at[k] < at[l]
    ensures forall i | 0 <= i < |items| && items[i] != item :: i in at
  {
    if items == [] {
      at := [];
    } else {
      var n := |items| - 1;
      at := RemovalKeepsTheOthersInOrder(items[..n], item);
      WithoutSplits(items[..n], [items[n]], item);
      assert items == items[..n] + [items[n]];
      assert [items[n]][1..] == [];
      if items[n] != item {
        at := at + [n];
      }
    }
  }

  lemma {:induction false} WithoutAbsentItem(items: seq<string>, item: string)
    requires item !in items
    ensures Without(items, item) == items
  {
    if items != [] {
      WithoutAbsentItem(items[1..], item);
    }
  }

  /** Adding where it is missing and then removing gives back the list, and the list that is
      written to add holds the finalizer once. */
  lemma AddThenRemove(finalizers: Option<seq<string>>)
    requires !HasTargetFinalizer(finalizers)
    ensures multiset(Added(finalizers))[FINALIZER] == 1
    ensures Removed(Some(Added(finalizers))) == FinalizersCloneOrEmpty(finalizers)
  {
    var list := FinalizersCloneOrEmpty(finalizers);
    assert FINALIZER !in multiset(list);
    WithoutSplits(list, [FINALIZER], FINALIZER);
    assert [FINALIZER][1..] == [];
    WithoutAbsentItem(list, FINALIZER);
  }
}
