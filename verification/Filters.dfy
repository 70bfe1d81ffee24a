/** Deciding from an object's managed fields whether Sinker made the latest change. */
module Filters {
  import opened Wrappers

  datatype ManagedFieldsEntry = ManagedFieldsEntry(manager: Option<string>, time: Option<int>)

  const GROUP: string := "sinker.influxdata.io"

  predicate AllTimed(es: seq<ManagedFieldsEntry>) {
    forall i | 0 <= i < |es| :: es[i].time.Some?
  }

  /** `max_by_key` on the time: among equally new entries it yields the last. */
  function MostRecent(es: seq<ManagedFieldsEntry>): (e: ManagedFieldsEntry)
    requires es != [] && AllTimed(es)
    ensures e in es
  {
    var last := es[|es| - 1];
    if |es| == 1 then last
    else
      var best := MostRecent(es[..|es| - 1]);
      if last.time.value >= best.time.value then last else best
  }

  /** `None` where it cannot be determined. */
  function WasLastModifiedBy(managedFields: Option<seq<ManagedFieldsEntry>>, manager: string): Option<bool> {
    match managedFields
    case None => None
    case Some(es) =>
      if exists i | 0 <= i < |es| :: es[i].time.None? then None
      else if es == [] then None
      else Some(MostRecent(es).manager == Some(manager))
  }

  /** No entry is newer than entry `i`, and every later one is older. */
  predicate IsLastNewest(es: seq<ManagedFieldsEntry>, i: nat)
    requires AllTimed(es)
  {
    && i < |es|
    && (forall j | 0 <= j < |es| :: es[j].time.value <= es[i].time.value)
    && (forall j | i < j < |es| :: es[j].time.value < es[i].time.value)
  }

  lemma {:induction false} MostRecentIsLastNewest(es: seq<ManagedFieldsEntry>) returns (i: nat)
    requires es != [] && AllTimed(es)
    ensures IsLastNewest(es, i) && es[i] == MostRecent(es)
  {
    i := |es| - 1;
    if |es| > 1 {
      var k := MostRecentIsLastNewest(es[..|es| - 1]);
      if es[i].time.value < es[k].time.value {
        i := k;
      }
    }
  }

  /** The answer, without reference to how the newest entry is found. */
  lemma AttributionIsExact(es: seq<ManagedFieldsEntry>, manager: string)
    ensures WasLastModifiedBy(Some(es), manager) == Some(true) <==>
            AllTimed(es) && exists i: nat :: IsLastNewest(es, i) && es[i].manager == Some(manager)
    ensures WasLastModifiedBy(Some(es), manager) == Some(false) <==>
            AllTimed(es) && exists i: nat :: IsLastNewest(es, i) && es[i].manager != Some(manager)
    ensures WasLastModifiedBy(Some(es), manager) == None <==> es == [] || !AllTimed(es)
  {
    if es != [] && AllTimed(es) {
      var i := MostRecentIsLastNewest(es);
      forall k: nat | IsLastNewest(es, k) ensures k == i {}
    }
  }

  predicate IsNewest(es: seq<ManagedFieldsEntry>, i: nat)
    requires AllTimed(es)
  {
    i < |es| && forall j | 0 <= j < |es| :: es[j].time.value <= es[i].time.value
  }

  /** Either all the newest entries are the manager's or none is. */
  predicate NewestAgree(es: seq<ManagedFieldsEntry>, manager: string)
    requires AllTimed(es)
  {
    forall i, j | 0 <= i < |es| && 0 <= j < |es| && IsNewest(es, i) && IsNewest(es, j) ::
      es[i].manager == Some(manager) <==> es[j].manager == Some(manager)
  }

  ghost predicate OrderFree(es: seq<ManagedFieldsEntry>, manager: string) {
    forall fs: seq<ManagedFieldsEntry> | multiset(fs) == multiset(es) ::
      WasLastModifiedBy(Some(fs), manager) == WasLastModifiedBy(Some(es), manager)
  }

  /** Every order of the entries gets the same answer exactly when the newest entries agree;
      a unique newest entry is the simplest such case. */
  lemma OrderIrrelevantExactlyWhenNewestAgree(es: seq<ManagedFieldsEntry>, manager: string)
    requires es != [] && AllTimed(es)
    ensures OrderFree(es, manager) <==> NewestAgree(es, manager)
  {
    if NewestAgree(es, manager) {
      forall fs: seq<ManagedFieldsEntry> | multiset(fs) == multiset(es)
        ensures WasLastModifiedBy(Some(fs), manager) == WasLastModifiedBy(Some(es), manager)
      {
        SameEntries(es, fs);
        var i := MostRecentIsLastNewest(es);
        var j := MostRecentIsLastNewest(fs);
        assert fs[j] in es;
        var k :| 0 <= k < |es| && es[k] == fs[j];
        assert es[i] in fs;
        assert IsNewest(es, k) && IsNewest(es, i);
      }
    } else {
      var i, j :| 0 <= i < |es| && 0 <= j < |es| && IsNewest(es, i) && IsNewest(es, j) &&
                  (es[i].manager == Some(manager)) != (es[j].manager == Some(manager));
      var iLast := MovedLastDecides(es, i, manager);
      var jLast := MovedLastDecides(es, j, manager);
    }
  }

  lemma SameEntries(es: seq<ManagedFieldsEntry>, fs: seq<ManagedFieldsEntry>)
    requires es != [] && AllTimed(es) && multiset(fs) == multiset(es)
    ensures fs != [] && AllTimed(fs)
    ensures forall e :: e in es <==> e in fs
  {
    forall e ensures e in es <==> e in fs {
      assert e in es <==> e in multiset(es);
      assert e in fs <==> e in multiset(fs);
    }
    assert es[0] in fs;
    forall i | 0 <= i < |fs| ensures fs[i].time.Some? {
      assert fs[i] in es;
    }
  }

  /** A newest entry moved to the end decides the answer. */
  lemma MovedLastDecides(es: seq<ManagedFieldsEntry>, i: nat, manager: string)
    returns (fs: seq<ManagedFieldsEntry>)
    requires AllTimed(es) && IsNewest(es, i)
    ensures multiset(fs) == multiset(es)
    ensures WasLastModifiedBy(Some(fs), manager) == Some(es[i].manager == Some(manager))
  {
    var others := es[..i] + es[i + 1..];
    fs := others + [es[i]];
    assert es == es[..i] + [es[i]] + es[i + 1..];
    assert multiset(fs) == multiset(es);
    SameEntries(es, fs);
    assert fs[..|fs| - 1] == others;
    if others != [] {
      assert AllTimed(others) by {
        forall k | 0 <= k < |others| ensures others[k].time.Some? { assert others[k] == fs[k]; }
      }
      var best := MostRecent(others);
      assert best in fs;
      var k :| 0 <= k < |es| && es[k] == best;
    }
    assert MostRecent(fs) == es[i];
  }
}
