/** The mutable JSON document that mappings write into. */
module FieldPath {
  import opened Wrappers
  import opened JsonTree
  import opened DotPath

  datatype AddToPathError = ObjectRequired(value: Json)

  const RESERVED: set<string> := {"apiVersion", "kind", "metadata"}

  /** A value without the members that a typed object stores outside its data. */
  function Cleaned(v: Json): Json {
    if v.Obj? then Obj(v.fields - RESERVED) else v
  }

  class Document {
    var root: Json

    constructor (root: Json)
      ensures this.root == root
    {
      this.root := root;
    }

    /** Walks the dotted path with a cursor, inserting an empty object into the document
        wherever a field is missing, until the leaf can be set. `walked` is where the cursor
        stands; a change made through the cursor changes `root` there. */
    method SetFieldPath(path: string, leaf: Json) returns (r: Result<(), AddToPathError>)
      modifies this
      ensures match Put(old(root), Segments(path, '.'), leaf)
              case Some(written) => r == Ok(()) && root == written
              case None => r == Err(ObjectRequired(old(root))) && root == old(root)
      ensures r.Err? <==> exists k | 0 <= k < |Segments(path, '.')| :: BlockedAt(old(root), Segments(path, '.'), k)
    {
      PutFailsExactlyWhenBlocked(root, Segments(path, '.'), leaf);
      ghost var goal := Put(root, Segments(path, '.'), leaf);
      if !root.Obj? {
        assert goal == None;
        return Err(ObjectRequired(root));
      }
      var cursor, rest := root.fields, path;
      var walked: Path := [];
      ghost var inserted, before := false, root;
      assert walked + Segments(rest, '.') == Segments(rest, '.');
      while true
        invariant OnTrack(root, goal, leaf, walked, cursor, rest)
        invariant if inserted then cursor == map[] else root == before
        decreases |rest|
      {
        match SplitOnce(rest, '.') {
          case None =>
            LeafReached(root, goal, leaf, walked, cursor, rest);
            WriteAt(walked, cursor[rest := leaf]);
            return Ok(());
          case Some((field, after)) =>
            if field !in cursor {
              inserted := true;
              InsertStaysOnTrack(root, goal, leaf, walked, cursor, rest);
              cursor := cursor[field := EMPTY_OBJECT];
              WriteAt(walked, cursor);
            }
            Descend(root, goal, leaf, walked, cursor, rest);
            if !cursor[field].Obj? {
              return Err(ObjectRequired(root));
            }
            cursor, walked, rest := cursor[field].fields, walked + [field], after;
        }
      }
    }

    /** Replaces the object at `at`, which the caller's cursor stands on. */
    method WriteAt(at: Path, fields: map<string, Json>)
      requires Get(root, at).Some?
      modifies this
      ensures Put(old(root), at, Obj(fields)) == Some(root)
      ensures Get(root, at) == Some(Obj(fields))
    {
      GetMeansPut(root, at, Obj(fields));
      GetAfterPut(root, at, Obj(fields));
      root := Put(root, at, Obj(fields)).value;
    }

    method CleanupSubtree()
      modifies this
      ensures root == Cleaned(old(root))
    {
      if root.Obj? {
        root := Obj(root.fields - {"apiVersion"});
        root := Obj(root.fields - {"kind"});
        root := Obj(root.fields - {"metadata"});
        assert root.fields == old(root.fields) - RESERVED;
      }
    }
  }

  /** Where a value can be read, one can be written. */
  lemma {:induction false} GetMeansPut(v: Json, p: Path, x: Json)
    requires Get(v, p).Some?
    ensures Put(v, p, x).Some?
    decreases p
  {
    if p != [] {
      GetMeansPut(v.fields[p[0]], p[1..], x);
    }
  }

  /** The cursor stands at `walked`, and writing along the rest of the path from there still
      gives what the whole write should give. */
  ghost predicate OnTrack(
    v: Json, goal: Option<Json>, leaf: Json, walked: Path, cursor: map<string, Json>, rest: string)
  {
    Get(v, walked) == Some(Obj(cursor)) && Put(v, walked + Segments(rest, '.'), leaf) == goal
  }

  lemma LeafReached(v: Json, goal: Option<Json>, leaf: Json, walked: Path, cursor: map<string, Json>, rest: string)
    requires OnTrack(v, goal, leaf, walked, cursor, rest) && SplitOnce(rest, '.').None?
    ensures goal.Some? && Put(v, walked, Obj(cursor[rest := leaf])) == goal
  {
    PutSplits(v, walked, [rest], leaf);
    assert [rest][1..] == [];
    GetMeansPut(v, walked, Obj(cursor[rest := leaf]));
  }

  /** Inserting an empty object where the path goes on does not change what the write yields. */
  lemma InsertStaysOnTrack(
    v: Json, goal: Option<Json>, leaf: Json, walked: Path, cursor: map<string, Json>, rest: string)
    requires OnTrack(v, goal, leaf, walked, cursor, rest) && SplitOnce(rest, '.').Some?
    requires SplitOnce(rest, '.').value.0 !in cursor
    ensures var wider := cursor[SplitOnce(rest, '.').value.0 := EMPTY_OBJECT];
            var w := Put(v, walked, Obj(wider));
            w.Some? && OnTrack(w.value, goal, leaf, walked, wider, rest)
  {
    var (field, after) := SplitOnce(rest, '.').value;
    var more := Segments(after, '.');
    var wider := cursor[field := EMPTY_OBJECT];
    GetMeansPut(v, walked, Obj(wider));
    var w := Put(v, walked, Obj(wider)).value;
    GetAfterPut(v, walked, Obj(wider));
    PutSplits(v, walked, [field] + more, leaf);
    PutSplits(w, walked, [field] + more, leaf);
    assert ([field] + more)[1..] == more;
    PutIntoNewSucceeds(more, leaf);
    var child := Put(EMPTY_OBJECT, more, leaf).value;
    assert wider[field := child] == cursor[field := child];
    LastPutWins(v, walked, Obj(wider), Obj(cursor[field := child]));
  }

  /** One step down from the cursor: an object keeps the walk on track, anything else means
      the write as a whole fails. */
  lemma Descend(v: Json, goal: Option<Json>, leaf: Json, walked: Path, cursor: map<string, Json>, rest: string)
    requires OnTrack(v, goal, leaf, walked, cursor, rest) && SplitOnce(rest, '.').Some?
    requires SplitOnce(rest, '.').value.0 in cursor
    ensures var (field, after) := SplitOnce(rest, '.').value;
            if cursor[field].Obj? then OnTrack(v, goal, leaf, walked + [field], cursor[field].fields, after)
            else goal == None && cursor != map[]
  {
    var (field, after) := SplitOnce(rest, '.').value;
    var more := Segments(after, '.');
    GetSplits(v, walked, [field]);
    assert [field][1..] == [] && ([field] + more)[1..] == more;
    assert walked + ([field] + more) == walked + [field] + more;
    PutSplits(v, walked, [field] + more, leaf);
  }
}
