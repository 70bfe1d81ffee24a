/** JSON values, reading and writing a value at a path of object keys, and the lens laws
    relating the two. */
module JsonTree {
  import opened Rearranged
  import opened Wrappers

  datatype Json =
    | Null
    | Bool(b: bool)
    | Num(n: int)
    | Str(s: string)
    | Arr(items: seq<Json>)
    | Obj(fields: map<string, Json>)

  type Path = seq<string>

  const EMPTY_OBJECT: Json := Obj(map[])

  function Get(v: Json, p: Path): Option<Json> {
    if p == [] then Some(v)
    else if v.Obj? && p[0] in v.fields then Get(v.fields[p[0]], p[1..])
    else None
  }

  /** The member `k` of an object, or a new empty object where there is none. */
  function ChildOrNew(v: Json, k: string): Json
    requires v.Obj?
  {
    if k in v.fields then v.fields[k] else EMPTY_OBJECT
  }

  /** Writes `leaf` at `p`, creating missing objects; `None` where a non-object is in the way. */
  function Put(v: Json, p: Path, leaf: Json): Option<Json>
    decreases p
  {
    if p == [] then Some(leaf)
    else if !v.Obj? then None
    else
      match Put(ChildOrNew(v, p[0]), p[1..], leaf)
      case None => None
      case Some(child) => Some(Obj(v.fields[p[0] := child]))
  }

  /** `Put`, lifted over an earlier write that may have failed. */
  function ThenPut(v: Option<Json>, p: Path, leaf: Json): Option<Json> {
    if v.None? then None else Put(v.value, p, leaf)
  }

  /** The value at the strict prefix of length `k` exists and is not an object. */
  predicate BlockedAt(v: Json, p: Path, k: nat)
    requires k < |p|
  {
    var at := Get(v, p[..k]);
    at.Some? && !at.value.Obj?
  }

  predicate Incomparable(p: Path, q: Path) {
    !(p <= q) && !(q <= p)
  }

  lemma {:induction false} PutFailsExactlyWhenBlocked(v: Json, p: Path, leaf: Json)
    ensures Put(v, p, leaf).None? <==> exists k | 0 <= k < |p| :: BlockedAt(v, p, k)
    decreases p
  {
    if p != [] {
      assert p[..0] == [];
      if !v.Obj? {
        assert BlockedAt(v, p, 0);
      } else {
        var child := ChildOrNew(v, p[0]);
        PutFailsExactlyWhenBlocked(child, p[1..], leaf);
        forall k | 1 <= k < |p|
          ensures BlockedAt(v, p, k) ==> BlockedAt(child, p[1..], k - 1)
          ensures p[0] in v.fields && BlockedAt(child, p[1..], k - 1) ==> BlockedAt(v, p, k)
        {
          assert p[..k][1..] == p[1..][..k - 1];
        }
        if p[0] !in v.fields {
          NeverBlockedBelowNew(p[1..]);
        } else if k :| 0 <= k < |p| - 1 && BlockedAt(child, p[1..], k) {
          assert BlockedAt(v, p, k + 1);
        }
      }
    }
  }

  lemma NeverBlockedBelowNew(p: Path)
    ensures forall k | 0 <= k < |p| :: !BlockedAt(EMPTY_OBJECT, p, k)
  {
  }

  lemma {:induction false} PutIntoNewSucceeds(p: Path, leaf: Json)
    ensures Put(EMPTY_OBJECT, p, leaf).Some?
  {
    if p != [] {
      PutIntoNewSucceeds(p[1..], leaf);
    }
  }

  /** Read after write. */
  lemma {:induction false} GetAfterPut(v: Json, p: Path, leaf: Json)
    requires Put(v, p, leaf).Some?
    ensures Get(Put(v, p, leaf).value, p) == Some(leaf)
    decreases p
  {
    if p != [] {
      GetAfterPut(ChildOrNew(v, p[0]), p[1..], leaf);
    }
  }

  /** Writing back what is read changes nothing. */
  lemma {:induction false} PutOfGet(v: Json, p: Path)
    requires Get(v, p).Some?
    ensures Put(v, p, Get(v, p).value) == Some(v)
  {
    if p != [] {
      PutOfGet(v.fields[p[0]], p[1..]);
      assert v.fields[p[0] := v.fields[p[0]]] == v.fields;
    }
  }

  /** The last of two writes at one path wins. */
  lemma {:induction false} LastPutWins(v: Json, p: Path, first: Json, last: Json)
    ensures Put(v, p, first).None? <==> Put(v, p, last).None?
    ensures Put(v, p, first).Some? ==> Put(Put(v, p, first).value, p, last) == Put(v, p, last)
    decreases p
  {
    if p != [] && v.Obj? {
      var k := p[0];
      LastPutWins(ChildOrNew(v, k), p[1..], first, last);
      match (Put(ChildOrNew(v, k), p[1..], first), Put(ChildOrNew(v, k), p[1..], last)) {
        case (Some(a), Some(b)) =>
          assert v.fields[k := a][k := b] == v.fields[k := b];
        case _ =>
      }
    }
  }

  lemma IncomparableTails(p: Path, q: Path)
    requires Incomparable(p, q)
    ensures p != [] && q != []
    ensures p[0] == q[0] ==> Incomparable(p[1..], q[1..])
  {
    if p[0] == q[0] {
      PrefixByTail(p, q);
      PrefixByTail(q, p);
    }
  }

  lemma PrefixByTail(p: Path, q: Path)
    requires p != [] && q != [] && p[0] == q[0]
    ensures p <= q <==> p[1..] <= q[1..]
  {
    assert p == [p[0]] + p[1..] && q == [q[0]] + q[1..];
  }

  /** A write leaves every incomparable path reading as before. */
  lemma {:induction false} PutFrame(v: Json, p: Path, leaf: Json, q: Path)
    requires Incomparable(p, q) && Put(v, p, leaf).Some?
    ensures Get(Put(v, p, leaf).value, q) == Get(v, q)
    decreases p
  {
    IncomparableTails(p, q);
    if p[0] == q[0] {
      PutFrame(ChildOrNew(v, p[0]), p[1..], leaf, q[1..]);
    }
  }

  /** Writes at incomparable paths commute, including whether they fail. */
  lemma {:induction false} PutsCommute(v: Json, p: Path, x: Json, q: Path, y: Json)
    requires Incomparable(p, q)
    ensures ThenPut(Put(v, p, x), q, y) == ThenPut(Put(v, q, y), p, x)
    decreases p
  {
    IncomparableTails(p, q);
    if v.Obj? {
      var a, b := Put(ChildOrNew(v, p[0]), p[1..], x), Put(ChildOrNew(v, q[0]), q[1..], y);
      SecondPut(v, p[0], a, q, y);
      SecondPut(v, q[0], b, p, x);
      if p[0] == q[0] {
        PutsCommute(ChildOrNew(v, p[0]), p[1..], x, q[1..], y);
      } else if a.Some? && b.Some? {
        assert v.fields[p[0] := a.value][q[0] := b.value] == v.fields[q[0] := b.value][p[0] := a.value];
      }
    }
  }

  /** The object with member `k` set, where there is a value to set it to. */
  function WithMember(fields: map<string, Json>, k: string, child: Option<Json>): Option<Json> {
    if child.None? then None else Some(Obj(fields[k := child.value]))
  }

  /** A write just after member `k` was set. */
  lemma SecondPut(v: Json, k: string, child: Option<Json>, q: Path, y: Json)
    requires v.Obj? && q != []
    ensures q[0] == k ==>
              ThenPut(WithMember(v.fields, k, child), q, y) == WithMember(v.fields, k, ThenPut(child, q[1..], y))
    ensures q[0] != k && child.Some? ==>
              ThenPut(WithMember(v.fields, k, child), q, y) ==
              WithMember(v.fields[k := child.value], q[0], Put(ChildOrNew(v, q[0]), q[1..], y))
  {
    if child.Some? && q[0] == k {
      match Put(child.value, q[1..], y)
      case Some(c) => assert v.fields[k := child.value][k := c] == v.fields[k := c];
      case None =>
    }
  }

  /** An incomparable write cannot get in the way of a write that was possible. */
  lemma PutKeepsOpen(v: Json, p: Path, x: Json, q: Path, y: Json)
    requires Incomparable(p, q) && Put(v, p, x).Some? && Put(v, q, y).Some?
    ensures Put(Put(v, p, x).value, q, y).Some?
  {
    PutFailsExactlyWhenBlocked(v, q, y);
    var w := Put(v, p, x).value;
    PutFailsExactlyWhenBlocked(w, q, y);
    forall k | 0 <= k < |q|
      ensures !BlockedAt(w, q, k)
    {
      assert !BlockedAt(v, q, k);
      if Incomparable(p, q[..k]) {
        PutFrame(v, p, x, q[..k]);
      } else if p <= q[..k] {
        assert false;
      } else {
        ObjectsAboveWrite(v, p, x, k);
        assert q[..k] == p[..k];
      }
    }
  }

  /** After a write, every strict prefix of its path holds an object. */
  lemma {:induction false} ObjectsAboveWrite(v: Json, p: Path, x: Json, k: nat)
    requires k < |p| && Put(v, p, x).Some?
    ensures var at := Get(Put(v, p, x).value, p[..k]); at.Some? && at.value.Obj?
    decreases p
  {
    if k > 0 {
      ObjectsAboveWrite(ChildOrNew(v, p[0]), p[1..], x, k - 1);
      assert p[..k][1..] == p[1..][..k - 1];
    }
  }

  /** A write below `p` is a write at `p` of the value there with the rest written. */
  lemma {:induction false} PutSplits(v: Json, p: Path, q: Path, x: Json)
    requires Get(v, p).Some?
    ensures Put(v, p + q, x)
         == match Put(Get(v, p).value, q, x)
            case None => None
            case Some(inner) => Put(v, p, inner)
  {
    if p == [] {
      assert p + q == q;
    } else {
      assert (p + q)[1..] == p[1..] + q;
      PutSplits(v.fields[p[0]], p[1..], q, x);
    }
  }

  lemma {:induction false} GetSplits(v: Json, p: Path, q: Path)
    ensures Get(v, p + q) == match Get(v, p) case None => None case Some(inner) => Get(inner, q)
  {
    if p == [] {
      assert p + q == q;
    } else {
      assert (p + q)[1..] == p[1..] + q;
      if v.Obj? && p[0] in v.fields {
        GetSplits(v.fields[p[0]], p[1..], q);
      }
    }
  }

  // Lists of writes

  datatype Write = Write(path: Path, leaf: Json)

  function PutAll(v: Json, ws: seq<Write>): Option<Json>
    decreases ws
  {
    if ws == [] then Some(v)
    else
      match Put(v, ws[0].path, ws[0].leaf)
      case None => None
      case Some(w) => PutAll(w, ws[1..])
  }

  ghost predicate Independent(ws: seq<Write>) {
    forall i, j | 0 <= i < j < |ws| :: Incomparable(ws[i].path, ws[j].path)
  }

  lemma {:induction false} IndependentWritesSucceed(v: Json, ws: seq<Write>)
    requires Independent(ws)
    requires forall i | 0 <= i < |ws| :: Put(v, ws[i].path, ws[i].leaf).Some?
    ensures PutAll(v, ws).Some?
    ensures forall i | 0 <= i < |ws| :: Get(PutAll(v, ws).value, ws[i].path) == Some(ws[i].leaf)
    ensures forall q: Path | (forall i | 0 <= i < |ws| :: Incomparable(ws[i].path, q)) ::
              Get(PutAll(v, ws).value, q) == Get(v, q)
    decreases ws
  {
    if ws != [] {
      var w := Put(v, ws[0].path, ws[0].leaf).value;
      var rest := ws[1..];
      forall i | 0 <= i < |rest|
        ensures Put(w, rest[i].path, rest[i].leaf).Some?
      {
        assert rest[i] == ws[i + 1];
        PutKeepsOpen(v, ws[0].path, ws[0].leaf, rest[i].path, rest[i].leaf);
      }
      assert Independent(rest);
      IndependentWritesSucceed(w, rest);
      GetAfterPut(v, ws[0].path, ws[0].leaf);
      forall i | 0 <= i < |rest| ensures Incomparable(rest[i].path, ws[0].path) {
        assert rest[i] == ws[i + 1];
      }
      forall q: Path | forall i | 0 <= i < |ws| :: Incomparable(ws[i].path, q)
        ensures Get(PutAll(v, ws).value, q) == Get(v, q)
      {
        forall i | 0 <= i < |rest| ensures Incomparable(rest[i].path, q) {
          assert rest[i] == ws[i + 1];
        }
        PutFrame(v, ws[0].path, ws[0].leaf, q);
      }
      forall i | 0 <= i < |ws|
        ensures Get(PutAll(v, ws).value, ws[i].path) == Some(ws[i].leaf)
      {
        if i > 0 { assert ws[i] == rest[i - 1]; }
      }
    }
  }

  /** Moving one write to the front of an independent list does not change the outcome. */
  lemma {:induction false} WriteMovesToFront(v: Json, ws: seq<Write>, k: nat)
    requires Independent(ws) && k < |ws|
    ensures PutAll(v, ws) == PutAll(v, [ws[k]] + (ws[..k] + ws[k + 1..]))
    decreases ws
  {
    var front := [ws[k]] + (ws[..k] + ws[k + 1..]);
    if k == 0 {
      assert front == ws;
    } else {
      var a, b, rest := ws[0], ws[k], ws[1..];
      assert Independent(rest);
      var others := rest[..k - 1] + rest[k..];
      assert rest[k - 1] == b;
      assert ws[..k] + ws[k + 1..] == [a] + others;
      assert front[1..] == [a] + others;
      PutsCommute(v, a.path, a.leaf, b.path, b.leaf);
      var first := Put(v, a.path, a.leaf);
      if first.Some? {
        WriteMovesToFront(first.value, rest, k - 1);
        assert ([b] + others)[1..] == others;
      }
      assert ([a] + others)[1..] == others;
    }
  }

  /** Any two orders of an independent list of writes have the same outcome. */
  lemma {:induction false} PutAllIgnoresOrder(v: Json, ws: seq<Write>, us: seq<Write>)
    requires Independent(ws) && Independent(us) && multiset(ws) == multiset(us)
    ensures PutAll(v, ws) == PutAll(v, us)
    decreases ws
  {
    if ws == [] {
      assert |multiset(us)| == 0;
    } else {
      var k := TakeOutFirst(ws, us);
      var others := us[..k] + us[k + 1..];
      WriteMovesToFront(v, us, k);
      assert ([us[k]] + others)[1..] == others;
      var next := Put(v, ws[0].path, ws[0].leaf);
      if next.Some? {
        PutAllIgnoresOrder(next.value, ws[1..], others);
      }
    }
  }
}
