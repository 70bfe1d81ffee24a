/** What mapping lists guarantee as a whole. */
module MappingLaws {
  import opened Rearranged
  import opened Wrappers
  import opened JsonTree
  import opened DotPath
  import opened FieldPath
  import opened Objects
  import opened Mapping

  // Independent mappings

  predicate WritesData(m: Mapping) {
    m.toFieldPath.Some? && !InMetadata(m.toFieldPath.value)
  }

  function Destination(m: Mapping): Path {
    if m.toFieldPath.None? then [] else Segments(m.toFieldPath.value, '.')
  }

  /** Every mapping writes into the data, and no destination is a prefix of another's. */
  ghost predicate IndependentMappings(ms: seq<Mapping>) {
    && (forall i | 0 <= i < |ms| :: WritesData(ms[i]))
    && forall i, j | 0 <= i < j < |ms| :: Incomparable(Destination(ms[i]), Destination(ms[j]))
  }

  predicate Selects(q: JsonPath, source: DynamicObject, m: Mapping) {
    FindFieldPath(q, source, m.fromFieldPath).Ok?
  }

  /** The write that a mapping into the data performs, where its source selects. */
  function WriteOf(q: JsonPath, source: DynamicObject, m: Mapping): Write {
    var found := FindFieldPath(q, source, m.fromFieldPath);
    Write(Destination(m), if found.Ok? then found.value else Null)
  }

  function WritesOf(q: JsonPath, source: DynamicObject, ms: seq<Mapping>): (ws: seq<Write>)
    ensures |ws| == |ms| && forall i | 0 <= i < |ms| :: ws[i] == WriteOf(q, source, ms[i])
  {
    seq(|ms|, i requires 0 <= i < |ms| => WriteOf(q, source, ms[i]))
  }

  /** Mappings into the data are a list of writes to it and touch nothing else. */
  lemma {:induction false} ApplyAllIsPutAll(
    q: JsonPath, source: DynamicObject, req: Requested, template: DynamicObject, ms: seq<Mapping>)
    requires forall i | 0 <= i < |ms| :: WritesData(ms[i]) && Selects(q, source, ms[i])
    requires template.data.Obj?
    ensures match PutAll(template.data, WritesOf(q, source, ms))
            case None => ApplyAll(q, source, req, template, ms).Err?
            case Some(data) => ApplyAll(q, source, req, template, ms) == Ok(template.(data := data))
    decreases ms
  {
    var ws := WritesOf(q, source, ms);
    if ms != [] {
      assert ws[1..] == WritesOf(q, source, ms[1..]);
      var next := Put(template.data, ws[0].path, ws[0].leaf);
      if next.Some? {
        ApplyAllIsPutAll(q, source, req, template.(data := next.value), ms[1..]);
        assert template.(data := next.value).(data := EMPTY_OBJECT) == template.(data := EMPTY_OBJECT);
      }
    }
  }

  /** Independent mappings whose sources all select never fail, and each destination reads
      back what its own mapping selected. */
  lemma IndependentMappingsSucceed(
    q: JsonPath, source: DynamicObject, req: Requested, ar: ApiResource, ms: seq<Mapping>)
    requires IndependentMappings(ms)
    requires forall i | 0 <= i < |ms| :: Selects(q, source, ms[i])
    ensures var r := ApplyAll(q, source, req, FreshTemplate(req, ar), ms);
            && r.Ok?
            && r.value.types == TypeOf(ar)
            && r.value.metadata == NO_META.(name := Some(req.name), namespace := req.namespace)
            && forall i | 0 <= i < |ms| ::
                 var found := Get(r.value.data, Destination(ms[i]));
                 found.Some? && FindFieldPath(q, source, ms[i].fromFieldPath) == Ok(found.value)
  {
    var ws := WritesOf(q, source, ms);
    forall i | 0 <= i < |ws| ensures Put(EMPTY_OBJECT, ws[i].path, ws[i].leaf).Some? {
      PutIntoNewSucceeds(ws[i].path, ws[i].leaf);
    }
    IndependentWritesSucceed(EMPTY_OBJECT, ws);
    ApplyAllIsPutAll(q, source, req, FreshTemplate(req, ar), ms);
    forall i | 0 <= i < |ms|
      ensures Get(PutAll(EMPTY_OBJECT, ws).value, Destination(ms[i])) ==
              Some(FindFieldPath(q, source, ms[i].fromFieldPath).value)
    {
      assert ws[i] == WriteOf(q, source, ms[i]);
    }
  }

  lemma WritesOfOthers(q: JsonPath, source: DynamicObject, ms: seq<Mapping>, k: nat)
    requires k < |ms|
    ensures var ws := WritesOf(q, source, ms);
            WritesOf(q, source, ms[..k] + ms[k + 1..]) == ws[..k] + ws[k + 1..]
  {
  }

  lemma {:induction false} WritesOfRearranged(q: JsonPath, source: DynamicObject, ms: seq<Mapping>, ns: seq<Mapping>)
    requires multiset(ms) == multiset(ns)
    ensures multiset(WritesOf(q, source, ms)) == multiset(WritesOf(q, source, ns))
    decreases ms
  {
    if ms == [] {
      assert |multiset(ns)| == 0;
    } else {
      var k := TakeOutFirst(ms, ns);
      WritesOfRearranged(q, source, ms[1..], ns[..k] + ns[k + 1..]);
      WritesOfOthers(q, source, ns, k);
      assert WritesOf(q, source, ms[1..]) == WritesOf(q, source, ms)[1..];
      PutBackFirst(WritesOf(q, source, ms), WritesOf(q, source, ns), k);
    }
  }

  /** Any order of independent mappings builds the same target. */
  lemma MappingOrderIsIrrelevant(
    q: JsonPath, source: DynamicObject, req: Requested, ar: ApiResource, ms: seq<Mapping>, ns: seq<Mapping>)
    requires IndependentMappings(ms) && multiset(ms) == multiset(ns)
    requires forall i | 0 <= i < |ms| :: Selects(q, source, ms[i])
    ensures ApplyAll(q, source, req, FreshTemplate(req, ar), ms) ==
            ApplyAll(q, source, req, FreshTemplate(req, ar), ns)
  {
    forall m | m in ms || m in ns ensures WritesData(m) && Selects(q, source, m) {
      assert m in multiset(ms) && m in multiset(ns);
    }
    var ws, us := WritesOf(q, source, ms), WritesOf(q, source, ns);
    WritesOfRearranged(q, source, ms, ns);
    assert Independent(ws);
    IndependentRearranged(ws, us);
    PutAllIgnoresOrder(EMPTY_OBJECT, ws, us);
    IndependentMappingsSucceed(q, source, req, ar, ms);
    ApplyAllIsPutAll(q, source, req, FreshTemplate(req, ar), ms);
    ApplyAllIsPutAll(q, source, req, FreshTemplate(req, ar), ns);
  }

  /** Independence does not depend on the order of the list. */
  lemma {:induction false} IndependentRearranged(ws: seq<Write>, us: seq<Write>)
    requires Independent(ws) && multiset(ws) == multiset(us)
    ensures Independent(us)
    decreases ws
  {
    if ws == [] {
      assert |multiset(us)| == 0;
    } else {
      var k := TakeOutFirst(ws, us);
      var others := us[..k] + us[k + 1..];
      IndependentRearranged(ws[1..], others);
      forall i, j | 0 <= i < j < |us| ensures Incomparable(us[i].path, us[j].path) {
        if i == k || j == k {
          var o := if i == k then j else i;
          assert us[o] == others[if o < k then o else o - 1];
          assert us[o] in multiset(others);
          assert us[o] in ws[1..];
        } else {
          assert us[i] == others[if i < k then i else i - 1];
          assert us[j] == others[if j < k then j else j - 1];
        }
      }
    }
  }

  // Root replacement

  predicate ReplacesRoot(m: Mapping) {
    m.fromFieldPath.Some? && m.toFieldPath.None?
  }

  /** A root replacement forgets every mapping before it. */
  lemma RootReplacementAbsorbs(
    q: JsonPath, source: DynamicObject, req: Requested, ar: ApiResource,
    before: seq<Mapping>, replacement: Mapping, after: seq<Mapping>)
    requires ReplacesRoot(replacement)
    ensures ApplyAll(q, source, req, FreshTemplate(req, ar), before).Ok? ==>
            ApplyAll(q, source, req, FreshTemplate(req, ar), before + [replacement] + after) ==
            ApplyAll(q, source, req, FreshTemplate(req, ar), [replacement] + after)
  {
    var template := FreshTemplate(req, ar);
    if ApplyAll(q, source, req, template, before).Ok? {
      DataStaysAnObject(q, source, req, template, before);
    }
    ApplyAllSplits(q, source, req, template, before + [replacement], after);
    ApplyAllSplits(q, source, req, template, before, [replacement]);
    ApplyAllSplits(q, source, req, template, [replacement], after);
    assert [replacement][1..] == [];
  }

  lemma PutKeepsObject(v: Json, p: Path, x: Json)
    requires v.Obj? && p != [] && Put(v, p, x).Some?
    ensures Put(v, p, x).value.Obj?
    ensures forall k | k != p[0] :: k in Put(v, p, x).value.fields <==> k in v.fields
    ensures forall k | k != p[0] && k in v.fields :: Put(v, p, x).value.fields[k] == v.fields[k]
    ensures p[0] in Put(v, p, x).value.fields
  {
  }

  lemma StepKeepsDataAnObject(q: JsonPath, source: DynamicObject, req: Requested, template: DynamicObject, m: Mapping)
    requires template.data.Obj? && ApplyOne(q, source, req, template, m).Ok?
    ensures ApplyOne(q, source, req, template, m).value.data.Obj?
  {
    if m.toFieldPath.Some? && !InMetadata(m.toFieldPath.value) {
      PutKeepsObject(template.data, Destination(m), FindFieldPath(q, source, m.fromFieldPath).value);
    }
  }

  /** The template can always be serialised, so logging it never fails a mapping. */
  lemma {:induction false} DataStaysAnObject(
    q: JsonPath, source: DynamicObject, req: Requested, template: DynamicObject, ms: seq<Mapping>)
    requires template.data.Obj? && ApplyAll(q, source, req, template, ms).Ok?
    ensures ApplyAll(q, source, req, template, ms).value.data.Obj?
    decreases ms
  {
    if ms != [] {
      StepKeepsDataAnObject(q, source, req, template, ms[0]);
      DataStaysAnObject(q, source, req, ApplyOne(q, source, req, template, ms[0]).value, ms[1..]);
    }
  }

  // The type

  function TypeOf(ar: ApiResource): Option<TypeMeta> {
    Some(TypeMeta(ar.apiVersion, ar.kind))
  }

  /** The type that the object selected by a root replacement says it has. */
  function ParsedType(q: JsonPath, source: DynamicObject, m: Mapping): Result<ApiResource, Error> {
    match FindFieldPath(q, source, m.fromFieldPath)
    case Err(e) => Err(e)
    case Ok(subtree) => GetArFromSubtree(subtree)
  }

  /** `i` is the last root replacement of the list. */
  predicate LastReplacementAt(ms: seq<Mapping>, i: nat) {
    i < |ms| && ReplacesRoot(ms[i]) && forall k | i < k < |ms| :: !ReplacesRoot(ms[k])
  }

  predicate NoReplacement(ms: seq<Mapping>) {
    forall k | 0 <= k < |ms| :: !ReplacesRoot(ms[k])
  }

  lemma StepType(q: JsonPath, source: DynamicObject, req: Requested, template: DynamicObject, m: Mapping)
    requires ApplyOne(q, source, req, template, m).Ok?
    ensures var t := ApplyOne(q, source, req, template, m).value;
            if ReplacesRoot(m) then ParsedType(q, source, m).Ok? && t.types == TypeOf(ParsedType(q, source, m).value)
            else t.types == template.types
  {
  }

  /** Only root replacements change the type, and the last one decides. */
  lemma {:induction false} LastReplacementDecidesType(
    q: JsonPath, source: DynamicObject, req: Requested, template: DynamicObject, ms: seq<Mapping>)
    requires ApplyAll(q, source, req, template, ms).Ok?
    ensures var t := ApplyAll(q, source, req, template, ms).value;
            && (NoReplacement(ms) ==> t.types == template.types)
            && forall i: nat | LastReplacementAt(ms, i) ::
                 ParsedType(q, source, ms[i]).Ok? && t.types == TypeOf(ParsedType(q, source, ms[i]).value)
    decreases ms
  {
    if ms != [] {
      var rest := ms[1..];
      StepType(q, source, req, template, ms[0]);
      LastReplacementDecidesType(q, source, req, ApplyOne(q, source, req, template, ms[0]).value, rest);
      forall i: nat | LastReplacementAt(ms, i) ensures if i == 0 then NoReplacement(rest) else LastReplacementAt(rest, i - 1) {
        assert i > 0 ==> rest[i - 1] == ms[i];
      }
    }
  }

  /** The target has the requested type exactly when no mapping replaces the root, or the last
      one that does selects an object that says it is of that type. */
  lemma TargetTypeIsRequestedExactlyWhen(
    q: JsonPath, source: DynamicObject, req: Requested, ar: ApiResource, ms: seq<Mapping>)
    ensures var r := ApplyAll(q, source, req, FreshTemplate(req, ar), ms);
            r.Ok? ==>
              (r.value.types == TypeOf(ar) <==>
               NoReplacement(ms) ||
               exists i: nat :: LastReplacementAt(ms, i) && ParsedType(q, source, ms[i]).Ok? &&
                                TypeOf(ParsedType(q, source, ms[i]).value) == TypeOf(ar))
  {
    if ApplyAll(q, source, req, FreshTemplate(req, ar), ms).Ok? {
      LastReplacementDecidesType(q, source, req, FreshTemplate(req, ar), ms);
      if !NoReplacement(ms) {
        var i := SomeLastReplacement(ms);
      }
    }
  }

  lemma {:induction false} SomeLastReplacement(ms: seq<Mapping>) returns (i: nat)
    requires !NoReplacement(ms)
    ensures LastReplacementAt(ms, i)
  {
    var last := |ms| - 1;
    if ReplacesRoot(ms[last]) {
      i := last;
    } else {
      i := SomeLastReplacement(ms[..last]);
    }
  }

  // What one mapping makes, and how it fails

  /** What an expression selects: the one value there is, null where there is none, and an error
      where the expression is malformed or selects more. A missing or empty path is the root. */
  lemma SelectionIsExact(q: JsonPath, source: DynamicObject, from: Option<string>)
    requires ToValue(source).Ok?
    ensures var expression := if from == None || from == Some("") then "$" else "$." + from.value;
            var r, got := FindFieldPath(q, source, from), q(expression, ToValue(source).value);
            && (r == Err(JsonPathError) <==> got == ParseError)
            && (r == Err(JsonPathExactlyOneValue(expression)) <==> got.Nodes? && |got.nodes| > 1)
            && forall v :: r == Ok(v) <==> got == Nodes([v]) || (got == Nodes([]) && v == Null)
  {
  }

  /** The strings of a member, which is ignored where it is no object. */
  ghost predicate StringsOf(v: Json, strings: Option<map<string, string>>) {
    && (strings.None? <==> !v.Obj?)
    && (v.Obj? ==>
          && (forall k :: k in strings.value <==> k in v.fields)
          && forall k | k in v.fields :: v.fields[k] == Str(strings.value[k]))
  }

  predicate HoldsOther(v: Json) {
    v.Obj? && exists k | k in v.fields :: !v.fields[k].Str?
  }

  /** The data without what a typed object keeps elsewhere. */
  ghost predicate DataOf(v: Json, data: Json) {
    && v.Obj? && data.Obj?
    && (forall k :: k in data.fields <==> k in v.fields && k != "apiVersion" && k != "kind" && k != "metadata")
    && forall k | k in data.fields :: data.fields[k] == v.fields[k]
  }

  lemma ConversionIsExact(v: Json)
    ensures MapConversion(v).Ok? <==> !HoldsOther(v)
    ensures MapConversion(v).Ok? ==> StringsOf(v, MapConversion(v).value)
    ensures MapConversion(v).Err? ==> MapConversion(v) == Err(Panicked)
  {
  }

  /** What a root replacement makes of any value, member by member, and each of its errors. */
  lemma ReplacementIsExact(subtree: Json, req: Requested)
    ensures var r, metadata := Materialise(subtree, req), Index(subtree, "metadata");
            var typed := Index(subtree, "apiVersion").Str? && Index(subtree, "kind").Str?;
            && (r == Err(MalformedInnerResource("failed to parse apiVersion")) <==> !Index(subtree, "apiVersion").Str?)
            && (r == Err(MalformedInnerResource("failed to parse kind")) <==>
                  Index(subtree, "apiVersion").Str? && !Index(subtree, "kind").Str?)
            && (r == Err(Panicked) <==>
                  typed && (HoldsOther(Index(metadata, "labels")) || HoldsOther(Index(metadata, "annotations"))))
            && (r.Ok? <==> typed && !HoldsOther(Index(metadata, "labels")) && !HoldsOther(Index(metadata, "annotations")))
            && (r.Ok? ==>
                  && r.value.types.Some? && r.value.types.value.kind == Index(subtree, "kind").s
                  && r.value.metadata.name == Some(req.name) && r.value.metadata.namespace == req.namespace
                  && DataOf(subtree, r.value.data)
                  && StringsOf(Index(metadata, "labels"), r.value.metadata.labels)
                  && exists held :: StringsOf(Index(metadata, "annotations"), held) &&
                                    AnnotationsKept(held, r.value.metadata.annotations))
  {
    var metadata := Index(subtree, "metadata");
    ConversionIsExact(Index(metadata, "labels"));
    ConversionIsExact(Index(metadata, "annotations"));
  }

  /** Every way in which one mapping can fail, in the order in which the failures are found. */
  lemma MappingFailsExactlyWhen(
    q: JsonPath, source: DynamicObject, req: Requested, template: DynamicObject, m: Mapping)
    requires template.data.Obj?
    ensures var r, found := ApplyOne(q, source, req, template, m), FindFieldPath(q, source, m.fromFieldPath);
            if found.Err? then r == Err(found.error)
            else if m == Mapping(None, None) then r == Err(MappingEmpty)
            else if m.toFieldPath.None? then r == Materialise(found.value, req)
            else r == WriteField(template, m.toFieldPath.value, found.value)
  {
    if m.toFieldPath.Some? && !InMetadata(m.toFieldPath.value) && FindFieldPath(q, source, m.fromFieldPath).Ok? {
      var found := FindFieldPath(q, source, m.fromFieldPath).value;
      if WriteField(template, m.toFieldPath.value, found).Ok? {
        PutKeepsObject(template.data, Destination(m), found);
      }
    }
  }

  /** The mappings before the `k`th succeed, and on what they made the `k`th fails. */
  predicate FailsAt(
    q: JsonPath, source: DynamicObject, req: Requested, template: DynamicObject, ms: seq<Mapping>, k: nat, e: Error)
  {
    && k < |ms|
    && var made := ApplyAll(q, source, req, template, ms[..k]);
       made.Ok? && ApplyOne(q, source, req, made.value, ms[k]) == Err(e)
  }

  lemma FirstFails(
    q: JsonPath, source: DynamicObject, req: Requested, template: DynamicObject, ms: seq<Mapping>, e: Error)
    requires ms != [] && ApplyOne(q, source, req, template, ms[0]) == Err(e)
    ensures ApplyAll(q, source, req, template, ms) == Err(e)
  {
  }

  lemma FailureStops(
    q: JsonPath, source: DynamicObject, req: Requested, template: DynamicObject, ms: seq<Mapping>, k: nat, e: Error)
    requires FailsAt(q, source, req, template, ms, k, e)
    ensures ApplyAll(q, source, req, template, ms) == Err(e)
  {
    var made := ApplyAll(q, source, req, template, ms[..k]).value;
    FirstFails(q, source, req, made, ms[k..], e);
    ApplyAllSplits(q, source, req, template, ms[..k], ms[k..]);
    assert ms == ms[..k] + ms[k..];
  }

  lemma {:induction false} SomeMappingFails(
    q: JsonPath, source: DynamicObject, req: Requested, template: DynamicObject, ms: seq<Mapping>, e: Error)
    returns (k: nat)
    requires ApplyAll(q, source, req, template, ms) == Err(e)
    ensures FailsAt(q, source, req, template, ms, k, e)
    decreases |ms|
  {
    var last := |ms| - 1;
    var before := ms[..last];
    assert ms == before + [ms[last]] && [ms[last]][1..] == [];
    ApplyAllSplits(q, source, req, template, before, [ms[last]]);
    if ApplyAll(q, source, req, template, before).Ok? {
      k := last;
    } else {
      k := SomeMappingFails(q, source, req, template, before, e);
      assert ms[..k] == before[..k] && ms[k] == before[k];
    }
  }

  /** A list of mappings fails exactly when one of them fails on what those before it made, with
      that one's error; none after it is looked at. */
  lemma FirstFailureDecides(
    q: JsonPath, source: DynamicObject, req: Requested, template: DynamicObject, ms: seq<Mapping>, e: Error)
    ensures ApplyAll(q, source, req, template, ms) == Err(e) <==>
            exists k: nat :: FailsAt(q, source, req, template, ms, k, e)
  {
    if ApplyAll(q, source, req, template, ms) == Err(e) {
      var k := SomeMappingFails(q, source, req, template, ms, e);
    }
    forall k: nat | FailsAt(q, source, req, template, ms, k, e) ensures ApplyAll(q, source, req, template, ms) == Err(e) {
      FailureStops(q, source, req, template, ms, k, e);
    }
  }

  // Identity and shape

  /** The requested identity, and data that repeats nothing of the type or metadata. */
  predicate Shaped(req: Requested, t: DynamicObject) {
    && t.metadata.name == Some(req.name)
    && t.metadata.namespace == req.namespace
    && t.data.Obj?
    && forall k | k in t.data.fields :: k !in RESERVED
  }

  predicate RespectsIdentity(m: Mapping) {
    m.toFieldPath.Some? ==>
      var d := Destination(m);
      && d[0] !in {"apiVersion", "kind"}
      && (d[0] == "metadata" ==> |d| > 1 && d[1] !in {"name", "namespace"})
  }

  /** A metadata write that succeeds changes only the field it names. */
  lemma MetadataWriteTouchesOneField(template: DynamicObject, path: string, subtree: Json)
    requires WriteMetadata(template, path, subtree).Ok?
    ensures var t := WriteMetadata(template, path, subtree).value;
            && t.types == template.types && t.data == template.data
            && forall k | k != Segments(path, '.')[0] :: FieldOf(t.metadata, k) == FieldOf(template.metadata, k)
  {
    var encoded, p := EncodeMeta(template.metadata), Segments(path, '.');
    var written := Put(encoded, p, subtree).value;
    PutKeepsObject(encoded, p, subtree);
    assert written.fields == encoded.fields[p[0] := written.fields[p[0]]];
    DecodeTouchesOneField(template.metadata, p[0], written.fields[p[0]],
                          WriteMetadata(template, path, subtree).value.metadata);
  }

  lemma NameAndNamespaceFields(a: ObjectMeta, b: ObjectMeta)
    ensures FieldOf(a, "name") == FieldOf(b, "name") ==> a.name == b.name
    ensures FieldOf(a, "namespace") == FieldOf(b, "namespace") ==> a.namespace == b.namespace
  {
  }

  lemma StepKeepsShape(q: JsonPath, source: DynamicObject, req: Requested, template: DynamicObject, m: Mapping)
    requires Shaped(req, template) && RespectsIdentity(m)
    ensures var r := ApplyOne(q, source, req, template, m); r.Ok? ==> Shaped(req, r.value)
  {
    if m.toFieldPath.Some? && ApplyOne(q, source, req, template, m).Ok? {
      var to, subtree := m.toFieldPath.value, FindFieldPath(q, source, m.fromFieldPath).value;
      LeadingSegment(to, "metadata", '.');
      assert "metadata" + ['.'] == METADATA_PREFIX;
      if InMetadata(to) {
        var path := to[|METADATA_PREFIX|..];
        MetadataWriteTouchesOneField(template, path, subtree);
        NameAndNamespaceFields(WriteMetadata(template, path, subtree).value.metadata, template.metadata);
      } else {
        PutKeepsObject(template.data, Segments(to, '.'), subtree);
      }
    }
  }

  /** Identity and shape survive any successful list of mappings that does not aim at them,
      root replacements included. */
  lemma {:induction false} ShapeSurvives(
    q: JsonPath, source: DynamicObject, req: Requested, template: DynamicObject, ms: seq<Mapping>)
    requires Shaped(req, template)
    requires forall i | 0 <= i < |ms| :: RespectsIdentity(ms[i])
    requires ApplyAll(q, source, req, template, ms).Ok?
    ensures Shaped(req, ApplyAll(q, source, req, template, ms).value)
    decreases ms
  {
    if ms != [] {
      StepKeepsShape(q, source, req, template, ms[0]);
      ShapeSurvives(q, source, req, ApplyOne(q, source, req, template, ms[0]).value, ms[1..]);
    }
  }

  lemma TargetIsShaped(q: JsonPath, source: DynamicObject, req: Requested, ar: ApiResource, ms: seq<Mapping>)
    requires forall i | 0 <= i < |ms| :: RespectsIdentity(ms[i])
    ensures var r := ApplyAll(q, source, req, FreshTemplate(req, ar), ms); r.Ok? ==> Shaped(req, r.value)
  {
    if ApplyAll(q, source, req, FreshTemplate(req, ar), ms).Ok? {
      ShapeSurvives(q, source, req, FreshTemplate(req, ar), ms);
    }
  }

  // Reading back and embedding, under RFC 9535 for member names

  predicate PlainChar(c: char) {
    'a' <= c <= 'z' || 'A' <= c <= 'Z' || c == '_' || '0' <= c <= '9'
  }

  /** A member name that needs no quotes (section 2.5.1.1 of RFC 9535, ASCII part). */
  predicate PlainName(s: string) {
    && s != [] && !('0' <= s[0] <= '9')
    && forall i | 0 <= i < |s| :: PlainChar(s[i])
  }

  predicate PlainNames(names: Path) {
    forall i | 0 <= i < |names| :: PlainName(names[i])
  }

  function MemberExpression(names: Path): string {
    if names == [] then "$" else "$." + Join(names, '.')
  }

  function Selected(o: Option<Json>): QueryResult {
    if o.None? then Nodes([]) else Nodes([o.value])
  }

  /** A chain of plain member names selects the value at that path, or nothing. */
  ghost predicate MemberNamesSelect(q: JsonPath) {
    forall v: Json, names: Path | PlainNames(names) ::
      q(MemberExpression(names), v) == Selected(Get(v, names))
  }

  function OrNull(o: Option<Json>): Json {
    if o.None? then Null else o.value
  }

  lemma FindAtNames(q: JsonPath, o: DynamicObject, from: Option<string>, names: Path)
    requires MemberNamesSelect(q) && PlainNames(names) && ToValue(o).Ok?
    requires names == [] ==> from.None? || from.value == ""
    requires names != [] ==> from == Some(Join(names, '.'))
    ensures FindFieldPath(q, o, from) == Ok(OrNull(Get(ToValue(o).value, names)))
  {
    if names != [] {
      assert names[0] <= Join(names, '.') && names[0] != [];
      assert from.value != "";
    }
    assert Expression(from) == MemberExpression(names);
  }

  lemma PlainNamesAreSegments(path: string)
    requires PlainNames(Segments(path, '.'))
    ensures path == Join(Segments(path, '.'), '.')
  {
    JoinOfSegments(path, '.');
  }

  /** What a mapping put at a plain data path is what the same path selects from the target. */
  lemma WrittenValueIsFound(q: JsonPath, template: DynamicObject, path: string, subtree: Json)
    requires MemberNamesSelect(q) && PlainNames(Segments(path, '.'))
    requires template.data.Obj? && !InMetadata(path)
    requires WriteField(template, path, subtree).Ok?
    ensures FindFieldPath(q, WriteField(template, path, subtree).value, Some(path)) == Ok(subtree)
  {
    var t, p := WriteField(template, path, subtree).value, Segments(path, '.');
    PutKeepsObject(template.data, p, subtree);
    GetAfterPut(template.data, p, subtree);
    PlainNamesAreSegments(path);
    FindAtNames(q, t, Some(path), p);
    assert ToValue(t).value.fields[p[0]] == t.data.fields[p[0]];
  }

  /** No separator, or one with something before it. */
  predicate CanonicalApiVersion(apiVersion: string) {
    var terms := Segments(apiVersion, '/');
    |terms| == 1 || (|terms| == 2 && terms[0] != "")
  }

  /** Splitting an API version and printing group and version gives it back exactly when it
      is canonical. */
  lemma ApiVersionRoundTrip(subtree: Json)
    requires Index(subtree, "apiVersion").Str? && Index(subtree, "kind").Str?
    ensures GetArFromSubtree(subtree).Ok?
    ensures GetArFromSubtree(subtree).value.apiVersion == Index(subtree, "apiVersion").s
        <==> CanonicalApiVersion(Index(subtree, "apiVersion").s)
  {
    var s := Index(subtree, "apiVersion").s;
    var terms := Segments(s, '/');
    JoinOfSegments(s, '/');
    var ar := GetArFromSubtree(subtree).value;
    if |terms| == 1 {
    } else if |terms| == 2 {
      assert Join(terms[1..], '/') == terms[1];
      assert s == terms[0] + ['/'] + terms[1];
      if terms[0] == "" {
        assert |s| == 1 + |terms[1]|;
      }
    } else {
      ApiVersionIsLonger(terms);
    }
  }

  /** The version is what comes after the last slash and the group what stands between it and the
      slash before, if there is one. */
  lemma LastTwoTerms(subtree: Json)
    requires GetArFromSubtree(subtree).Ok?
    ensures var s, ar := Index(subtree, "apiVersion").s, GetArFromSubtree(subtree).value;
            && '/' !in ar.version && '/' !in ar.group
            && if '/' !in s then ar.group == "" && ar.version == s
               else exists lead: string :: s == lead + ar.group + "/" + ar.version && (lead == "" || lead[|lead| - 1] == '/')
  {
    var s := Index(subtree, "apiVersion").s;
    var terms := Segments(s, '/');
    JoinOfSegments(s, '/');
    if |terms| > 1 {
      var lead := EndsWithLastTwo(terms);
      var ar := GetArFromSubtree(subtree).value;
      assert s == lead + ar.group + "/" + ar.version;
    }
  }

  lemma {:induction false} EndsWithLastTwo(terms: seq<string>) returns (lead: string)
    requires |terms| > 1
    ensures Join(terms, '/') == lead + terms[|terms| - 2] + "/" + terms[|terms| - 1]
    ensures lead == "" || lead[|lead| - 1] == '/'
    decreases terms
  {
    var tail := terms[1..];
    if |tail| == 1 {
      lead := "";
      assert Join(tail, '/') == tail[0];
    } else {
      lead := EndsWithLastTwo(tail);
      lead := terms[0] + "/" + lead;
    }
  }

  /** Three or more terms print longer than the last two. */
  lemma {:induction false} ApiVersionIsLonger(terms: seq<string>)
    requires |terms| > 2
    ensures |Join(terms, '/')| > |terms[|terms| - 2]| + 1 + |terms[|terms| - 1]|
    decreases terms
  {
    var tail := terms[1..];
    if |tail| > 2 {
      ApiVersionIsLonger(tail);
    } else {
      assert Join(tail[1..], '/') == tail[1];
      assert Join(tail, '/') == tail[0] + ['/'] + tail[1];
    }
  }

  lemma ConvertOfEncode(metadata: ObjectMeta)
    ensures ConvertMetadata(EncodeMeta(metadata)) ==
            Ok(NO_META.(annotations := metadata.annotations, labels := metadata.labels))
  {
    var v := EncodeMeta(metadata);
    assert Lookup(v.fields, "labels") == OfMap(metadata.labels);
    assert Lookup(v.fields, "annotations") == OfMap(metadata.annotations);
    FieldsRoundTrip(None, None, metadata.labels);
    FieldsRoundTrip(None, None, metadata.annotations);
    assert MapConversion(Index(v, "labels")) == Ok(metadata.labels);
    assert MapConversion(Index(v, "annotations")) == Ok(metadata.annotations);
  }

  /** Where a serialised object keeps its parts. */
  lemma PartsOfToValue(o: DynamicObject)
    requires Typed(o)
    ensures var v := ToValue(o).value;
            && Index(v, "apiVersion") == Str(o.types.value.apiVersion)
            && Index(v, "kind") == Str(o.types.value.kind)
            && Index(v, "metadata") == EncodeMeta(o.metadata)
            && Cleaned(v) == o.data
  {
    assert ToValue(o).value.fields - RESERVED == o.data.fields;
  }

  /** Taking a serialised object apart again gives back its labels, annotations and data. */
  lemma MaterialiseOfToValue(o: DynamicObject, req: Requested, ar: ApiResource)
    requires Typed(o) && GetArFromSubtree(ToValue(o).value) == Ok(ar)
    ensures var r := Materialise(ToValue(o).value, req);
            r == Ok(CloneResource(o, req, ar)) && IsClone(r.value, o, req, ar)
  {
    PartsOfToValue(o);
    ConvertOfEncode(o.metadata);
  }

  const EMBED: Mapping := Mapping(None, Some("spec"))
  const MATERIALISE: Mapping := Mapping(Some("spec"), None)

  lemma SpecIsPlain()
    ensures Segments("spec", '.') == ["spec"] && PlainNames(["spec"]) && Join(["spec"], '.') == "spec"
    ensures !InMetadata("spec")
  {
    assert "spec"[0] == 's' && METADATA_PREFIX[0] == 'm';
    assert SplitOnce("spec", '.').None?;
  }

  /** Embedding a whole source in `spec` puts its serialisation there. */
  lemma EmbedHoldsTheSource(q: JsonPath, source: DynamicObject, req: Requested, ar: ApiResource)
    requires MemberNamesSelect(q) && Typed(source)
    ensures ApplyAll(q, source, req, FreshTemplate(req, ar), [EMBED]) ==
            Ok(FreshTemplate(req, ar).(data := Obj(map["spec" := ToValue(source).value])))
  {
    SpecIsPlain();
    FindAtNames(q, source, None, []);
    var template, v := FreshTemplate(req, ar), ToValue(source).value;
    assert Put(template.data, ["spec"], v) == Some(Obj(map["spec" := v])) by {
      assert ["spec"][1..] == [];
      assert EMPTY_OBJECT.fields["spec" := v] == map["spec" := v];
    }
    assert [EMBED][1..] == [];
  }

  lemma SpecIsFound(q: JsonPath, container: DynamicObject)
    requires MemberNamesSelect(q)
    requires container.data.Obj? && "spec" in container.data.fields
    ensures FindFieldPath(q, container, Some("spec")) == Ok(container.data.fields["spec"])
  {
    SpecIsPlain();
    FindAtNames(q, container, Some("spec"), ["spec"]);
    assert ["spec"][1..] == [];
  }

  /** Embedding a source in a container and materialising the container's `spec` is cloning
      the source, and gives it the source's own type exactly when its API version is canonical.
      The container may have been stored in between: only its `spec` matters. */
  lemma EmbedThenMaterialise(
    q: JsonPath, source: DynamicObject, container: DynamicObject, req: Requested, ar: ApiResource)
    requires MemberNamesSelect(q) && Typed(source)
    requires container.data.Obj? && "spec" in container.data.fields
    requires container.data.fields["spec"] == ToValue(source).value
    ensures var r := ApplyAll(q, container, req, FreshTemplate(req, ar), [MATERIALISE]);
            var parsed := GetArFromSubtree(ToValue(source).value);
            && parsed.Ok? && parsed.value.kind == source.types.value.kind
            && r == Ok(CloneResource(source, req, parsed.value))
            && IsClone(r.value, source, req, parsed.value)
            && (r.value.types == source.types <==> CanonicalApiVersion(source.types.value.apiVersion))
  {
    var v := ToValue(source).value;
    SpecIsFound(q, container);
    PartsOfToValue(source);
    ApiVersionRoundTrip(v);
    MaterialiseOfToValue(source, req, GetArFromSubtree(v).value);
    assert [MATERIALISE][1..] == [];
  }

  /** Materialising an embedded object of a canonical version succeeds whatever type was asked
      for, and the target gets the embedded one. */
  lemma OtherTypesAreAccepted(
    q: JsonPath, source: DynamicObject, container: DynamicObject, req: Requested, ar: ApiResource)
    requires MemberNamesSelect(q) && Typed(source) && CanonicalApiVersion(source.types.value.apiVersion)
    requires container.data.Obj? && "spec" in container.data.fields
    requires container.data.fields["spec"] == ToValue(source).value
    requires source.types != TypeOf(ar)
    ensures var r := ApplyAll(q, container, req, FreshTemplate(req, ar), [MATERIALISE]);
            r.Ok? && r.value.types == source.types && r.value.types != TypeOf(ar)
  {
    EmbedThenMaterialise(q, source, container, req, ar);
  }

  /** Both steps together, against a direct clone of a source of the target's own kind. */
  lemma EmbedThenMaterialiseIsClone(
    q: JsonPath, source: DynamicObject, box: Requested, boxAr: ApiResource, req: Requested, ar: ApiResource)
    requires MemberNamesSelect(q) && Typed(source)
    requires source.types == Some(TypeMeta(ar.apiVersion, ar.kind))
    ensures var container := ApplyAll(q, source, box, FreshTemplate(box, boxAr), [EMBED]);
            && container.Ok?
            && (ApplyAll(q, container.value, req, FreshTemplate(req, ar), [MATERIALISE])
                == Ok(CloneResource(source, req, ar))
                <==> CanonicalApiVersion(ar.apiVersion))
  {
    EmbedHoldsTheSource(q, source, box, boxAr);
    var container := ApplyAll(q, source, box, FreshTemplate(box, boxAr), [EMBED]).value;
    EmbedThenMaterialise(q, source, container, req, ar);
  }
}
