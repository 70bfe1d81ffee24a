/** What a mapping below `metadata.` does to the metadata of the target. */
module MetadataWrites {
  import opened Wrappers
  import opened JsonTree
  import opened DotPath
  import opened Objects
  import opened Mapping
  import opened MappingLaws

  /** The values a metadata field accepts; null leaves it out, and a key that names no field
      accepts anything. */
  predicate WellTyped(key: string, v: Json) {
    v.Null? ||
    if key in {"name", "namespace", "uid", "resourceVersion"} then v.Str?
    else if key == "finalizers" then v.Arr? && forall i | 0 <= i < |v.items| :: v.items[i].Str?
    else if key in {"labels", "annotations"} then v.Obj? && forall k | k in v.fields :: v.fields[k].Str?
    else true
  }

  /** Each field is encoded under its own name, and nothing else is. */
  lemma FieldsByName(m: ObjectMeta)
    ensures EncodeMeta(m).Obj? && EncodeMeta(m).fields.Keys <= META_KEYS
    ensures var f := EncodeMeta(m).fields;
            && Lookup(f, "name") == OfString(m.name) && Lookup(f, "namespace") == OfString(m.namespace)
            && Lookup(f, "uid") == OfString(m.uid) && Lookup(f, "resourceVersion") == OfString(m.resourceVersion)
            && Lookup(f, "finalizers") == OfList(m.finalizers)
            && Lookup(f, "labels") == OfMap(m.labels) && Lookup(f, "annotations") == OfMap(m.annotations)
  {
  }

  lemma EncodedIsWellTyped(m: ObjectMeta, key: string)
    requires key in EncodeMeta(m).fields
    ensures key in META_KEYS && WellTyped(key, EncodeMeta(m).fields[key]) && !EncodeMeta(m).fields[key].Null?
  {
  }

  /** Metadata decodes exactly when every member is well typed. */
  lemma DecodesExactlyWhenTyped(fields: map<string, Json>)
    ensures DecodeMeta(Obj(fields)).Ok? <==> forall k | k in fields :: WellTyped(k, fields[k])
  {
    if DecodeMeta(Obj(fields)).Ok? {
      forall k | k in fields ensures WellTyped(k, fields[k]) {
        assert Lookup(fields, k) == Some(fields[k]);
      }
    } else {
      assert exists k | k in META_KEYS :: k in fields && !WellTyped(k, fields[k]);
    }
  }

  lemma ListOfField(v: Json)
    requires WellTyped("finalizers", v) && !v.Null?
    ensures ToList(Some(v)).Ok? && OfList(ToList(Some(v)).value) == Some(v)
  {
    assert OfList(ToList(Some(v)).value).value.items == v.items;
  }

  lemma MapOfField(v: Json)
    requires WellTyped("labels", v) && !v.Null?
    ensures ToMap(Some(v)).Ok? && OfMap(ToMap(Some(v)).value) == Some(v)
  {
    assert OfMap(ToMap(Some(v)).value).value.fields == v.fields;
  }

  /** A member that is decoded and encoded again is what it was. */
  lemma FieldComesBack(fields: map<string, Json>, m: ObjectMeta, key: string)
    requires DecodeMeta(Obj(fields)) == Ok(m) && key in META_KEYS
    ensures FieldOf(m, key) == if key in fields && !fields[key].Null? then Some(fields[key]) else None
  {
    DecodesExactlyWhenTyped(fields);
    if key in fields && !fields[key].Null? {
      if key == "finalizers" {
        ListOfField(fields[key]);
      } else if key in {"labels", "annotations"} {
        MapOfField(fields[key]);
      }
    }
  }

  /** The member of the metadata that a path below `metadata.` aims at. */
  function Field(path: string): string {
    Segments(path, '.')[0]
  }

  /** The JSON of the metadata after the write, where nothing is in its way. */
  function WrittenMeta(template: DynamicObject, path: string, v: Json): Option<Json> {
    Put(EncodeMeta(template.metadata), Segments(path, '.'), v)
  }

  /** A metadata write fails exactly when something that is no object is in its way, or when the
      field would get a value of another type. */
  lemma MetadataWriteFailsExactlyWhen(template: DynamicObject, path: string, v: Json)
    ensures var r, written := WriteMetadata(template, path, v), WrittenMeta(template, path, v);
            && (r == Err(AddToPath(EncodeMeta(template.metadata))) <==> written.None?)
            && (written.Some? ==> written.value.Obj? && Field(path) in written.value.fields)
            && (r == Err(SerializationError) <==>
                  written.Some? && !WellTyped(Field(path), written.value.fields[Field(path)]))
            && (r.Ok? <==> written.Some? && WellTyped(Field(path), written.value.fields[Field(path)]))
  {
    var encoded, written := EncodeMeta(template.metadata), WrittenMeta(template, path, v);
    if written.Some? {
      PutKeepsObject(encoded, Segments(path, '.'), v);
      DecodesExactlyWhenTyped(written.value.fields);
      forall k | k in written.value.fields && k != Field(path) ensures WellTyped(k, written.value.fields[k]) {
        EncodedIsWellTyped(template.metadata, k);
      }
    }
  }

  /** The members that metadata keeps of a JSON object. */
  function Kept(fields: map<string, Json>): map<string, Json> {
    map k | k in fields && k in META_KEYS && !fields[k].Null? :: fields[k]
  }

  lemma EncodeOfDecode(fields: map<string, Json>, m: ObjectMeta)
    requires DecodeMeta(Obj(fields)) == Ok(m)
    ensures EncodeMeta(m) == Obj(Kept(fields))
  {
    forall k | k in META_KEYS
      ensures FieldOf(m, k) == if k in fields && !fields[k].Null? then Some(fields[k]) else None
    {
      FieldComesBack(fields, m, k);
    }
    assert EncodeMeta(m).fields == Kept(fields);
  }

  lemma KeptOfUpdate(fields: map<string, Json>, key: string, v: Json)
    requires Kept(fields) == fields
    ensures Kept(fields[key := v]) ==
            if key !in META_KEYS then fields else if v.Null? then fields - {key} else fields[key := v]
  {
  }

  lemma KeptOfEncoded(m: ObjectMeta)
    ensures Kept(EncodeMeta(m).fields) == EncodeMeta(m).fields
  {
    MetaRoundTrip(m);
    EncodeOfDecode(EncodeMeta(m).fields, m);
  }

  lemma EncodingIsInjective(a: ObjectMeta, b: ObjectMeta)
    requires EncodeMeta(a) == EncodeMeta(b)
    ensures a == b
  {
    MetaRoundTrip(a);
    MetaRoundTrip(b);
  }

  /** A metadata write that succeeds does to the JSON of the metadata just what the same write does
      to any JSON, except that a null takes the field away and an unknown field is ignored. */
  lemma MetadataWriteIsWrite(template: DynamicObject, path: string, v: Json)
    requires WriteMetadata(template, path, v).Ok?
    ensures WrittenMeta(template, path, v).Some? && WrittenMeta(template, path, v).value.Obj?
    ensures Field(path) in WrittenMeta(template, path, v).value.fields
    ensures var t, written := WriteMetadata(template, path, v).value, WrittenMeta(template, path, v).value;
            && t.types == template.types && t.data == template.data
            && if Field(path) !in META_KEYS then t.metadata == template.metadata
               else if written.fields[Field(path)].Null? then
                 EncodeMeta(t.metadata) == Obj(EncodeMeta(template.metadata).fields - {Field(path)})
               else EncodeMeta(t.metadata) == written
  {
    var encoded, written := EncodeMeta(template.metadata), WrittenMeta(template, path, v).value;
    var metadata := WriteMetadata(template, path, v).value.metadata;
    PutKeepsObject(encoded, Segments(path, '.'), v);
    assert written.fields == encoded.fields[Field(path) := written.fields[Field(path)]];
    EncodeOfDecode(written.fields, metadata);
    KeptOfEncoded(template.metadata);
    KeptOfUpdate(encoded.fields, Field(path), written.fields[Field(path)]);
    if Field(path) !in META_KEYS {
      EncodingIsInjective(metadata, template.metadata);
    }
  }

  /** Null is accepted in place of a whole field and nowhere below it. */
  lemma NullOnlyAsField(template: DynamicObject, path: string, v: Json)
    requires WrittenMeta(template, path, v).Some? && Field(path) in META_KEYS
    ensures var written, p := WrittenMeta(template, path, v).value, Segments(path, '.');
            && written.Obj? && p[0] in written.fields
            && (|p| == 1 ==> written.fields[p[0]] == v)
            && (|p| > 1 ==> written.fields[p[0]].Obj?)
            && (|p| > 1 && v.Null? ==> !WellTyped(p[0], written.fields[p[0]]))
  {
    var encoded, p := EncodeMeta(template.metadata), Segments(path, '.');
    var child := Put(ChildOrNew(encoded, p[0]), p[1..], v).value;
    assert WrittenMeta(template, path, v).value.fields[p[0]] == child;
    if |p| > 1 {
      PutKeepsObject(ChildOrNew(encoded, p[0]), p[1..], v);
      if |p| == 2 {
        assert p[1..][1..] == [];
      } else {
        PutKeepsObject(ChildOrNew(ChildOrNew(encoded, p[0]), p[1]), p[1..][1..], v);
      }
      assert !child.fields[p[1]].Str? || !v.Null?;
    }
  }

  /** `after` reads `found` at the path and as `before` everywhere else. */
  ghost predicate ReadsAt(before: Json, after: Json, p: Path, found: Option<Json>) {
    Get(after, p) == found && forall q | Incomparable(p, q) :: Get(after, q) == Get(before, q)
  }

  lemma WriteIsRead(before: Json, p: Path, v: Json)
    requires Put(before, p, v).Some?
    ensures ReadsAt(before, Put(before, p, v).value, p, Some(v))
  {
    GetAfterPut(before, p, v);
    forall q | Incomparable(p, q) ensures Get(Put(before, p, v).value, q) == Get(before, q) {
      PutFrame(before, p, v, q);
    }
  }

  lemma RemovalIsRead(before: Json, key: string)
    requires before.Obj?
    ensures ReadsAt(before, Obj(before.fields - {key}), [key], None)
  {
    forall q: Path | Incomparable([key], q)
      ensures Get(Obj(before.fields - {key}), q) == Get(before, q)
    {
      IncomparableTails([key], q);
    }
  }

  /** Read after write: what is written below `metadata.` is read there, and what lies elsewhere is
      read as before. */
  lemma MetadataWriteIsRead(template: DynamicObject, path: string, v: Json)
    requires WriteMetadata(template, path, v).Ok? && Field(path) in META_KEYS
    ensures ReadsAt(EncodeMeta(template.metadata), EncodeMeta(WriteMetadata(template, path, v).value.metadata),
                    Segments(path, '.'), if v.Null? then None else Some(v))
  {
    MetadataWriteIsWrite(template, path, v);
    MetadataWriteFailsExactlyWhen(template, path, v);
    NullOnlyAsField(template, path, v);
    if v.Null? {
      assert Segments(path, '.') == [Field(path)];
      RemovalIsRead(EncodeMeta(template.metadata), Field(path));
    } else {
      WriteIsRead(EncodeMeta(template.metadata), Segments(path, '.'), v);
    }
  }

  function OrEmpty(held: Option<map<string, string>>): map<string, string> {
    if held.None? then map[] else held.value
  }

  /** One member set in the JSON of a map of strings is one entry set in the map. */
  lemma EntryIsSet(held: Option<map<string, string>>, kept: Option<map<string, string>>, key: string, v: Json)
    requires OfMap(kept) == Some(Obj(OfMap(Some(OrEmpty(held))).value.fields[key := v]))
    ensures v.Str? && kept == Some(OrEmpty(held)[key := v.s])
  {
    var fields := OfMap(kept).value.fields;
    assert fields[key] == v;
    forall k | k in kept.value && k != key ensures k in OrEmpty(held) && kept.value[k] == OrEmpty(held)[k] {
      assert fields[k] == Str(kept.value[k]);
    }
    forall k | k in OrEmpty(held) ensures k in kept.value {
      assert k in fields;
    }
    assert kept.value == OrEmpty(held)[key := v.s];
  }

  lemma LabelsAreWritten(template: DynamicObject, path: string, key: string, v: Json)
    requires WriteMetadata(template, path, v).Ok? && Segments(path, '.') == ["labels", key]
    ensures var labels := template.metadata.labels;
            OfMap(WriteMetadata(template, path, v).value.metadata.labels)
            == Some(Obj(OfMap(Some(OrEmpty(labels))).value.fields[key := v]))
  {
    var before := EncodeMeta(template.metadata);
    MetadataWriteIsWrite(template, path, v);
    NullOnlyAsField(template, path, v);
    FieldsByName(template.metadata);
    FieldsByName(WriteMetadata(template, path, v).value.metadata);
    assert ["labels", key][1..] == [key] && [key][1..] == [];
    var child := ChildOrNew(before, "labels");
    assert child == OfMap(Some(OrEmpty(template.metadata.labels))).value;
    assert Put(child, [key], v) == Some(Obj(child.fields[key := v]));
    assert EncodeMeta(WriteMetadata(template, path, v).value.metadata).fields["labels"] == Obj(child.fields[key := v]);
  }

  /** A mapping to one label sets that label to the string it selects, keeps the others, and leaves
      all other metadata as it was. */
  lemma LabelIsSet(template: DynamicObject, path: string, key: string, v: Json)
    requires WriteMetadata(template, path, v).Ok? && Segments(path, '.') == ["labels", key]
    ensures var t := WriteMetadata(template, path, v).value;
            && v.Str? && t.metadata.labels == Some(OrEmpty(template.metadata.labels)[key := v.s])
            && t.metadata == template.metadata.(labels := t.metadata.labels)
  {
    LabelsAreWritten(template, path, key, v);
    EntryIsSet(template.metadata.labels, WriteMetadata(template, path, v).value.metadata.labels, key, v);
    OtherFields(template, path, v);
  }

  lemma OtherFields(template: DynamicObject, path: string, v: Json)
    requires WriteMetadata(template, path, v).Ok? && Field(path) == "labels"
    ensures var m := WriteMetadata(template, path, v).value.metadata; m == template.metadata.(labels := m.labels)
  {
    var m := WriteMetadata(template, path, v).value.metadata;
    MetadataWriteTouchesOneField(template, path, v);
    MetaRoundTrip(m);
    MetaRoundTrip(template.metadata);
    forall key | key in META_KEYS && key != "labels"
      ensures Lookup(EncodeMeta(m).fields, key) == Lookup(EncodeMeta(template.metadata).fields, key)
    {
      assert FieldOf(m, key) == FieldOf(template.metadata, key);
    }
  }

  /** Where a target keeps what is written at a path of its JSON: in a known field of the metadata,
      not hidden by a data member of that name, or in the data. */
  predicate Readable(t: DynamicObject, to: string) {
    && t.data.Obj?
    && (InMetadata(to) ==> Field(to[|METADATA_PREFIX|..]) in META_KEYS && "metadata" !in t.data.fields)
  }

  lemma SegmentsBelowMetadata(to: string)
    requires InMetadata(to)
    ensures Segments(to, '.') == ["metadata"] + Segments(to[|METADATA_PREFIX|..], '.')
  {
    LeadingSegment(to, "metadata", '.');
    assert "metadata" + ['.'] == METADATA_PREFIX;
  }

  /** A write goes to the metadata exactly when its path has more segments after `metadata`, and to
      the data otherwise. The other of the two stays as it was. */
  lemma WritesGoWhereTheyAim(template: DynamicObject, to: string, v: Json)
    requires WriteField(template, to, v).Ok?
    ensures var t, p := WriteField(template, to, v).value, Segments(to, '.');
            && t.types == template.types
            && if p[0] == "metadata" && |p| > 1 then
                 && t.data == template.data
                 && exists path :: p == ["metadata"] + Segments(path, '.') && WriteMetadata(template, path, v) == Ok(t)
               else t.metadata == template.metadata && Put(template.data, p, v) == Some(t.data)
  {
    LeadingSegment(to, "metadata", '.');
    assert "metadata" + ['.'] == METADATA_PREFIX;
    if InMetadata(to) {
      SegmentsBelowMetadata(to);
    }
  }

  lemma MetadataInJson(t: DynamicObject, p: Path)
    requires t.data.Obj? && "metadata" !in t.data.fields
    ensures Get(ToValue(t).value, ["metadata"] + p) == Get(EncodeMeta(t.metadata), p)
  {
    assert (["metadata"] + p)[1..] == p;
    assert ToValue(t).value.fields["metadata"] == EncodeMeta(t.metadata);
  }

  lemma WrittenMetadataIsFound(q: JsonPath, template: DynamicObject, to: string, v: Json)
    requires MemberNamesSelect(q) && PlainNames(Segments(to, '.')) && InMetadata(to)
    requires WriteField(template, to, v).Ok? && Readable(WriteField(template, to, v).value, to)
    ensures FindFieldPath(q, WriteField(template, to, v).value, Some(to)) == Ok(v)
  {
    var t, path := WriteField(template, to, v).value, to[|METADATA_PREFIX|..];
    SegmentsBelowMetadata(to);
    MetadataWriteIsRead(template, path, v);
    PlainNamesAreSegments(to);
    FindAtNames(q, t, Some(to), Segments(to, '.'));
    MetadataInJson(t, Segments(path, '.'));
  }

  /** After any list of mappings that succeeds, what the last of them selected in the source is what
      its plain destination selects in the target, in the metadata or in the data. */
  lemma LastMappingIsFound(
    q: JsonPath, source: DynamicObject, req: Requested, ar: ApiResource, before: seq<Mapping>, m: Mapping)
    requires MemberNamesSelect(q) && m.toFieldPath.Some? && PlainNames(Destination(m))
    ensures var r := ApplyAll(q, source, req, FreshTemplate(req, ar), before + [m]);
            r.Ok? && Readable(r.value, m.toFieldPath.value) ==>
              FindFieldPath(q, r.value, m.toFieldPath) == FindFieldPath(q, source, m.fromFieldPath)
  {
    var template, to := FreshTemplate(req, ar), m.toFieldPath.value;
    ApplyAllSplits(q, source, req, template, before, [m]);
    assert [m][1..] == [];
    var r := ApplyAll(q, source, req, template, before + [m]);
    if r.Ok? && Readable(r.value, to) {
      DataStaysAnObject(q, source, req, template, before);
      var next := ApplyAll(q, source, req, template, before).value;
      var found := FindFieldPath(q, source, m.fromFieldPath).value;
      assert r == WriteField(next, to, found);
      if InMetadata(to) {
        WrittenMetadataIsFound(q, next, to, found);
      } else {
        WrittenValueIsFound(q, next, to, found);
      }
    }
  }
}
