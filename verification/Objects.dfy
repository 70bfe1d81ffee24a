/** Typed Kubernetes objects and their JSON form. */
module Objects {
  import opened Wrappers
  import opened JsonTree
  import opened DotPath

  /** The metadata fields this model carries; an absent field is `None`. */
  datatype ObjectMeta = ObjectMeta(
    name: Option<string>,
    namespace: Option<string>,
    uid: Option<string>,
    resourceVersion: Option<string>,
    finalizers: Option<seq<string>>,
    labels: Option<map<string, string>>,
    annotations: Option<map<string, string>>)

  const NO_META: ObjectMeta := ObjectMeta(None, None, None, None, None, None, None)

  datatype TypeMeta = TypeMeta(apiVersion: string, kind: string)

  datatype DynamicObject = DynamicObject(types: Option<TypeMeta>, metadata: ObjectMeta, data: Json)

  datatype ApiResource = ApiResource(group: string, version: string, apiVersion: string, kind: string)

  function FromGvk(group: string, version: string, kind: string): ApiResource {
    ApiResource(group, version, if group == "" then version else group + "/" + version, kind)
  }

  function NewObject(name: string, ar: ApiResource): DynamicObject {
    DynamicObject(Some(TypeMeta(ar.apiVersion, ar.kind)), NO_META.(name := Some(name)), Null)
  }

  // Metadata to JSON

  const META_KEYS: set<string> :=
    {"name", "namespace", "uid", "resourceVersion", "finalizers", "labels", "annotations"}

  function OfString(o: Option<string>): Option<Json> {
    if o.None? then None else Some(Str(o.value))
  }

  function OfList(o: Option<seq<string>>): Option<Json> {
    if o.None? then None else Some(Arr(seq(|o.value|, i requires 0 <= i < |o.value| => Str(o.value[i]))))
  }

  function OfMap(o: Option<map<string, string>>): Option<Json> {
    if o.None? then None else Some(Obj(map k | k in o.value :: Str(o.value[k])))
  }

  /** The JSON of one metadata field, `None` where it is left out. */
  function FieldOf(m: ObjectMeta, key: string): Option<Json> {
    if key == "name" then OfString(m.name)
    else if key == "namespace" then OfString(m.namespace)
    else if key == "uid" then OfString(m.uid)
    else if key == "resourceVersion" then OfString(m.resourceVersion)
    else if key == "finalizers" then OfList(m.finalizers)
    else if key == "labels" then OfMap(m.labels)
    else if key == "annotations" then OfMap(m.annotations)
    else None
  }

  function EncodeMeta(m: ObjectMeta): Json {
    Obj(map k | k in META_KEYS && FieldOf(m, k).Some? :: FieldOf(m, k).value)
  }

  // JSON to metadata: a missing or null field is `None`, a wrong type is an error, and a key
  // that names no field is ignored.

  function ToString(o: Option<Json>): Result<Option<string>, ()> {
    match o
    case None => Ok(None)
    case Some(Null) => Ok(None)
    case Some(Str(s)) => Ok(Some(s))
    case _ => Err(())
  }

  function ToList(o: Option<Json>): Result<Option<seq<string>>, ()> {
    match o
    case None => Ok(None)
    case Some(Null) => Ok(None)
    case Some(Arr(items)) =>
      if forall i | 0 <= i < |items| :: items[i].Str? then
        Ok(Some(seq(|items|, i requires 0 <= i < |items| && items[i].Str? => items[i].s)))
      else Err(())
    case _ => Err(())
  }

  function ToMap(o: Option<Json>): Result<Option<map<string, string>>, ()> {
    match o
    case None => Ok(None)
    case Some(Null) => Ok(None)
    case Some(Obj(fields)) =>
      if forall k | k in fields :: fields[k].Str? then Ok(Some(map k | k in fields :: fields[k].s))
      else Err(())
    case _ => Err(())
  }

  function Lookup(fields: map<string, Json>, key: string): Option<Json> {
    if key in fields then Some(fields[key]) else None
  }

  function DecodeMeta(v: Json): Result<ObjectMeta, ()> {
    if !v.Obj? then Err(())
    else
      match (ToString(Lookup(v.fields, "name")), ToString(Lookup(v.fields, "namespace")),
             ToString(Lookup(v.fields, "uid")), ToString(Lookup(v.fields, "resourceVersion")),
             ToList(Lookup(v.fields, "finalizers")), ToMap(Lookup(v.fields, "labels")),
             ToMap(Lookup(v.fields, "annotations")))
      case (Ok(name), Ok(namespace), Ok(uid), Ok(rv), Ok(finalizers), Ok(labels), Ok(annotations)) =>
        Ok(ObjectMeta(name, namespace, uid, rv, finalizers, labels, annotations))
      case _ => Err(())
  }

  lemma FieldsRoundTrip(s: Option<string>, l: Option<seq<string>>, m: Option<map<string, string>>)
    ensures ToString(OfString(s)) == Ok(s)
    ensures ToList(OfList(l)) == Ok(l)
    ensures ToMap(OfMap(m)) == Ok(m)
  {
    if l.Some? {
      var items := OfList(l).value.items;
      assert seq(|items|, i requires 0 <= i < |items| && items[i].Str? => items[i].s) == l.value;
    }
    if m.Some? {
      var fields := OfMap(m).value.fields;
      assert (map k | k in fields :: fields[k].s) == m.value;
    }
  }

  lemma MetaRoundTrip(m: ObjectMeta)
    ensures DecodeMeta(EncodeMeta(m)) == Ok(m)
  {
    var fields := EncodeMeta(m).fields;
    forall k | k in META_KEYS ensures Lookup(fields, k) == FieldOf(m, k) {}
    FieldsRoundTrip(m.name, m.finalizers, m.labels);
    FieldsRoundTrip(m.namespace, m.finalizers, m.annotations);
    FieldsRoundTrip(m.uid, None, None);
    FieldsRoundTrip(m.resourceVersion, None, None);
  }

  /** What a field decodes to depends only on the member of that name. */
  lemma SameMemberSameField(f: map<string, Json>, a: ObjectMeta, g: map<string, Json>, b: ObjectMeta, key: string)
    requires DecodeMeta(Obj(f)) == Ok(a) && DecodeMeta(Obj(g)) == Ok(b)
    requires Lookup(f, key) == Lookup(g, key)
    ensures FieldOf(a, key) == FieldOf(b, key)
  {
  }

  /** Changing one key of encoded metadata changes at most the field of that name. */
  lemma DecodeTouchesOneField(m: ObjectMeta, key: string, value: Json, m': ObjectMeta)
    requires DecodeMeta(Obj(EncodeMeta(m).fields[key := value])) == Ok(m')
    ensures forall k | k != key :: FieldOf(m', k) == FieldOf(m, k)
  {
    var fields := EncodeMeta(m).fields;
    MetaRoundTrip(m);
    forall k | k != key ensures FieldOf(m', k) == FieldOf(m, k) {
      SameMemberSameField(fields[key := value], m', fields, m, k);
    }
  }

  // Whole objects to JSON

  /** The members written for the type and metadata. */
  function Header(o: DynamicObject): map<string, Json> {
    (if o.types.None? then map[]
     else map["apiVersion" := Str(o.types.value.apiVersion), "kind" := Str(o.types.value.kind)])
    + map["metadata" := EncodeMeta(o.metadata)]
  }

  /** Serialisation flattens the data next to the type and metadata; data that is neither an
      object nor null cannot be flattened, and a data member replaces one of the same name. */
  function ToValue(o: DynamicObject): Result<Json, ()> {
    match o.data
    case Obj(fields) => Ok(Obj(Header(o) + fields))
    case Null => Ok(Obj(Header(o)))
    case _ => Err(())
  }

  /** An object as the API server returns it: typed, and nothing in its data that belongs to
      the type or metadata. */
  predicate Typed(o: DynamicObject) {
    && o.types.Some?
    && o.data.Obj?
    && forall k | k in o.data.fields :: k !in {"apiVersion", "kind", "metadata"}
  }
}
