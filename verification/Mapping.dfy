/** Building the target object: cloning the source, or folding an ordered list of mappings
    over a template. */
module Mapping {
  import opened Wrappers
  import opened JsonTree
  import opened DotPath
  import opened FieldPath
  import opened Objects

  datatype Error =
    | AddToPath(value: Json)
    | SerializationError
    | JsonPathError
    | JsonPathExactlyOneValue(path: string)
    | MalformedInnerResource(what: string)
    | MappingEmpty
    | Panicked  // an embedded label or annotation that is not a string

  datatype Mapping = Mapping(fromFieldPath: Option<string>, toFieldPath: Option<string>)

  /** The identity the target must have. */
  datatype Requested = Requested(name: string, namespace: Option<string>)

  // Selecting from the source

  datatype QueryResult = ParseError | Nodes(nodes: seq<Json>)

  /** The JSONPath library: the outcome of an expression on a value. */
  type JsonPath = (string, Json) -> QueryResult

  function Expression(from: Option<string>): string {
    if from.None? || from.value == "" then "$" else "$." + from.value
  }

  function FindFieldPath(q: JsonPath, source: DynamicObject, from: Option<string>): Result<Json, Error> {
    match ToValue(source)
    case Err(_) => Err(SerializationError)
    case Ok(v) =>
      match q(Expression(from), v)
      case ParseError => Err(JsonPathError)
      case Nodes(nodes) =>
        if |nodes| > 1 then Err(JsonPathExactlyOneValue(Expression(from)))
        else if |nodes| == 0 then Ok(Null)
        else Ok(nodes[0])
  }

  // Projecting an object

  const LAST_APPLIED: string := "kubectl.kubernetes.io/last-applied-configuration"

  function CleanupAnnotations(annotations: Option<map<string, string>>): Option<map<string, string>> {
    if annotations.None? then None else Some(annotations.value - {LAST_APPLIED})
  }

  /** The annotations without what kubectl last applied. */
  ghost predicate AnnotationsKept(held: Option<map<string, string>>, kept: Option<map<string, string>>) {
    && (kept.None? <==> held.None?)
    && (kept.Some? ==>
          && (forall k :: k in kept.value <==>
                k in held.value && k != "kubectl.kubernetes.io/last-applied-configuration")
          && forall k | k in kept.value :: kept.value[k] == held.value[k])
  }

  /** The identity and type that are asked for, the source's data, labels and annotations, and no
      other metadata. */
  ghost predicate IsClone(t: DynamicObject, source: DynamicObject, req: Requested, ar: ApiResource) {
    && t.types == Some(TypeMeta(ar.apiVersion, ar.kind))
    && t.data == source.data
    && t.metadata.name == Some(req.name) && t.metadata.namespace == req.namespace
    && t.metadata.labels == source.metadata.labels
    && AnnotationsKept(source.metadata.annotations, t.metadata.annotations)
    && t.metadata.uid == None && t.metadata.resourceVersion == None && t.metadata.finalizers == None
  }

  function CloneResource(source: DynamicObject, req: Requested, ar: ApiResource): (t: DynamicObject)
    ensures IsClone(t, source, req, ar)
  {
    var target := NewObject(req.name, ar);
    target.(data := source.data,
            metadata := target.metadata.(namespace := req.namespace,
                                         annotations := CleanupAnnotations(source.metadata.annotations),
                                         labels := source.metadata.labels))
  }

  // Reading an object out of a subtree

  /** The member `k`, or null where the value is no object or has no such member. */
  function Index(v: Json, k: string): Json {
    if v.Obj? && k in v.fields then v.fields[k] else Null
  }

  /** The version is the last term and the group the one before it, if there is one. */
  function GetArFromSubtree(subtree: Json): (r: Result<ApiResource, Error>)
    ensures r == Err(MalformedInnerResource("failed to parse apiVersion")) <==> !Index(subtree, "apiVersion").Str?
    ensures r == Err(MalformedInnerResource("failed to parse kind")) <==>
            Index(subtree, "apiVersion").Str? && !Index(subtree, "kind").Str?
    ensures r.Ok? <==> Index(subtree, "apiVersion").Str? && Index(subtree, "kind").Str?
    ensures r.Ok? ==> r.value.kind == Index(subtree, "kind").s
  {
    var apiVersion, kind := Index(subtree, "apiVersion"), Index(subtree, "kind");
    if !apiVersion.Str? then Err(MalformedInnerResource("failed to parse apiVersion"))
    else if !kind.Str? then Err(MalformedInnerResource("failed to parse kind"))
    else
      var terms := Segments(apiVersion.s, '/');
      Ok(FromGvk(if |terms| > 1 then terms[|terms| - 2] else "", terms[|terms| - 1], kind.s))
  }

  function MapConversion(v: Json): Result<Option<map<string, string>>, Error> {
    if !v.Obj? then Ok(None)
    else if forall k | k in v.fields :: v.fields[k].Str? then Ok(Some(map k | k in v.fields :: v.fields[k].s))
    else Err(Panicked)
  }

  function ConvertMetadata(v: Json): Result<ObjectMeta, Error> {
    match (MapConversion(Index(v, "annotations")), MapConversion(Index(v, "labels")))
    case (Ok(annotations), Ok(labels)) => Ok(NO_META.(annotations := annotations, labels := labels))
    case _ => Err(Panicked)
  }

  function Materialise(subtree: Json, req: Requested): Result<DynamicObject, Error> {
    match GetArFromSubtree(subtree)
    case Err(e) => Err(e)
    case Ok(ar) =>
      match ConvertMetadata(Index(subtree, "metadata"))
      case Err(e) => Err(e)
      case Ok(metadata) => Ok(CloneResource(DynamicObject(None, metadata, Cleaned(subtree)), req, ar))
  }

  // Writing into the template

  const METADATA_PREFIX: string := "metadata."

  predicate InMetadata(to: string) {
    METADATA_PREFIX <= to
  }

  function WriteData(template: DynamicObject, to: string, subtree: Json): Result<DynamicObject, Error> {
    match Put(template.data, Segments(to, '.'), subtree)
    case None => Err(AddToPath(template.data))
    case Some(data) => Ok(template.(data := data))
  }

  function WriteMetadata(template: DynamicObject, path: string, subtree: Json): Result<DynamicObject, Error> {
    var encoded := EncodeMeta(template.metadata);
    match Put(encoded, Segments(path, '.'), subtree)
    case None => Err(AddToPath(encoded))
    case Some(written) =>
      match DecodeMeta(written)
      case Err(_) => Err(SerializationError)
      case Ok(metadata) => Ok(template.(metadata := metadata))
  }

  function WriteField(template: DynamicObject, to: string, subtree: Json): Result<DynamicObject, Error> {
    if InMetadata(to) then WriteMetadata(template, to[|METADATA_PREFIX|..], subtree)
    else WriteData(template, to, subtree)
  }

  // One mapping, and a list of them

  /** The template is serialised for the log before and after, which fails where it cannot be
      flattened. */
  function Logged(template: DynamicObject): Result<DynamicObject, Error> {
    if ToValue(template).Ok? then Ok(template) else Err(SerializationError)
  }

  function Then(r: Result<DynamicObject, Error>): Result<DynamicObject, Error> {
    if r.Ok? then Logged(r.value) else r
  }

  function ApplyOne(q: JsonPath, source: DynamicObject, req: Requested, template: DynamicObject, m: Mapping)
    : Result<DynamicObject, Error>
  {
    match FindFieldPath(q, source, m.fromFieldPath)
    case Err(e) => Err(e)
    case Ok(subtree) =>
      if Logged(template).Err? then Logged(template)
      else
        match (m.fromFieldPath, m.toFieldPath)
        case (None, None) => Err(MappingEmpty)
        case (Some(_), None) => Then(Materialise(subtree, req))
        case (_, Some(to)) => Then(WriteField(template, to, subtree))
  }

  function ApplyAll(q: JsonPath, source: DynamicObject, req: Requested, template: DynamicObject, ms: seq<Mapping>)
    : Result<DynamicObject, Error>
    decreases ms
  {
    if ms == [] then Ok(template)
    else
      match ApplyOne(q, source, req, template, ms[0])
      case Err(e) => Err(e)
      case Ok(next) => ApplyAll(q, source, req, next, ms[1..])
  }

  function FreshTemplate(req: Requested, ar: ApiResource): DynamicObject {
    var template := NewObject(req.name, ar);
    template.(data := EMPTY_OBJECT, metadata := template.metadata.(namespace := req.namespace))
  }

  lemma {:induction false} ApplyAllSplits(
    q: JsonPath, source: DynamicObject, req: Requested, template: DynamicObject, ms: seq<Mapping>, ns: seq<Mapping>)
    ensures ApplyAll(q, source, req, template, ms + ns)
         == match ApplyAll(q, source, req, template, ms)
            case Err(e) => Err(e)
            case Ok(next) => ApplyAll(q, source, req, next, ns)
    decreases ms
  {
    if ms == [] {
      assert ms + ns == ns;
    } else {
      assert (ms + ns)[1..] == ms[1..] + ns;
      match ApplyOne(q, source, req, template, ms[0])
      case Err(_) =>
      case Ok(next) => ApplyAllSplits(q, source, req, next, ms[1..], ns);
    }
  }

  /** `apply_mappings`: updates the template mapping by mapping and stops at the first error. */
  method ApplyMappings(q: JsonPath, source: DynamicObject, req: Requested, ar: ApiResource, mappings: seq<Mapping>)
    returns (r: Result<DynamicObject, Error>)
    ensures r == ApplyAll(q, source, req, FreshTemplate(req, ar), mappings)
  {
    var template := FreshTemplate(req, ar);
    var i := 0;
    ghost var goal := ApplyAll(q, source, req, template, mappings);
    assert mappings[0..] == mappings;
    while i < |mappings|
      invariant 0 <= i <= |mappings|
      invariant goal == ApplyAll(q, source, req, template, mappings[i..])
    {
      assert mappings[i..][1..] == mappings[i + 1..];
      var next := ApplyMapping(q, source, req, template, mappings[i]);
      if next.Err? {
        return next;
      }
      template := next.value;
      i := i + 1;
    }
    return Ok(template);
  }

  method ApplyMapping(q: JsonPath, source: DynamicObject, req: Requested, template: DynamicObject, m: Mapping)
    returns (r: Result<DynamicObject, Error>)
    ensures r == ApplyOne(q, source, req, template, m)
  {
    var subtree := FindFieldPath(q, source, m.fromFieldPath);
    if subtree.Err? {
      return Err(subtree.error);
    }
    if Logged(template).Err? {
      return Logged(template);
    }
    match (m.fromFieldPath, m.toFieldPath) {
      case (None, None) =>
        return Err(MappingEmpty);
      case (Some(_), None) =>
        r := ReplaceRoot(subtree.value, req);
      case (_, Some(to)) =>
        r := SetField(template, to, subtree.value);
    }
    if r.Ok? {
      r := Logged(r.value);
    }
  }

  method ReplaceRoot(subtree: Json, req: Requested) returns (r: Result<DynamicObject, Error>)
    ensures r == Materialise(subtree, req)
  {
    var ar := GetArFromSubtree(subtree);
    if ar.Err? {
      return Err(ar.error);
    }
    var metadata := ConvertMetadata(Index(subtree, "metadata"));
    if metadata.Err? {
      return Err(metadata.error);
    }
    var document := new Document(subtree);
    document.CleanupSubtree();
    return Ok(CloneResource(DynamicObject(None, metadata.value, document.root), req, ar.value));
  }

  method SetField(template: DynamicObject, to: string, subtree: Json) returns (r: Result<DynamicObject, Error>)
    ensures r == WriteField(template, to, subtree)
  {
    var document := new Document(if InMetadata(to) then EncodeMeta(template.metadata) else template.data);
    var written := document.SetFieldPath(if InMetadata(to) then to[|METADATA_PREFIX|..] else to, subtree);
    if written.Err? {
      return Err(AddToPath(written.error.value));
    }
    if InMetadata(to) {
      var metadata := DecodeMeta(document.root);
      return if metadata.Err? then Err(SerializationError) else Ok(template.(metadata := metadata.value));
    }
    return Ok(template.(data := document.root));
  }

  /** The target of a ResourceSync: a plain copy where it has no mappings. */
  method BuildTarget(q: JsonPath, source: DynamicObject, req: Requested, ar: ApiResource, mappings: seq<Mapping>)
    returns (r: Result<DynamicObject, Error>)
    ensures mappings == [] ==> r.Ok? && IsClone(r.value, source, req, ar)
    ensures mappings != [] ==> r == ApplyAll(q, source, req, FreshTemplate(req, ar), mappings)
  {
    if mappings == [] {
      return Ok(CloneResource(source, req, ar));
    }
    r := ApplyMappings(q, source, req, ar, mappings);
  }
}
