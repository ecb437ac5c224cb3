/** The three graph builders of the Spark driver: from one canonical JSON configuration to an executable graph. */
module GraphConfiguration {
  import opened Text
  import opened Wrappers
  import opened CanonicalJson

  type JsonObject = map<string, Json>

  datatype Invocation = Invocation(
    pipelineId: string, project: string, stagingBucket: string, graphContentSha256: string, physicalPlan: Json)

  /** Rejected: an error the validator raises. Crashed: any other exception, which the run catches as a failed stage. */
  datatype ConfigError = Rejected | Crashed

  datatype DirectMapping = DirectMapping(source: string, target: string)

  datatype LinearGraph = LinearGraph(
    sourceId: string, transformId: string, targetId: string,
    sourceFields: seq<string>, transformFields: seq<string>, targetFields: seq<string>,
    sourceToTransform: seq<DirectMapping>, transformToTarget: seq<DirectMapping>,
    sourceTable: string, outputTable: string)

  datatype MultistageLinearGraph = MultistageLinearGraph(
    sourceId: string, firstTransformId: string, secondTransformId: string, targetId: string,
    sourceFields: seq<string>, firstTransformFields: seq<string>, secondTransformFields: seq<string>,
    targetFields: seq<string>,
    sourceToFirst: seq<DirectMapping>, firstToSecond: seq<DirectMapping>, secondToTarget: seq<DirectMapping>,
    sourceTable: string, outputTable: string)

  datatype JoinSource = JoinSource(
    sourceId: string, fields: seq<string>, mappings: seq<DirectMapping>, sourceTable: string, joinKey: string)

  datatype KeyedJoinGraph = KeyedJoinGraph(
    left: JoinSource, right: JoinSource, transformId: string, targetId: string,
    transformFields: seq<string>, targetFields: seq<string>,
    transformToTarget: seq<DirectMapping>, outputTable: string)

  // ---------------------------------------------------------------- dict access and lexical rules

  /** Dict access in which a missing key reads as None. */
  function Field(d: JsonObject, key: string): Json {
    if key in d then d[key] else Null
  }

  /** Dict access with a default for a missing key. */
  function FieldOr(d: JsonObject, key: string, default: Json): Json {
    if key in d then d[key] else default
  }

  predicate IsLower(c: char) { 'a' <= c <= 'z' }
  predicate IsAlnum(c: char) { IsLower(c) || 'A' <= c <= 'Z' || IsDigit(c) }

  predicate SafeIdentifier(s: string) {
    1 <= |s| <= 128 && IsAlnum(s[0]) &&
    forall i :: 0 <= i < |s| ==> IsAlnum(s[i]) || s[i] == '.' || s[i] == '_' || s[i] == ':' || s[i] == '-'
  }

  predicate IsProject(s: string) {
    6 <= |s| <= 30 && IsLower(s[0]) && (IsLower(s[|s| - 1]) || IsDigit(s[|s| - 1])) &&
    forall i :: 0 <= i < |s| ==> IsLower(s[i]) || IsDigit(s[i]) || s[i] == '-'
  }

  predicate IsDataset(s: string) {
    1 <= |s| <= 1024 && !IsDigit(s[0]) && forall i :: 0 <= i < |s| ==> IsAlnum(s[i]) || s[i] == '_'
  }

  predicate IsTable(s: string) {
    1 <= |s| <= 1024 && s[0] != '-' && forall i :: 0 <= i < |s| ==> IsAlnum(s[i]) || s[i] == '_' || s[i] == '-'
  }

  /** A project.dataset.table relation of exactly this project; no part contains a dot. */
  predicate SameProjectRelation(value: string, project: string) {
    var i := IndexOf(value, '.');
    i < |value| && value[..i] == project && IsProject(project) &&
    var rest := value[i + 1..];
    var j := IndexOf(rest, '.');
    j < |rest| && IsDataset(rest[..j]) && IsTable(rest[j + 1..])
  }

  function Upper(s: string): string {
    seq(|s|, i requires 0 <= i < |s| => if IsLower(s[i]) then ((s[i] as int) - 32) as char else s[i])
  }

  const SUPPORTED_TYPES := {
    "BOOL", "BOOLEAN", "BYTES", "DATE", "DATETIME", "FLOAT", "FLOAT64", "INT64", "INTEGER", "NUMERIC", "STRING",
    "TIME", "TIMESTAMP"
  }

  // ---------------------------------------------------------------- nodes

  datatype Groups = Groups(sources: seq<JsonObject>, transforms: seq<JsonObject>, targets: seq<JsonObject>)

  /** Where one entry of the node list goes; a list or dict as "type" cannot be looked up and raises TypeError. */
  function AddNode(g: Groups, node: Json): Result<Groups, ConfigError> {
    if !node.Obj? then Failure(Rejected)
    else
      var kind := Field(node.members, "type");
      if kind.Arr? || kind.Obj? then Failure(Crashed)
      else if kind == Str("source") then Success(g.(sources := g.sources + [node.members]))
      else if kind == Str("transform") then Success(g.(transforms := g.transforms + [node.members]))
      else if kind == Str("target") then Success(g.(targets := g.targets + [node.members]))
      else Failure(Rejected)
  }

  function GroupsOf(nodes: seq<Json>): Result<Groups, ConfigError> {
    if nodes == [] then Success(Groups([], [], [])) else
      var g :- GroupsOf(nodes[..|nodes| - 1]);
      AddNode(g, nodes[|nodes| - 1])
  }

  lemma {:induction false} GroupsOfPrefix(nodes: seq<Json>, n: nat)
    requires n <= |nodes| && GroupsOf(nodes[..n]).Failure?
    ensures GroupsOf(nodes) == GroupsOf(nodes[..n])
    decreases |nodes|
  {
    if n == |nodes| {
      assert nodes[..n] == nodes;
    } else {
      assert nodes[..|nodes| - 1][..n] == nodes[..n];
      GroupsOfPrefix(nodes[..|nodes| - 1], n);
    }
  }

  method GroupNodes(nodes: seq<Json>) returns (r: Result<Groups, ConfigError>)
    ensures r == GroupsOf(nodes)
  {
    var groups := Groups([], [], []);
    for i := 0 to |nodes|
      invariant GroupsOf(nodes[..i]) == Success(groups)
    {
      assert nodes[..i + 1][..i] == nodes[..i];
      var next := AddNode(groups, nodes[i]);
      if next.Failure? {
        GroupsOfPrefix(nodes, i + 1);
        return next;
      }
      groups := next.value;
    }
    assert nodes[..|nodes|] == nodes;
    return Success(groups);
  }

  function NodeId(node: JsonObject): (r: Result<string, ConfigError>)
    ensures r.Failure? ==> r.error == Rejected
  {
    var id := Field(node, "id");
    if id.Str? && SafeIdentifier(id.text) then Success(id.text) else Failure(Rejected)
  }

  // ---------------------------------------------------------------- fields

  datatype Fields = Fields(names: seq<string>, types: map<string, string>)

  predicate GoodField(field: Json) {
    field.Obj? &&
    var name, kind := Field(field.members, "name"), Field(field.members, "type");
    name.Str? && SafeIdentifier(name.text) && kind.Str? && Upper(kind.text) in SUPPORTED_TYPES &&
    Field(field.members, "cast_to") == Null
  }

  function FieldName(field: Json): string
    requires GoodField(field)
  {
    Field(field.members, "name").text
  }

  function FieldType(field: Json): string
    requires GoodField(field)
  {
    Upper(Field(field.members, "type").text)
  }

  /** The declared fields read so far, or nothing once one is unsupported or repeats a name. */
  function FieldsOf(raw: seq<Json>): (r: Option<Fields>)
    ensures r.Some? ==> |r.value.names| == |raw| && forall k :: k in r.value.types <==> k in r.value.names
  {
    if raw == [] then Some(Fields([], map[])) else
      var f :- FieldsOf(raw[..|raw| - 1]);
      var last := raw[|raw| - 1];
      if !GoodField(last) || FieldName(last) in f.types then None
      else Some(Fields(f.names + [FieldName(last)], f.types[FieldName(last) := FieldType(last)]))
  }

  lemma {:induction false} FieldsOfPrefix(raw: seq<Json>, n: nat)
    requires n <= |raw| && FieldsOf(raw[..n]).None?
    ensures FieldsOf(raw).None?
    decreases |raw|
  {
    if n == |raw| {
      assert raw[..n] == raw;
    } else {
      assert raw[..|raw| - 1][..n] == raw[..n];
      FieldsOfPrefix(raw[..|raw| - 1], n);
    }
  }

  function NodeFieldsOf(node: JsonObject): (r: Result<Fields, ConfigError>)
    ensures r.Failure? ==> r.error == Rejected
  {
    var raw := Field(node, "fields");
    if !raw.Arr? || raw.items == [] || FieldsOf(raw.items).None? then Failure(Rejected)
    else Success(FieldsOf(raw.items).value)
  }

  method NodeFields(node: JsonObject) returns (r: Result<Fields, ConfigError>)
    ensures r == NodeFieldsOf(node)
  {
    var raw := Field(node, "fields");
    if !raw.Arr? || raw.items == [] {
      return Failure(Rejected);
    }
    var names: seq<string> := [];
    var types: map<string, string> := map[];
    for i := 0 to |raw.items|
      invariant FieldsOf(raw.items[..i]) == Some(Fields(names, types))
    {
      var field := raw.items[i];
      assert raw.items[..i + 1][..i] == raw.items[..i];
      if !GoodField(field) || FieldName(field) in types {
        FieldsOfPrefix(raw.items, i + 1);
        return Failure(Rejected);
      }
      names, types := names + [FieldName(field)], types[FieldName(field) := FieldType(field)];
    }
    assert raw.items[..|raw.items|] == raw.items;
    return Success(Fields(names, types));
  }

  // ---------------------------------------------------------------- edges

  type Pair = (string, string)

  function AddEdge(edges: map<Pair, JsonObject>, edge: Json): Option<map<Pair, JsonObject>> {
    if !edge.Obj? then None
    else
      var from, to := Field(edge.members, "from"), Field(edge.members, "to");
      if !from.Str? || !to.Str? || (from.text, to.text) in edges then None
      else Some(edges[(from.text, to.text) := edge.members])
  }

  function EdgesOf(edges: seq<Json>): Option<map<Pair, JsonObject>> {
    if edges == [] then Some(map[]) else
      var m :- EdgesOf(edges[..|edges| - 1]);
      AddEdge(m, edges[|edges| - 1])
  }

  lemma {:induction false} EdgesOfPrefix(edges: seq<Json>, n: nat)
    requires n <= |edges| && EdgesOf(edges[..n]).None?
    ensures EdgesOf(edges).None?
    decreases |edges|
  {
    if n == |edges| {
      assert edges[..n] == edges;
    } else {
      assert edges[..|edges| - 1][..n] == edges[..n];
      EdgesOfPrefix(edges[..|edges| - 1], n);
    }
  }

  method IndexEdges(edges: seq<Json>) returns (r: Option<map<Pair, JsonObject>>)
    ensures r == EdgesOf(edges)
  {
    var edgeByPair: map<Pair, JsonObject> := map[];
    for i := 0 to |edges|
      invariant EdgesOf(edges[..i]) == Some(edgeByPair)
    {
      assert edges[..i + 1][..i] == edges[..i];
      var next := AddEdge(edgeByPair, edges[i]);
      if next.None? {
        EdgesOfPrefix(edges, i + 1);
        return None;
      }
      edgeByPair := next.value;
    }
    assert edges[..|edges|] == edges;
    return Some(edgeByPair);
  }

  // ---------------------------------------------------------------- mappings

  /** One type-preserving rename between two typed records. */
  predicate GoodMapping(raw: Json, sourceTypes: map<string, string>, targetTypes: map<string, string>) {
    raw.Obj? &&
    var source, target := Field(raw.members, "source"), Field(raw.members, "target");
    source.Str? && target.Str? && Field(raw.members, "transformation") == Null &&
    source.text in sourceTypes && target.text in targetTypes && sourceTypes[source.text] == targetTypes[target.text]
  }

  function MappingOf(raw: Json): DirectMapping
    requires raw.Obj? && Field(raw.members, "source").Str? && Field(raw.members, "target").Str?
  {
    DirectMapping(Field(raw.members, "source").text, Field(raw.members, "target").text)
  }

  /** The mappings by target, or nothing once one is unsupported or repeats a target. */
  function MappingTable(raw: seq<Json>, sourceTypes: map<string, string>, targetTypes: map<string, string>):
    (r: Option<map<string, DirectMapping>>)
    ensures r.Some? ==> forall t :: t in r.value ==> r.value[t].target == t
  {
    if raw == [] then Some(map[]) else
      var m :- MappingTable(raw[..|raw| - 1], sourceTypes, targetTypes);
      var last := raw[|raw| - 1];
      if !GoodMapping(last, sourceTypes, targetTypes) || MappingOf(last).target in m then None
      else Some(m[MappingOf(last).target := MappingOf(last)])
  }

  lemma {:induction false} MappingTablePrefix(
    raw: seq<Json>, sourceTypes: map<string, string>, targetTypes: map<string, string>, n: nat)
    requires n <= |raw| && MappingTable(raw[..n], sourceTypes, targetTypes).None?
    ensures MappingTable(raw, sourceTypes, targetTypes).None?
    decreases |raw|
  {
    if n == |raw| {
      assert raw[..n] == raw;
    } else {
      assert raw[..|raw| - 1][..n] == raw[..n];
      MappingTablePrefix(raw[..|raw| - 1], sourceTypes, targetTypes, n);
    }
  }

  function EdgeMappings(edge: JsonObject, sourceTypes: map<string, string>, targetTypes: map<string, string>):
    Option<map<string, DirectMapping>>
  {
    var raw := Field(edge, "mappings");
    if Field(edge, "join") != Null || !raw.Arr? || raw.items == [] then None
    else MappingTable(raw.items, sourceTypes, targetTypes)
  }

  method CollectMappings(edge: JsonObject, sourceTypes: map<string, string>, targetTypes: map<string, string>)
    returns (r: Option<map<string, DirectMapping>>)
    ensures r == EdgeMappings(edge, sourceTypes, targetTypes)
  {
    var raw := Field(edge, "mappings");
    if Field(edge, "join") != Null || !raw.Arr? || raw.items == [] {
      return None;
    }
    var byTarget: map<string, DirectMapping> := map[];
    for i := 0 to |raw.items|
      invariant MappingTable(raw.items[..i], sourceTypes, targetTypes) == Some(byTarget)
    {
      var mapping := raw.items[i];
      assert raw.items[..i + 1][..i] == raw.items[..i];
      if !GoodMapping(mapping, sourceTypes, targetTypes) || MappingOf(mapping).target in byTarget {
        MappingTablePrefix(raw.items, sourceTypes, targetTypes, i + 1);
        return None;
      }
      byTarget := byTarget[MappingOf(mapping).target := MappingOf(mapping)];
    }
    assert raw.items[..|raw.items|] == raw.items;
    return Some(byTarget);
  }

  function Listed(table: map<string, DirectMapping>, fields: seq<string>): (ms: seq<DirectMapping>)
    requires forall f :: f in fields ==> f in table
    ensures |ms| == |fields| && forall i :: 0 <= i < |fields| ==> ms[i] == table[fields[i]]
  {
    seq(|fields|, i requires 0 <= i < |fields| => table[fields[i]])
  }

  /** Mappings that cover the declared output exactly, in its field order. */
  function DirectMappingsOf(
    edge: JsonObject, sourceTypes: map<string, string>, targetTypes: map<string, string>, targetFields: seq<string>):
    (r: Result<seq<DirectMapping>, ConfigError>)
    ensures r.Failure? ==> r.error == Rejected
  {
    var table := EdgeMappings(edge, sourceTypes, targetTypes);
    if table.None? || table.value.Keys != (set f | f in targetFields) then Failure(Rejected)
    else Success(Listed(table.value, targetFields))
  }

  /** Mappings of one join side, in the order of their targets. */
  function PartialDirectMappingsOf(
    edge: JsonObject, sourceTypes: map<string, string>, targetTypes: map<string, string>):
    (r: Result<seq<DirectMapping>, ConfigError>)
    ensures r.Failure? ==> r.error == Rejected
  {
    var table := EdgeMappings(edge, sourceTypes, targetTypes);
    if table.None? then Failure(Rejected) else Success(Listed(table.value, Sorted(table.value.Keys)))
  }

  // ---------------------------------------------------------------- target

  /** Python truth of a JSON value. */
  predicate Truthy(v: Json) {
    match v
    case Null => false
    case Bool(b) => b
    case Int(n) => n != 0
    case Str(s) => s != []
    case Arr(items) => items != []
    case Obj(m) => m != map[]
  }

  function TargetRelation(target: JsonObject, project: string): (r: Result<string, ConfigError>)
    ensures r.Failure? ==> r.error == Rejected
  {
    var config := Field(target, "config");
    var writer := if config.Obj? then Field(config.members, "writer") else Null;
    var destination := if writer.Obj? then Field(writer.members, "destination") else Null;
    if !writer.Obj? || !destination.Obj? then Failure(Rejected)
    else
      var w, d := writer.members, destination.members;
      if Field(w, "write_mode") != Str("replace") || Field(w, "partitioning") != Null ||
         FieldOr(w, "clustering", Arr([])) != Arr([]) || FieldOr(w, "transport", Str("load_job")) != Str("load_job") ||
         FieldOr(w, "schema_evolution", Str("strict")) != Str("strict") ||
         FieldOr(d, "business_key", Arr([])) != Arr([])
      then Failure(Rejected)
      else
        var declared := Field(d, "project");
        var dataset, table := Field(d, "dataset"), Field(d, "table");
        if (Truthy(declared) && declared != Str(project)) || !dataset.Str? || !IsDataset(dataset.text) ||
           !table.Str? || !IsTable(table.text)
        then Failure(Rejected)
        else Success(project + "." + dataset.text + "." + table.text)
  }

  /** No join and no operations on a transform. */
  predicate PlainTransform(node: JsonObject) {
    var config := Field(node, "config");
    config.Obj? && Field(config.members, "join") == Null && FieldOr(config.members, "operations", Arr([])) == Arr([])
  }

  /** The one bound source table of a linear graph. */
  function SourceTable(relations: Json, sourceId: string, project: string): (r: Result<string, ConfigError>)
    ensures r.Failure? ==> r.error == Rejected
  {
    if !relations.Obj? || relations.members.Keys != {sourceId} then Failure(Rejected)
    else
      var table := relations.members[sourceId];
      if table.Str? && SameProjectRelation(table.text, project) then Success(table.text) else Failure(Rejected)
  }

  function ItemList(graph: JsonObject, key: string): (r: Result<seq<Json>, ConfigError>)
    ensures r.Failure? ==> r.error == Rejected
  {
    var v := Field(graph, key);
    if v.Arr? then Success(v.items) else Failure(Rejected)
  }

  function OrRejected<T>(o: Option<T>): (r: Result<T, ConfigError>)
    ensures r.Failure? ==> r.error == Rejected
  {
    if o.Some? then Success(o.value) else Failure(Rejected)
  }

  // ---------------------------------------------------------------- linear graph

  /** The nodes and edges of a source-transform-target chain. */
  datatype LinearShape = LinearShape(
    sourceId: string, transformId: string, targetId: string,
    source: JsonObject, transform: JsonObject, target: JsonObject, first: JsonObject, second: JsonObject)

  function LinearShapeOf(graph: JsonObject, invocation: Invocation): Result<LinearShape, ConfigError> {
    if Field(graph, "name") != Str(invocation.pipelineId) then Failure(Rejected) else
    var nodes :- ItemList(graph, "nodes");
    var edges :- ItemList(graph, "edges");
    var groups :- GroupsOf(nodes);
    if |groups.sources| != 1 || |groups.transforms| != 1 || |groups.targets| != 1 then Failure(Rejected) else
    var source, transform, target := groups.sources[0], groups.transforms[0], groups.targets[0];
    var sourceId :- NodeId(source);
    var transformId :- NodeId(transform);
    var targetId :- NodeId(target);
    if !PlainTransform(transform) then Failure(Rejected) else
    var edgeByPair :- OrRejected(EdgesOf(edges));
    if edgeByPair.Keys != {(sourceId, transformId), (transformId, targetId)} then Failure(Rejected) else
    Success(LinearShape(
      sourceId, transformId, targetId, source, transform, target,
      edgeByPair[(sourceId, transformId)], edgeByPair[(transformId, targetId)]))
  }

  function LinearBodyOf(shape: LinearShape, relations: Json, project: string): (r: Result<LinearGraph, ConfigError>)
    ensures r.Failure? ==> r.error == Rejected
  {
    var source :- NodeFieldsOf(shape.source);
    var transform :- NodeFieldsOf(shape.transform);
    var target :- NodeFieldsOf(shape.target);
    var first :- DirectMappingsOf(shape.first, source.types, transform.types, transform.names);
    var second :- DirectMappingsOf(shape.second, transform.types, target.types, target.names);
    var sourceTable :- SourceTable(relations, shape.sourceId, project);
    var outputTable :- TargetRelation(shape.target, project);
    Success(LinearGraph(
      shape.sourceId, shape.transformId, shape.targetId, source.names, transform.names, target.names,
      first, second, sourceTable, outputTable))
  }

  /** Everything the linear builder accepts, and what it builds. */
  function LinearGraphOf(graph: JsonObject, relations: Json, invocation: Invocation): Result<LinearGraph, ConfigError> {
    var shape :- LinearShapeOf(graph, invocation);
    LinearBodyOf(shape, relations, invocation.project)
  }

  // ---------------------------------------------------------------- multistage graph

  function ChainEdges(source: string, first: string, second: string, target: string): set<Pair> {
    {(source, first), (first, second), (second, target)}
  }

  /** The nodes by id; a repeated id keeps its last node. */
  function NodeTable(nodes: seq<JsonObject>): (r: Result<map<string, JsonObject>, ConfigError>)
    ensures r.Failure? ==> r.error == Rejected
    ensures r.Success? ==> |r.value| <= |nodes| && (nodes != [] ==> |r.value| >= 1)
  {
    if nodes == [] then Success(map[]) else
      var m :- NodeTable(nodes[..|nodes| - 1]);
      var id :- NodeId(nodes[|nodes| - 1]);
      Success(m[id := nodes[|nodes| - 1]])
  }

  /** The search over sorted transform ids; with a single id there is no second one and the search raises. */
  function ChainOrder(source: string, target: string, transforms: set<string>, edges: set<Pair>):
    (r: Result<Pair, ConfigError>)
    ensures r.Success? ==> r.value.0 in transforms && r.value.1 in transforms
    ensures r.Success? ==> edges == ChainEdges(source, r.value.0, r.value.1, target)
  {
    var ids := Sorted(transforms);
    if |ids| != 2 then Failure(Crashed)
    else if edges == ChainEdges(source, ids[0], ids[1], target) then Success((ids[0], ids[1]))
    else if edges == ChainEdges(source, ids[1], ids[0], target) then Success((ids[1], ids[0]))
    else Failure(Rejected)
  }

  method FindChain(source: string, target: string, transforms: set<string>, edges: set<Pair>)
    returns (r: Result<Pair, ConfigError>)
    requires 1 <= |transforms| <= 2
    ensures r == ChainOrder(source, target, transforms, edges)
  {
    var ids := Sorted(transforms);
    SortedSize(transforms);
    assert |ids| == 2 ==> Less(ids[0], ids[1]);
    for i := 0 to |ids|
      invariant i > 0 ==> |ids| == 2 && edges != ChainEdges(source, ids[0], ids[1], target)
      invariant i > 1 ==> edges != ChainEdges(source, ids[1], ids[0], target)
    {
      var j := 0;
      while j < |ids| && ids[j] == ids[i]
        invariant 0 <= j <= |ids| && forall k :: 0 <= k < j ==> ids[k] == ids[i]
      {
        j := j + 1;
      }
      if j == |ids| {
        return Failure(Crashed);
      }
      if edges == ChainEdges(source, ids[i], ids[j], target) {
        return Success((ids[i], ids[j]));
      }
    }
    return Failure(Rejected);
  }

  datatype MultistageShape = MultistageShape(
    sourceId: string, firstId: string, secondId: string, targetId: string,
    source: JsonObject, first: JsonObject, second: JsonObject, target: JsonObject,
    toFirst: JsonObject, toSecond: JsonObject, toTarget: JsonObject)

  function MultistageShapeOf(graph: JsonObject, invocation: Invocation): Result<MultistageShape, ConfigError> {
    if Field(graph, "name") != Str(invocation.pipelineId) then Failure(Rejected) else
    var nodes :- ItemList(graph, "nodes");
    var edges :- ItemList(graph, "edges");
    var groups :- GroupsOf(nodes);
    if |groups.sources| != 1 || |groups.transforms| != 2 || |groups.targets| != 1 then Failure(Rejected) else
    var source, target := groups.sources[0], groups.targets[0];
    var sourceId :- NodeId(source);
    var targetId :- NodeId(target);
    var transforms :- NodeTable(groups.transforms);
    var edgeByPair :- OrRejected(EdgesOf(edges));
    var order :- ChainOrder(sourceId, targetId, transforms.Keys, edgeByPair.Keys);
    var first, second := transforms[order.0], transforms[order.1];
    if !PlainTransform(first) || !PlainTransform(second) then Failure(Rejected) else
    Success(MultistageShape(
      sourceId, order.0, order.1, targetId, source, first, second, target,
      edgeByPair[(sourceId, order.0)], edgeByPair[(order.0, order.1)], edgeByPair[(order.1, targetId)]))
  }

  function MultistageBodyOf(shape: MultistageShape, relations: Json, project: string):
    (r: Result<MultistageLinearGraph, ConfigError>)
    ensures r.Failure? ==> r.error == Rejected
  {
    var source :- NodeFieldsOf(shape.source);
    var first :- NodeFieldsOf(shape.first);
    var second :- NodeFieldsOf(shape.second);
    var target :- NodeFieldsOf(shape.target);
    var toFirst :- DirectMappingsOf(shape.toFirst, source.types, first.types, first.names);
    var toSecond :- DirectMappingsOf(shape.toSecond, first.types, second.types, second.names);
    var toTarget :- DirectMappingsOf(shape.toTarget, second.types, target.types, target.names);
    var sourceTable :- SourceTable(relations, shape.sourceId, project);
    var outputTable :- TargetRelation(shape.target, project);
    Success(MultistageLinearGraph(
      shape.sourceId, shape.firstId, shape.secondId, shape.targetId, source.names, first.names, second.names,
      target.names, toFirst, toSecond, toTarget, sourceTable, outputTable))
  }

  /** Everything the multistage builder accepts, and what it builds. */
  function MultistageGraphOf(graph: JsonObject, relations: Json, invocation: Invocation):
    Result<MultistageLinearGraph, ConfigError>
  {
    var shape :- MultistageShapeOf(graph, invocation);
    MultistageBodyOf(shape, relations, invocation.project)
  }

  // ---------------------------------------------------------------- keyed join graph

  datatype JoinContract = JoinContract(leftId: string, rightId: string, leftKey: string, rightKey: string)

  /** One inner join of the two sources on one key pair, without operations. */
  function JoinContractOf(transform: JsonObject, sources: set<string>): (r: Result<JoinContract, ConfigError>)
    ensures r.Failure? ==> r.error == Rejected
  {
    var config := Field(transform, "config");
    var join := if config.Obj? then Field(config.members, "join") else Null;
    if !config.Obj? || FieldOr(config.members, "operations", Arr([])) != Arr([]) || !join.Obj? ||
       Field(join.members, "type") != Str("inner")
    then Failure(Rejected)
    else
      var leftId, rightId := Field(join.members, "left_input"), Field(join.members, "right_input");
      var keys := Field(join.members, "keys");
      if !leftId.Str? || !rightId.Str? || leftId == rightId || sources != {leftId.text, rightId.text} ||
         !keys.Arr? || |keys.items| != 1 || !keys.items[0].Obj?
      then Failure(Rejected)
      else
        var leftKey, rightKey := Field(keys.items[0].members, "left"), Field(keys.items[0].members, "right");
        if leftKey.Str? && rightKey.Str?
        then Success(JoinContract(leftId.text, rightId.text, leftKey.text, rightKey.text))
        else Failure(Rejected)
  }

  function Targets(ms: seq<DirectMapping>): seq<string> {
    seq(|ms|, i requires 0 <= i < |ms| => ms[i].target)
  }

  predicate Distinct<T(==)>(s: seq<T>) {
    forall i, j :: 0 <= i < j < |s| ==> s[i] != s[j]
  }

  /** Both sides together produce every joined field once. */
  predicate CoverOnce(left: seq<DirectMapping>, right: seq<DirectMapping>, fields: seq<string>) {
    var mapped := Targets(left) + Targets(right);
    Distinct(mapped) && (set t | t in mapped) == (set f | f in fields)
  }

  function JoinTables(relations: Json, left: string, right: string, project: string): (r: Result<Pair, ConfigError>)
    ensures r.Failure? ==> r.error == Rejected
  {
    if !relations.Obj? || relations.members.Keys != {left, right} then Failure(Rejected)
    else
      var l, r := relations.members[left], relations.members[right];
      if l.Str? && r.Str? && SameProjectRelation(l.text, project) && SameProjectRelation(r.text, project)
      then Success((l.text, r.text))
      else Failure(Rejected)
  }

  datatype Side = Side(fields: Fields, mappings: seq<DirectMapping>)

  function SideOf(node: JsonObject, edge: JsonObject, transformTypes: map<string, string>):
    (r: Result<Side, ConfigError>)
    ensures r.Failure? ==> r.error == Rejected
  {
    var fields :- NodeFieldsOf(node);
    var mappings :- PartialDirectMappingsOf(edge, fields.types, transformTypes);
    Success(Side(fields, mappings))
  }

  /** Both key columns exist and have one type. */
  predicate CompatibleKeys(join: JoinContract, left: Fields, right: Fields) {
    join.leftKey in left.types && join.rightKey in right.types &&
    left.types[join.leftKey] == right.types[join.rightKey]
  }

  datatype JoinShape = JoinShape(
    join: JoinContract, transformId: string, targetId: string,
    left: JsonObject, right: JsonObject, transform: JsonObject, target: JsonObject,
    fromLeft: JsonObject, fromRight: JsonObject, toTarget: JsonObject)

  function JoinShapeOf(graph: JsonObject, invocation: Invocation): Result<JoinShape, ConfigError> {
    if Field(graph, "name") != Str(invocation.pipelineId) then Failure(Rejected) else
    var nodes :- ItemList(graph, "nodes");
    var edges :- ItemList(graph, "edges");
    var groups :- GroupsOf(nodes);
    if |groups.sources| != 2 || |groups.transforms| != 1 || |groups.targets| != 1 then Failure(Rejected) else
    var transform, target := groups.transforms[0], groups.targets[0];
    var transformId :- NodeId(transform);
    var targetId :- NodeId(target);
    var sources :- NodeTable(groups.sources);
    var join :- JoinContractOf(transform, sources.Keys);
    var edgeByPair :- OrRejected(EdgesOf(edges));
    var fromLeft, fromRight := (join.leftId, transformId), (join.rightId, transformId);
    if edgeByPair.Keys != {fromLeft, fromRight, (transformId, targetId)} then Failure(Rejected) else
    Success(JoinShape(
      join, transformId, targetId, sources[join.leftId], sources[join.rightId], transform, target,
      edgeByPair[fromLeft], edgeByPair[fromRight], edgeByPair[(transformId, targetId)]))
  }

  function JoinBodyOf(shape: JoinShape, relations: Json, project: string): (r: Result<KeyedJoinGraph, ConfigError>)
    ensures r.Failure? ==> r.error == Rejected
  {
    var transform :- NodeFieldsOf(shape.transform);
    var target :- NodeFieldsOf(shape.target);
    var left :- SideOf(shape.left, shape.fromLeft, transform.types);
    var right :- SideOf(shape.right, shape.fromRight, transform.types);
    if !CompatibleKeys(shape.join, left.fields, right.fields) then Failure(Rejected) else
    if !CoverOnce(left.mappings, right.mappings, transform.names) then Failure(Rejected) else
    var toTarget :- DirectMappingsOf(shape.toTarget, transform.types, target.types, target.names);
    var tables :- JoinTables(relations, shape.join.leftId, shape.join.rightId, project);
    var outputTable :- TargetRelation(shape.target, project);
    Success(KeyedJoinGraph(
      JoinSource(shape.join.leftId, left.fields.names, left.mappings, tables.0, shape.join.leftKey),
      JoinSource(shape.join.rightId, right.fields.names, right.mappings, tables.1, shape.join.rightKey),
      shape.transformId, shape.targetId, transform.names, target.names, toTarget, outputTable))
  }

  /** Everything the keyed-join builder accepts, and what it builds. */
  function KeyedJoinGraphOf(graph: JsonObject, relations: Json, invocation: Invocation):
    Result<KeyedJoinGraph, ConfigError>
  {
    var shape :- JoinShapeOf(graph, invocation);
    JoinBodyOf(shape, relations, invocation.project)
  }
}
