/** A small document whose target repeats its source's id: the driver accepts it, and its plan stages it wrongly. */
module RepeatedIds {
  import opened Text
  import opened Wrappers
  import opened CanonicalJson
  import opened CanonicalIdentity
  import opened EncodedSize
  import opened GraphConfiguration
  import opened GraphAcceptance
  import opened PhysicalPlan
  import opened RuntimeConfiguration

  const FIELDS: Json := Arr([Obj(map["name" := Str("x"), "type" := Str("STRING")])])
  const MAPPINGS: Json := Arr([Obj(map["source" := Str("x"), "target" := Str("x")])])

  const SOURCE: JsonObject := map["id" := Str("a"), "type" := Str("source"), "fields" := FIELDS]

  const TRANSFORM: JsonObject :=
    map["id" := Str("b"), "type" := Str("transform"), "fields" := FIELDS, "config" := Obj(map[])]

  const DESTINATION: JsonObject := map["dataset" := Str("d"), "table" := Str("t")]

  const WRITER: JsonObject := map["write_mode" := Str("replace"), "destination" := Obj(DESTINATION)]

  const TARGET: JsonObject :=
    map["id" := Str("a"), "type" := Str("target"), "fields" := FIELDS, "config" := Obj(map["writer" := Obj(WRITER)])]

  const INWARD: JsonObject := map["from" := Str("a"), "to" := Str("b"), "mappings" := MAPPINGS]
  const OUTWARD: JsonObject := map["from" := Str("b"), "to" := Str("a"), "mappings" := MAPPINGS]

  const NODES: seq<Json> := [Obj(SOURCE), Obj(TRANSFORM), Obj(TARGET)]
  const EDGES: seq<Json> := [Obj(INWARD), Obj(OUTWARD)]

  const GRAPH: JsonObject := map["name" := Str("pipeline"), "nodes" := Arr(NODES), "edges" := Arr(EDGES)]

  const RELATIONS: Json := Obj(map["a" := Str("project.d.s")])

  const RENAME := [DirectMapping("x", "x")]

  /** What the builder makes of it. */
  const BUILT := LinearGraph("a", "b", "a", ["x"], ["x"], ["x"], RENAME, RENAME, "project.d.s", "project.d.t")

  function PlannedInvocation(contentSha256: string): Invocation {
    Invocation("pipeline", "project", "staging", contentSha256, ExpectedLinearPlan("pipeline", BUILT, 2))
  }

  lemma NextNode(nodes: seq<Json>, node: Json, g: Groups, h: Groups)
    requires GroupsOf(nodes) == Success(g) && AddNode(g, node) == Success(h)
    ensures GroupsOf(nodes + [node]) == Success(h)
  {
    assert (nodes + [node])[..|nodes|] == nodes;
  }

  lemma NodesGrouped()
    ensures GroupsOf(NODES) == Success(Groups([SOURCE], [TRANSFORM], [TARGET]))
  {
    hide NODES, FIELDS, DESTINATION, WRITER;
    var none, one, two := Groups([], [], []), Groups([SOURCE], [], []), Groups([SOURCE], [TRANSFORM], []);
    assert Field(SOURCE, "type") == Str("source") && Field(TRANSFORM, "type") == Str("transform");
    assert Field(TARGET, "type") == Str("target");
    assert |"transform"| == 9 && |"source"| == 6 && |"target"| == 6 && "source"[0] != "target"[0];
    assert GroupsOf([]) == Success(none);
    assert none.sources + [SOURCE] == [SOURCE] && one.transforms + [TRANSFORM] == [TRANSFORM];
    assert two.targets + [TARGET] == [TARGET];
    NextNode([], Obj(SOURCE), none, one);
    NextNode([Obj(SOURCE)], Obj(TRANSFORM), one, two);
    NextNode([Obj(SOURCE), Obj(TRANSFORM)], Obj(TARGET), two, Groups([SOURCE], [TRANSFORM], [TARGET]));
    Listing();
    assert [] + [Obj(SOURCE)] == [Obj(SOURCE)];
    assert [Obj(SOURCE)] + [Obj(TRANSFORM)] == [Obj(SOURCE), Obj(TRANSFORM)];
  }

  lemma Listing()
    ensures [Obj(SOURCE), Obj(TRANSFORM)] + [Obj(TARGET)] == NODES
  {
  }

  lemma EdgesIndexed()
    ensures EdgesOf(EDGES) == Some(map[("a", "b") := INWARD, ("b", "a") := OUTWARD])
  {
    assert EDGES[..1] == [Obj(INWARD)] && EDGES[..1][..0] == [];
    assert "a" != "b";
    assert EdgesOf([]) == Some(map[]);
    assert EdgesOf([Obj(INWARD)]) == Some(map[("a", "b") := INWARD]);
  }

  lemma OneField(field: Json)
    requires GoodField(field)
    ensures FieldsOf([field]) == Some(Fields([FieldName(field)], map[FieldName(field) := FieldType(field)]))
  {
    hide GoodField, FieldName, FieldType;
    assert [field][..0] == [];
    assert FieldsOf([]) == Some(Fields([], map[]));
    assert [] + [FieldName(field)] == [FieldName(field)];
  }

  lemma TextIsSupported()
    ensures Upper("STRING") == "STRING" && "STRING" in SUPPORTED_TYPES
  {
    assert Upper("STRING") == "STRING";
  }

  lemma FieldsRead(node: JsonObject)
    requires Field(node, "fields") == FIELDS
    ensures NodeFieldsOf(node) == Success(Fields(["x"], map["x" := "STRING"]))
  {
    hide SUPPORTED_TYPES, Upper;
    var field := FIELDS.items[0];
    assert FIELDS.items == [field];
    assert |"cast_to"| == 7 && |"name"| == 4 && |"type"| == 4 && "name"[0] != "type"[0];
    assert Field(field.members, "name") == Str("x") && Field(field.members, "type") == Str("STRING");
    assert Field(field.members, "cast_to") == Null;
    TextIsSupported();
    assert SafeIdentifier("x");
    OneField(field);
  }

  lemma OneMapping(raw: Json, types: map<string, string>)
    requires GoodMapping(raw, types, types)
    ensures MappingTable([raw], types, types) == Some(map[MappingOf(raw).target := MappingOf(raw)])
  {
    hide GoodMapping, MappingOf;
    assert [raw][..0] == [];
    assert MappingTable([], types, types) == Some(map[]);
  }

  lemma MappingsRead(edge: JsonObject)
    requires Field(edge, "mappings") == MAPPINGS && Field(edge, "join") == Null
    ensures DirectMappingsOf(edge, map["x" := "STRING"], map["x" := "STRING"], ["x"]) == Success(RENAME)
  {
    var raw, types := MAPPINGS.items[0], map["x" := "STRING"];
    assert MAPPINGS.items == [raw];
    assert |"transformation"| == 14 && |"source"| == 6 && |"target"| == 6 && "source"[0] != "target"[0];
    assert Field(raw.members, "source") == Str("x") && Field(raw.members, "target") == Str("x");
    assert Field(raw.members, "transformation") == Null;
    assert GoodMapping(raw, types, types) && MappingOf(raw) == DirectMapping("x", "x");
    OneMapping(raw, types);
    var table := map["x" := DirectMapping("x", "x")];
    assert table.Keys == {"x"} && (set f | f in ["x"]) == {"x"};
    assert Listed(table, ["x"]) == RENAME;
  }

  lemma Destination()
    ensures TargetRelation(TARGET, "project") == Success("project.d.t")
  {
    hide FIELDS;
    assert |"write_mode"| == 10 && |"destination"| == 11 && |"partitioning"| == 12 && |"clustering"| == 10;
    assert |"transport"| == 9 && |"schema_evolution"| == 16 && |"business_key"| == 12;
    assert "write_mode"[0] != "clustering"[0];
    assert |"dataset"| == 7 && |"table"| == 5 && |"project"| == 7 && "dataset"[0] != "project"[0];
    assert Field(WRITER, "write_mode") == Str("replace") && Field(WRITER, "destination") == Obj(DESTINATION);
    assert Field(DESTINATION, "dataset") == Str("d") && Field(DESTINATION, "table") == Str("t");
    assert Field(DESTINATION, "project") == Null;
    assert IsDataset("d") && IsTable("t");
    assert "project" + "." + "d" + "." + "t" == "project.d.t";
  }

  lemma Relations()
    ensures SourceTable(RELATIONS, "a", "project") == Success("project.d.s")
  {
    hide SameProjectRelation;
    DottedRelation("project", "d", "s");
    assert "project" + "." + "d" + "." + "s" == "project.d.s";
    assert RELATIONS.members.Keys == {"a"};
  }

  lemma Shape(h: string)
    ensures LinearShapeOf(GRAPH, PlannedInvocation(h)) ==
      Success(LinearShape("a", "b", "a", SOURCE, TRANSFORM, TARGET, INWARD, OUTWARD))
  {
    hide NODES, EDGES, FIELDS, MAPPINGS, WRITER, DESTINATION, ExpectedLinearPlan;
    NodesGrouped();
    EdgesIndexed();
    assert |"name"| == 4 && |"nodes"| == 5 && |"edges"| == 5 && "nodes"[0] != "edges"[0];
    assert |"config"| == 6 && |"fields"| == 6 && "config"[0] != "fields"[0] && |"type"| == 4 && |"id"| == 2;
    assert |"join"| == 4 && |"operations"| == 10;
    assert Field(GRAPH, "name") == Str("pipeline") && Field(GRAPH, "nodes") == Arr(NODES);
    assert Field(GRAPH, "edges") == Arr(EDGES);
    assert NodeId(SOURCE) == Success("a") && NodeId(TRANSFORM) == Success("b") && NodeId(TARGET) == Success("a");
    assert PlainTransform(TRANSFORM);
    var edges := map[("a", "b") := INWARD, ("b", "a") := OUTWARD];
    assert edges.Keys == {("a", "b"), ("b", "a")} && "a" != "b";
  }

  lemma Built(h: string)
    ensures LinearGraphOf(GRAPH, RELATIONS, PlannedInvocation(h)) == Success(BUILT)
  {
    hide SourceTable, TargetRelation, NodeFieldsOf, DirectMappingsOf, LinearShapeOf;
    hide FIELDS, MAPPINGS, WRITER, DESTINATION, RELATIONS, ExpectedLinearPlan, GRAPH;
    Shape(h);
    Endpoints();
    FieldsRead(SOURCE);
    FieldsRead(TRANSFORM);
    FieldsRead(TARGET);
    MappingsRead(INWARD);
    MappingsRead(OUTWARD);
    Relations();
    Destination();
  }

  lemma Endpoints()
    ensures Field(SOURCE, "fields") == Field(TRANSFORM, "fields") == Field(TARGET, "fields") == FIELDS
    ensures Field(INWARD, "mappings") == Field(OUTWARD, "mappings") == MAPPINGS
    ensures Field(INWARD, "join") == Field(OUTWARD, "join") == Null
  {
    hide FIELDS, MAPPINGS, WRITER, DESTINATION;
    assert |"config"| == 6 && |"fields"| == 6 && "config"[0] != "fields"[0] && |"type"| == 4 && |"id"| == 2;
    assert |"join"| == 4 && |"from"| == 4 && |"to"| == 2 && |"mappings"| == 8 && "join"[0] != "from"[0];
  }

  lemma PlanAccepted()
    ensures ValidateLinearPlan(ExpectedLinearPlan("pipeline", BUILT, 2), "pipeline", BUILT) == Some(2)
  {
    var plan := ExpectedLinearPlan("pipeline", BUILT, 2);
    LinearPlanRead("pipeline", BUILT, 2);
    assert Field(plan.members, "maximum_parallelism") == Int(2) by {
      hide StageJson, ExchangeJson, Strings;
      assert |"maximum_parallelism"| == 19 && |"pipeline_id"| == 11 && |"execution_mode"| == 14;
      assert |"stages"| == 6 && |"exchanges"| == 9;
    }
  }

  const DOCUMENT_NAMES := ["schema", "graph_content_sha256", "graph", "source_relations"]

  /** The configuration document of this graph, whatever the digest function. */
  ghost function Document(sha256: string -> string): Json {
    ConfigurationDocument(CONFIGURATION_SCHEMA, GRAPH, RELATIONS, sha256)
  }

  // ---------------------------------------------------------------- its size

  lemma ShortText(s: string, bound: nat)
    requires 6 * |s| + 2 <= bound
    ensures Utf8Length(Encode(Str(s))) <= bound
  {
    TextBytes(s);
  }

  lemma FieldsSize()
    ensures Utf8Length(Encode(FIELDS)) <= 200
  {
    hide Utf8Length, Encode;
    var field := map["name" := Str("x"), "type" := Str("STRING")];
    ShortText("x", 38);
    ShortText("STRING", 38);
    ObjectBytes(field, ["name", "type"], 4, 38);
    ArrayBytes([Obj(field)], 150);
  }

  lemma MappingsSize()
    ensures Utf8Length(Encode(MAPPINGS)) <= 200
  {
    hide Utf8Length, Encode;
    var mapping := map["source" := Str("x"), "target" := Str("x")];
    ShortText("x", 8);
    ObjectBytes(mapping, ["source", "target"], 6, 8);
    ArrayBytes([Obj(mapping)], 150);
  }

  lemma DestinationSize()
    ensures Utf8Length(Encode(Obj(DESTINATION))) <= 150
  {
    hide Utf8Length, Encode;
    ShortText("d", 8);
    ShortText("t", 8);
    ObjectBytes(DESTINATION, ["dataset", "table"], 7, 8);
  }

  lemma WriterSize()
    ensures Utf8Length(Encode(Obj(WRITER))) <= 500
  {
    hide Utf8Length, Encode, DESTINATION;
    DestinationSize();
    ShortText("replace", 150);
    ObjectBytes(WRITER, ["write_mode", "destination"], 11, 150);
  }

  lemma ConfigSize()
    ensures Utf8Length(Encode(Obj(map["writer" := Obj(WRITER)]))) <= 600
    ensures Utf8Length(Encode(Obj(map[]))) <= 600
  {
    hide Utf8Length, Encode, WRITER;
    var config := map["writer" := Obj(WRITER)];
    WriterSize();
    ObjectBytes(config, ["writer"], 6, 500);
    ObjectBytes(map[], [], 0, 0);
  }

  lemma SourceSize()
    ensures Utf8Length(Encode(Obj(SOURCE))) <= 3000
  {
    hide Utf8Length, Encode, FIELDS;
    FieldsSize();
    ShortText("a", 600);
    ShortText("source", 600);
    ObjectBytes(SOURCE, ["id", "type", "fields"], 6, 600);
  }

  lemma TransformSize()
    ensures Utf8Length(Encode(Obj(TRANSFORM))) <= 3000
  {
    hide Utf8Length, Encode, FIELDS;
    FieldsSize();
    ConfigSize();
    ShortText("b", 600);
    ShortText("transform", 600);
    ObjectBytes(TRANSFORM, ["id", "type", "fields", "config"], 6, 600);
  }

  lemma TargetSize()
    ensures Utf8Length(Encode(Obj(TARGET))) <= 3000
  {
    hide Utf8Length, Encode, FIELDS, WRITER;
    FieldsSize();
    ConfigSize();
    ShortText("a", 600);
    ShortText("target", 600);
    ObjectBytes(TARGET, ["id", "type", "fields", "config"], 6, 600);
  }

  lemma EdgesSize()
    ensures Utf8Length(Encode(Arr(EDGES))) <= 10000
  {
    hide Utf8Length, Encode, MAPPINGS;
    MappingsSize();
    ShortText("a", 200);
    ShortText("b", 200);
    ObjectBytes(INWARD, ["from", "to", "mappings"], 8, 200);
    ObjectBytes(OUTWARD, ["from", "to", "mappings"], 8, 200);
    ArrayBytes(EDGES, 1000);
  }

  lemma NodesSize()
    ensures Utf8Length(Encode(Arr(NODES))) <= 10000
  {
    hide Utf8Length, Encode, SOURCE, TRANSFORM, TARGET;
    SourceSize();
    TransformSize();
    TargetSize();
    ArrayBytes(NODES, 3000);
  }

  lemma GraphSize()
    ensures Utf8Length(Encode(Obj(GRAPH))) <= 40000
  {
    hide Utf8Length, Encode, SOURCE, TRANSFORM, TARGET, EDGES, NODES;
    NodesSize();
    EdgesSize();
    ShortText("pipeline", 10000);
    ObjectBytes(GRAPH, ["name", "nodes", "edges"], 5, 10000);
  }

  lemma NameLengths()
    ensures forall k :: k in DOCUMENT_NAMES ==> |k| <= 20
    ensures |DOCUMENT_NAMES| == 4
    ensures |CONFIGURATION_SCHEMA| <= 64
  {
    assert |"schema"| == 6 && |"graph_content_sha256"| == 20 && |"graph"| == 5 && |"source_relations"| == 16;
  }

  lemma PartsFit(graph: JsonObject, relations: Json, sha256: string -> string, bound: nat)
    requires |sha256(Encode(Obj(graph)))| == 64 && bound >= 386
    requires Utf8Length(Encode(Obj(graph))) <= bound && Utf8Length(Encode(relations)) <= bound
    ensures Utf8Length(Encode(ConfigurationDocument(CONFIGURATION_SCHEMA, graph, relations, sha256))) <=
      2 + 4 * (120 + bound + 4)
  {
    hide Utf8Length, Encode, ConfigurationDocument, DOCUMENT_NAMES, CONFIGURATION_SCHEMA;
    var document := ConfigurationDocument(CONFIGURATION_SCHEMA, graph, relations, sha256);
    DocumentFields(CONFIGURATION_SCHEMA, graph, relations, sha256);
    NameLengths();
    ShortText(CONFIGURATION_SCHEMA, bound);
    ShortText(sha256(Encode(Obj(graph))), bound);
    MembersNamed(document.members);
    ObjectBytes(document.members, DOCUMENT_NAMES, 20, bound);
  }

  lemma MembersNamed(members: JsonObject)
    requires members.Keys == {"schema", "graph_content_sha256", "graph", "source_relations"}
    ensures forall k :: k in members ==> k in DOCUMENT_NAMES
  {
  }

  lemma RelationsSize()
    ensures Utf8Length(Encode(RELATIONS)) <= 200
  {
    hide Utf8Length, Encode;
    ShortText("project.d.s", 100);
    ObjectBytes(RELATIONS.members, ["a"], 1, 100);
  }

  /** With a digest of 64 characters the document fits easily. */
  lemma DocumentFits(sha256: string -> string)
    requires |sha256(Encode(Obj(GRAPH)))| == 64
    ensures Utf8Length(Encode(Document(sha256))) <= MAX_CONFIGURATION_BYTES
  {
    hide Utf8Length, Encode, GRAPH, RELATIONS, ConfigurationDocument;
    RelationsSize();
    GraphSize();
    PartsFit(GRAPH, RELATIONS, sha256, 40000);
  }

  /** The target repeats the source's id, yet the document is accepted; its stages do not partition its nodes. */
  lemma RepeatedIdAccepted(sha256: string -> string)
    requires |sha256(Encode(Obj(GRAPH)))| == 64
    ensures var raw := Encode(Document(sha256));
      ConfigurationOf(raw, PlannedInvocation(sha256(Encode(Obj(GRAPH)))), sha256) ==
      Success(Configuration(Linear(BUILT), 2, sha256(raw)))
    ensures BUILT.sourceId == BUILT.targetId
    ensures !PartitionsNodes(LinearPlan(BUILT, 2), {BUILT.sourceId, BUILT.transformId, BUILT.targetId})
  {
    hide GRAPH, RELATIONS, ExpectedLinearPlan, LinearGraphOf, PayloadOf, PartitionsNodes, Encode, ConfigurationDocument;
    var invocation := PlannedInvocation(sha256(Encode(Obj(GRAPH))));
    Built(invocation.graphContentSha256);
    PlanAccepted();
    DocumentFits(sha256);
    DocumentAccepted(CONFIGURATION_SCHEMA, GRAPH, RELATIONS, invocation, sha256);
    LinearPartitionsIffDistinct(BUILT, 2);
    var ids := [BUILT.sourceId, BUILT.transformId, BUILT.targetId];
    assert ids[0] == ids[2];
  }
}
