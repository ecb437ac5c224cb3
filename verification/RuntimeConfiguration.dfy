/** Verifying one canonical, content-addressed configuration and reducing it to an executable graph. */
module RuntimeConfiguration {
  import opened Wrappers
  import opened CanonicalJson
  import opened CanonicalIdentity
  import opened GraphConfiguration
  import opened GraphGuarantees
  import opened PhysicalPlan
  import opened Meaning

  const CONFIGURATION_SCHEMA := "io.dander.spark-linear-configuration/v1"
  const MULTISTAGE_LINEAR_CONFIGURATION_SCHEMA := "io.dander.spark-multistage-linear-configuration/v1"
  const KEYED_JOIN_CONFIGURATION_SCHEMA := "io.dander.spark-keyed-join-configuration/v1"
  const MAX_CONFIGURATION_BYTES := 1048576

  datatype Graph =
    | Linear(linear: LinearGraph)
    | Multistage(multistage: MultistageLinearGraph)
    | KeyedJoin(join: KeyedJoinGraph)

  datatype Configuration = Configuration(graph: Graph, partitions: int, contentSha256: string)

  datatype Planned = Planned(graph: Graph, partitions: int)

  /** The builder and the plan validator the schema selects. */
  function PlannedGraph(schema: string, graph: JsonObject, relations: Json, invocation: Invocation):
    Result<Planned, ConfigError>
  {
    if schema == CONFIGURATION_SCHEMA then
      var g :- LinearGraphOf(graph, relations, invocation);
      var n :- OrRejected(ValidateLinearPlan(invocation.physicalPlan, invocation.pipelineId, g));
      Success(Planned(Linear(g), n))
    else if schema == MULTISTAGE_LINEAR_CONFIGURATION_SCHEMA then
      var g :- MultistageGraphOf(graph, relations, invocation);
      var n :- OrRejected(ValidateMultistagePlan(invocation.physicalPlan, invocation.pipelineId, g));
      Success(Planned(Multistage(g), n))
    else
      var g :- KeyedJoinGraphOf(graph, relations, invocation);
      var n :- OrRejected(ValidateJoinPlan(invocation.physicalPlan, invocation.pipelineId, g));
      Success(Planned(KeyedJoin(g), n))
  }

  datatype Payload = Payload(schema: string, graph: JsonObject, relations: Json)

  /** The payload checks: size, canonical text, exact fields, schema, and graph identity; sha256 is any digest. */
  function PayloadOf(raw: string, invocation: Invocation, sha256: string -> string): Result<Payload, ConfigError> {
    if raw == [] || Utf8Length(raw) > MAX_CONFIGURATION_BYTES then Failure(Rejected) else
    var payload :- OrRejected(Loads(raw));
    if raw != Encode(payload) || !payload.Obj? then Failure(Rejected) else
    var m := payload.members;
    if m.Keys != {"schema", "graph_content_sha256", "graph", "source_relations"} then Failure(Rejected) else
    if m["schema"].Arr? || m["schema"].Obj? then Failure(Crashed) else
    if !m["schema"].Str? || m["schema"].text !in
      {CONFIGURATION_SCHEMA, MULTISTAGE_LINEAR_CONFIGURATION_SCHEMA, KEYED_JOIN_CONFIGURATION_SCHEMA}
    then Failure(Rejected) else
    if !m["graph"].Obj? || !m["graph_content_sha256"].Str? then Failure(Rejected) else
    var identity := m["graph_content_sha256"].text;
    if identity != sha256(Encode(m["graph"])) || identity != invocation.graphContentSha256 then Failure(Rejected) else
    Success(Payload(m["schema"].text, m["graph"].members, m["source_relations"]))
  }

  function ConfigurationOf(raw: string, invocation: Invocation, sha256: string -> string):
    Result<Configuration, ConfigError>
  {
    var payload :- PayloadOf(raw, invocation, sha256);
    var planned :- PlannedGraph(payload.schema, payload.graph, payload.relations, invocation);
    Success(Configuration(planned.graph, planned.partitions, sha256(raw)))
  }

  /** The document that carries a graph, its source bindings and its digest. */
  ghost function ConfigurationDocument(
    schema: string, graph: JsonObject, relations: Json, sha256: string -> string): Json
  {
    Obj(map[
      "schema" := Str(schema), "graph_content_sha256" := Str(sha256(Encode(Obj(graph)))), "graph" := Obj(graph),
      "source_relations" := relations])
  }

  /** Written canonically for the invocation's digest, a document passes the checks exactly when it fits the bound. */
  lemma DocumentAccepted(
    schema: string, graph: JsonObject, relations: Json, invocation: Invocation, sha256: string -> string)
    requires schema in
      {CONFIGURATION_SCHEMA, MULTISTAGE_LINEAR_CONFIGURATION_SCHEMA, KEYED_JOIN_CONFIGURATION_SCHEMA}
    requires invocation.graphContentSha256 == sha256(Encode(Obj(graph)))
    ensures var raw := Encode(ConfigurationDocument(schema, graph, relations, sha256));
      PayloadOf(raw, invocation, sha256) ==
      if Utf8Length(raw) <= MAX_CONFIGURATION_BYTES then Success(Payload(schema, graph, relations))
      else Failure(Rejected)
  {
    hide Encode, Utf8Length;
    var document := ConfigurationDocument(schema, graph, relations, sha256);
    LoadsEncode(document);
    EncodeNonEmpty(document);
    DocumentFields(schema, graph, relations, sha256);
  }

  lemma EncodeNonEmpty(v: Json)
    ensures Encode(v) != []
  {
    EmitHead(SortedDoc(v), false);
  }

  lemma DocumentFields(schema: string, graph: JsonObject, relations: Json, sha256: string -> string)
    ensures ConfigurationDocument(schema, graph, relations, sha256).Obj?
    ensures var m := ConfigurationDocument(schema, graph, relations, sha256).members;
      m.Keys == {"schema", "graph_content_sha256", "graph", "source_relations"} && m["schema"] == Str(schema) &&
      m["graph_content_sha256"] == Str(sha256(Encode(Obj(graph)))) && m["graph"] == Obj(graph) &&
      m["source_relations"] == relations
  {
    hide Encode;
    assert |"schema"| == 6 && |"graph_content_sha256"| == 20 && |"graph"| == 5 && |"source_relations"| == 16;
  }

  // ---------------------------------------------------------------- what acceptance guarantees

  ghost predicate TotalGraph(g: Graph) {
    match g
    case Linear(l) => TotalLinear(l)
    case Multistage(m) => TotalMultistage(m)
    case KeyedJoin(j) => TotalJoin(j)
  }

  lemma PlannedTotal(schema: string, graph: JsonObject, relations: Json, invocation: Invocation)
    requires PlannedGraph(schema, graph, relations, invocation).Success?
    ensures TotalGraph(PlannedGraph(schema, graph, relations, invocation).value.graph)
  {
    if schema == CONFIGURATION_SCHEMA {
      var g := LinearGraphOf(graph, relations, invocation).value;
      var s, t, d := LinearGraphTyped(graph, relations, invocation, g);
      LinearAcceptedTotal(g, s, t, d);
    } else if schema == MULTISTAGE_LINEAR_CONFIGURATION_SCHEMA {
      var g := MultistageGraphOf(graph, relations, invocation).value;
      var s, a, b, d := MultistageGraphTyped(graph, relations, invocation, g);
      MultistageAcceptedTotal(g, s, a, b, d);
    } else {
      var g := KeyedJoinGraphOf(graph, relations, invocation).value;
      var l, r, t, d := KeyedJoinGraphTyped(graph, relations, invocation, g);
      JoinAcceptedTotal(g, l, r, t, d);
    }
  }

  lemma PayloadCanonical(raw: string, invocation: Invocation, sha256: string -> string)
    requires PayloadOf(raw, invocation, sha256).Success?
    ensures Accepted(raw)
  {
  }

  lemma PlannedPartitions(schema: string, graph: JsonObject, relations: Json, invocation: Invocation)
    requires PlannedGraph(schema, graph, relations, invocation).Success?
    ensures 2 <= PlannedGraph(schema, graph, relations, invocation).value.partitions <= 2000
  {
    assert PartitionCount(invocation.physicalPlan).Some?;
  }

  /** Any accepted configuration is canonical text with a graph of defined projections, on 2 to 2000 partitions. */
  lemma AcceptedConfigurationTotal(raw: string, invocation: Invocation, sha256: string -> string, c: Configuration)
    requires ConfigurationOf(raw, invocation, sha256) == Success(c)
    ensures Accepted(raw) && TotalGraph(c.graph) && 2 <= c.partitions <= 2000
  {
    var payload := PayloadOf(raw, invocation, sha256).value;
    PayloadCanonical(raw, invocation, sha256);
    ComposedConfiguration(payload, raw, invocation, sha256, c);
  }

  lemma ComposedConfiguration(
    payload: Payload, raw: string, invocation: Invocation, sha256: string -> string, c: Configuration)
    requires PayloadOf(raw, invocation, sha256) == Success(payload)
    requires ConfigurationOf(raw, invocation, sha256) == Success(c)
    ensures TotalGraph(c.graph) && 2 <= c.partitions <= 2000
  {
    PlannedTotal(payload.schema, payload.graph, payload.relations, invocation);
    PlannedPartitions(payload.schema, payload.graph, payload.relations, invocation);
  }
}
