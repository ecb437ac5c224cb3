/** The three plan validators, and the staged structure every accepted plan has. */
module PhysicalPlan {
  import opened Text
  import opened Wrappers
  import opened CanonicalJson
  import opened GraphConfiguration

  // ---------------------------------------------------------------- expected plans

  /** Two ids in code-point order. */
  function SortedTwo(a: string, b: string): seq<string> {
    if Leq(a, b) then [a, b] else [b, a]
  }

  function Strings(ss: seq<string>): Json {
    Arr(seq(|ss|, i requires 0 <= i < |ss| => Str(ss[i])))
  }

  function StageJson(id: string, operators: seq<string>, n: int, dependsOn: seq<string>): Json {
    Obj(map[
      "stage_id" := Str(id), "operators" := Strings(operators), "partition_count" := Int(n),
      "depends_on" := Strings(dependsOn)])
  }

  function ExchangeJson(
    id: string, producer: string, consumer: string, partitioning: string, n: int, keys: seq<string>):
    Json
  {
    Obj(map[
      "exchange_id" := Str(id), "producer_stage_id" := Str(producer), "consumer_stage_id" := Str(consumer),
      "transport" := Str("object_store"), "partitioning" := Str(partitioning), "partition_count" := Int(n),
      "partition_keys" := Strings(keys)])
  }

  function PlanJson(pipelineId: string, stages: seq<Json>, exchanges: seq<Json>, n: int): Json {
    Obj(map[
      "pipeline_id" := Str(pipelineId), "execution_mode" := Str("distributed"), "stages" := Arr(stages),
      "exchanges" := Arr(exchanges), "maximum_parallelism" := Int(n)])
  }

  function ExpectedLinearPlan(pipelineId: string, g: LinearGraph, n: int): Json {
    PlanJson(
      pipelineId,
      [StageJson("extract", [g.sourceId], n, []),
       StageJson("transform", SortedTwo(g.transformId, g.targetId), n, ["extract"])],
      [ExchangeJson("extract-transform", "extract", "transform", "round_robin", n, [])],
      n)
  }

  function ExpectedMultistagePlan(pipelineId: string, g: MultistageLinearGraph, n: int): Json {
    PlanJson(
      pipelineId,
      [StageJson("extract", [g.sourceId], n, []),
       StageJson("transform-a", [g.firstTransformId], n, ["extract"]),
       StageJson("transform-b", SortedTwo(g.secondTransformId, g.targetId), n, ["transform-a"])],
      [ExchangeJson("extract-transform-a", "extract", "transform-a", "round_robin", n, []),
       ExchangeJson("transform-a-transform-b", "transform-a", "transform-b", "round_robin", n, [])],
      n)
  }

  function ExpectedJoinPlan(pipelineId: string, g: KeyedJoinGraph, n: int): Json {
    PlanJson(
      pipelineId,
      [StageJson("extract-left", [g.left.sourceId], n, []),
       StageJson("extract-right", [g.right.sourceId], n, []),
       StageJson("join", SortedTwo(g.transformId, g.targetId), n, ["extract-left", "extract-right"])],
      [ExchangeJson("left-join", "extract-left", "join", "hash", n, [g.left.joinKey]),
       ExchangeJson("right-join", "extract-right", "join", "hash", n, [g.right.joinKey])],
      n)
  }

  /** The planned partition count, when it is an integer from 2 to 2000; a bool is not one. */
  function PartitionCount(plan: Json): Option<int> {
    if plan.Obj? && Field(plan.members, "maximum_parallelism").Int? &&
       2 <= Field(plan.members, "maximum_parallelism").number <= 2000
    then Some(Field(plan.members, "maximum_parallelism").number)
    else None
  }

  function ValidateLinearPlan(plan: Json, pipelineId: string, g: LinearGraph): Option<int> {
    var n :- PartitionCount(plan);
    if plan == ExpectedLinearPlan(pipelineId, g, n) then Some(n) else None
  }

  function ValidateMultistagePlan(plan: Json, pipelineId: string, g: MultistageLinearGraph): Option<int> {
    var n :- PartitionCount(plan);
    if plan == ExpectedMultistagePlan(pipelineId, g, n) then Some(n) else None
  }

  function ValidateJoinPlan(plan: Json, pipelineId: string, g: KeyedJoinGraph): Option<int> {
    var n :- PartitionCount(plan);
    if plan == ExpectedJoinPlan(pipelineId, g, n) then Some(n) else None
  }

  // ---------------------------------------------------------------- reading any plan

  datatype Stage = Stage(id: string, operators: seq<string>, partitions: int, dependsOn: seq<string>)

  datatype Exchange = Exchange(
    id: string, producer: string, consumer: string, transport: string, partitioning: string, partitions: int,
    keys: seq<string>)

  datatype Plan = Plan(stages: seq<Stage>, exchanges: seq<Exchange>, parallelism: int)

  predicate IsStrings(v: Json) {
    v.Arr? && forall i :: 0 <= i < |v.items| ==> v.items[i].Str?
  }

  function StringsOf(v: Json): seq<string>
    requires IsStrings(v)
  {
    seq(|v.items|, i requires 0 <= i < |v.items| => v.items[i].text)
  }

  predicate IsStage(v: Json) {
    v.Obj? && Field(v.members, "stage_id").Str? && IsStrings(Field(v.members, "operators")) &&
    Field(v.members, "partition_count").Int? && IsStrings(Field(v.members, "depends_on"))
  }

  function StageOf(v: Json): Stage
    requires IsStage(v)
  {
    Stage(
      Field(v.members, "stage_id").text, StringsOf(Field(v.members, "operators")),
      Field(v.members, "partition_count").number, StringsOf(Field(v.members, "depends_on")))
  }

  predicate IsExchange(v: Json) {
    v.Obj? && Field(v.members, "exchange_id").Str? && Field(v.members, "producer_stage_id").Str? &&
    Field(v.members, "consumer_stage_id").Str? && Field(v.members, "transport").Str? &&
    Field(v.members, "partitioning").Str? && Field(v.members, "partition_count").Int? &&
    IsStrings(Field(v.members, "partition_keys"))
  }

  function ExchangeOf(v: Json): Exchange
    requires IsExchange(v)
  {
    Exchange(
      Field(v.members, "exchange_id").text, Field(v.members, "producer_stage_id").text,
      Field(v.members, "consumer_stage_id").text, Field(v.members, "transport").text,
      Field(v.members, "partitioning").text, Field(v.members, "partition_count").number,
      StringsOf(Field(v.members, "partition_keys")))
  }

  predicate IsPlan(v: Json) {
    v.Obj? && Field(v.members, "stages").Arr? && Field(v.members, "exchanges").Arr? &&
    Field(v.members, "maximum_parallelism").Int? &&
    (forall i :: 0 <= i < |Field(v.members, "stages").items| ==> IsStage(Field(v.members, "stages").items[i])) &&
    (forall i :: 0 <= i < |Field(v.members, "exchanges").items| ==> IsExchange(Field(v.members, "exchanges").items[i]))
  }

  function PlanOf(v: Json): Plan
    requires IsPlan(v)
  {
    var stages, exchanges := Field(v.members, "stages").items, Field(v.members, "exchanges").items;
    Plan(
      seq(|stages|, i requires 0 <= i < |stages| => StageOf(stages[i])),
      seq(|exchanges|, i requires 0 <= i < |exchanges| => ExchangeOf(exchanges[i])),
      Field(v.members, "maximum_parallelism").number)
  }

  // ---------------------------------------------------------------- structure of a staged plan

  predicate Holds(p: Plan, stage: int, node: string) {
    0 <= stage < |p.stages| && node in p.stages[stage].operators
  }

  /** The stages split the nodes: every node runs in one place, and nothing else runs. */
  ghost predicate PartitionsNodes(p: Plan, nodes: set<string>) {
    (forall i, v :: Holds(p, i, v) ==> v in nodes) &&
    (forall v :: v in nodes ==> exists i :: Holds(p, i, v)) &&
    (forall i, j, v :: Holds(p, i, v) && Holds(p, j, v) ==> i == j) &&
    (forall i :: 0 <= i < |p.stages| ==> Distinct(p.stages[i].operators))
  }

  predicate IsNamed(p: Plan, stage: int, id: string) {
    0 <= stage < |p.stages| && p.stages[stage].id == id
  }

  predicate DependsOn(p: Plan, stage: int, id: string) {
    0 <= stage < |p.stages| && id in p.stages[stage].dependsOn
  }

  /** Stage ids are unique, and dependencies point to earlier stages only. */
  ghost predicate Ordered(p: Plan) {
    (forall i, j, id :: IsNamed(p, i, id) && IsNamed(p, j, id) ==> i == j) &&
    forall i, d :: DependsOn(p, i, d) ==> exists j :: j < i && IsNamed(p, j, d)
  }

  /** depends_on is the producer/consumer relation of the exchanges. */
  ghost predicate DependsOnProducers(p: Plan) {
    forall i, d :: 0 <= i < |p.stages| ==> (DependsOn(p, i, d) <==> exists k :: Links(p, k, d, p.stages[i].id))
  }

  predicate Links(p: Plan, k: int, producer: string, consumer: string) {
    0 <= k < |p.exchanges| && p.exchanges[k].producer == producer && p.exchanges[k].consumer == consumer
  }

  /** The exchange moves rows from a's stage to b's stage. */
  ghost predicate Carries(p: Plan, k: int, a: string, b: string) {
    0 <= k < |p.exchanges| &&
    (exists i :: Holds(p, i, a) && IsNamed(p, i, p.exchanges[k].producer)) &&
    (exists j :: Holds(p, j, b) && IsNamed(p, j, p.exchanges[k].consumer))
  }

  ghost predicate Internal(p: Plan, a: string, b: string) {
    exists i :: Holds(p, i, a) && Holds(p, i, b)
  }

  /** The edge stays inside one stage or crosses exactly one exchange, never both. */
  ghost predicate EdgeRealized(p: Plan, a: string, b: string) {
    (Internal(p, a, b) <==> !exists k :: Carries(p, k, a, b)) &&
    (forall k, l :: Carries(p, k, a, b) && Carries(p, l, a, b) ==> k == l)
  }

  ghost predicate Serves(p: Plan, k: int, edges: set<Pair>) {
    exists a, b :: (a, b) in edges && Carries(p, k, a, b)
  }

  /** Every logical edge is realized once, and every exchange serves one. */
  ghost predicate CarriesEdges(p: Plan, edges: set<Pair>) {
    (forall a, b :: (a, b) in edges ==> EdgeRealized(p, a, b)) &&
    (forall k :: 0 <= k < |p.exchanges| ==> Serves(p, k, edges))
  }

  predicate UniformPartitions(p: Plan, n: int) {
    2 <= n <= 2000 && p.parallelism == n && (forall i :: 0 <= i < |p.stages| ==> p.stages[i].partitions == n) &&
    (forall k :: 0 <= k < |p.exchanges| ==>
      p.exchanges[k].partitions == n && p.exchanges[k].transport == "object_store")
  }

  /** The part of staging that has nothing to do with node ids. */
  ghost predicate Scheduled(p: Plan, n: int) {
    Ordered(p) && DependsOnProducers(p) && UniformPartitions(p, n)
  }

  ghost predicate Staged(p: Plan, nodes: set<string>, edges: set<Pair>, n: int) {
    PartitionsNodes(p, nodes) && CarriesEdges(p, edges) && Scheduled(p, n)
  }

  // ---------------------------------------------------------------- the three plan structures

  function LinearPlan(g: LinearGraph, n: int): Plan {
    Plan(
      [Stage("extract", [g.sourceId], n, []), Stage("transform", SortedTwo(g.transformId, g.targetId), n, ["extract"])],
      [Exchange("extract-transform", "extract", "transform", "object_store", "round_robin", n, [])],
      n)
  }

  function MultistagePlan(g: MultistageLinearGraph, n: int): Plan {
    Plan(
      [Stage("extract", [g.sourceId], n, []), Stage("transform-a", [g.firstTransformId], n, ["extract"]),
       Stage("transform-b", SortedTwo(g.secondTransformId, g.targetId), n, ["transform-a"])],
      [Exchange("extract-transform-a", "extract", "transform-a", "object_store", "round_robin", n, []),
       Exchange("transform-a-transform-b", "transform-a", "transform-b", "object_store", "round_robin", n, [])],
      n)
  }

  function JoinPlan(g: KeyedJoinGraph, n: int): Plan {
    Plan(
      [Stage("extract-left", [g.left.sourceId], n, []), Stage("extract-right", [g.right.sourceId], n, []),
       Stage("join", SortedTwo(g.transformId, g.targetId), n, ["extract-left", "extract-right"])],
      [Exchange("left-join", "extract-left", "join", "object_store", "hash", n, [g.left.joinKey]),
       Exchange("right-join", "extract-right", "join", "object_store", "hash", n, [g.right.joinKey])],
      n)
  }

  lemma StringsRead(ss: seq<string>)
    ensures IsStrings(Strings(ss)) && StringsOf(Strings(ss)) == ss
  {
  }

  lemma StageRead(id: string, operators: seq<string>, n: int, dependsOn: seq<string>)
    ensures IsStage(StageJson(id, operators, n, dependsOn))
    ensures StageOf(StageJson(id, operators, n, dependsOn)) == Stage(id, operators, n, dependsOn)
  {
    StringsRead(operators);
    StringsRead(dependsOn);
  }

  lemma ExchangeRead(id: string, producer: string, consumer: string, partitioning: string, n: int, keys: seq<string>)
    ensures IsExchange(ExchangeJson(id, producer, consumer, partitioning, n, keys))
    ensures ExchangeOf(ExchangeJson(id, producer, consumer, partitioning, n, keys)) ==
      Exchange(id, producer, consumer, "object_store", partitioning, n, keys)
  {
    StringsRead(keys);
  }

  lemma LinearPlanRead(pipelineId: string, g: LinearGraph, n: int)
    ensures IsPlan(ExpectedLinearPlan(pipelineId, g, n))
    ensures PlanOf(ExpectedLinearPlan(pipelineId, g, n)) == LinearPlan(g, n)
  {
    StageRead("extract", [g.sourceId], n, []);
    StageRead("transform", SortedTwo(g.transformId, g.targetId), n, ["extract"]);
    ExchangeRead("extract-transform", "extract", "transform", "round_robin", n, []);
    assert PlanOf(ExpectedLinearPlan(pipelineId, g, n)).stages == LinearPlan(g, n).stages;
    assert PlanOf(ExpectedLinearPlan(pipelineId, g, n)).exchanges == LinearPlan(g, n).exchanges;
  }

  lemma MultistagePlanRead(pipelineId: string, g: MultistageLinearGraph, n: int)
    ensures IsPlan(ExpectedMultistagePlan(pipelineId, g, n))
    ensures PlanOf(ExpectedMultistagePlan(pipelineId, g, n)) == MultistagePlan(g, n)
  {
    StageRead("extract", [g.sourceId], n, []);
    StageRead("transform-a", [g.firstTransformId], n, ["extract"]);
    StageRead("transform-b", SortedTwo(g.secondTransformId, g.targetId), n, ["transform-a"]);
    ExchangeRead("extract-transform-a", "extract", "transform-a", "round_robin", n, []);
    ExchangeRead("transform-a-transform-b", "transform-a", "transform-b", "round_robin", n, []);
    assert PlanOf(ExpectedMultistagePlan(pipelineId, g, n)).stages == MultistagePlan(g, n).stages;
    assert PlanOf(ExpectedMultistagePlan(pipelineId, g, n)).exchanges == MultistagePlan(g, n).exchanges;
  }

  lemma JoinPlanRead(pipelineId: string, g: KeyedJoinGraph, n: int)
    ensures IsPlan(ExpectedJoinPlan(pipelineId, g, n))
    ensures PlanOf(ExpectedJoinPlan(pipelineId, g, n)) == JoinPlan(g, n)
  {
    StageRead("extract-left", [g.left.sourceId], n, []);
    StageRead("extract-right", [g.right.sourceId], n, []);
    StageRead("join", SortedTwo(g.transformId, g.targetId), n, ["extract-left", "extract-right"]);
    ExchangeRead("left-join", "extract-left", "join", "hash", n, [g.left.joinKey]);
    ExchangeRead("right-join", "extract-right", "join", "hash", n, [g.right.joinKey]);
    assert PlanOf(ExpectedJoinPlan(pipelineId, g, n)).stages == JoinPlan(g, n).stages;
    assert PlanOf(ExpectedJoinPlan(pipelineId, g, n)).exchanges == JoinPlan(g, n).exchanges;
  }

  // ---------------------------------------------------------------- main results

  lemma SortedTwoMembers(a: string, b: string)
    ensures forall v :: v in SortedTwo(a, b) <==> v == a || v == b
    ensures Distinct(SortedTwo(a, b)) <==> a != b
  {
    var s := SortedTwo(a, b);
    assert (s[0] == a && s[1] == b) || (s[0] == b && s[1] == a);
  }

  /** The stages split a linear graph's nodes exactly when its ids are distinct, which the driver never checks. */
  lemma LinearPartitionsIffDistinct(g: LinearGraph, n: int)
    ensures PartitionsNodes(LinearPlan(g, n), {g.sourceId, g.transformId, g.targetId}) <==>
      Distinct([g.sourceId, g.transformId, g.targetId])
  {
    var p, ids := LinearPlan(g, n), [g.sourceId, g.transformId, g.targetId];
    SortedTwoMembers(g.transformId, g.targetId);
    if Distinct(ids) {
      assert ids[0] != ids[1] && ids[0] != ids[2] && ids[1] != ids[2];
      assert Holds(p, 0, ids[0]) && Holds(p, 1, ids[1]) && Holds(p, 1, ids[2]);
    }
    if PartitionsNodes(p, {g.sourceId, g.transformId, g.targetId}) {
      assert Holds(p, 0, ids[0]) && Holds(p, 1, ids[1]) && Holds(p, 1, ids[2]);
      assert Distinct(p.stages[1].operators);
    }
  }

  /**
   Every accepted linear plan is ordered, linked and uniform; it is a staged execution of its graph exactly when the
   node ids are distinct.
  */
  lemma LinearPlanStaged(plan: Json, pipelineId: string, g: LinearGraph, n: int)
    requires ValidateLinearPlan(plan, pipelineId, g) == Some(n)
    ensures IsPlan(plan) && Scheduled(PlanOf(plan), n)
    ensures Staged(
      PlanOf(plan), {g.sourceId, g.transformId, g.targetId},
      {(g.sourceId, g.transformId), (g.transformId, g.targetId)}, n) <==>
      Distinct([g.sourceId, g.transformId, g.targetId])
  {
    hide Distinct, PartitionsNodes, CarriesEdges, Scheduled, LinearPlan, ExpectedLinearPlan;
    LinearPlanRead(pipelineId, g, n);
    LinearPartitionsIffDistinct(g, n);
    LinearPlanLinks(g, n);
    if Distinct([g.sourceId, g.transformId, g.targetId]) {
      LinearPlanEdges(g, n);
    }
  }

  lemma LinearPlanLinks(g: LinearGraph, n: int)
    requires 2 <= n <= 2000
    ensures Scheduled(LinearPlan(g, n), n)
  {
    var p := LinearPlan(g, n);
    assert IsNamed(p, 0, "extract");
    assert Links(p, 0, "extract", "transform");
  }

  lemma LinearPlanEdges(g: LinearGraph, n: int)
    requires Distinct([g.sourceId, g.transformId, g.targetId])
    ensures CarriesEdges(LinearPlan(g, n), {(g.sourceId, g.transformId), (g.transformId, g.targetId)})
  {
    var p := LinearPlan(g, n);
    var s, t, d := g.sourceId, g.transformId, g.targetId;
    var ids := [s, t, d];
    assert ids[0] != ids[1] && ids[0] != ids[2] && ids[1] != ids[2];
    SortedTwoMembers(t, d);
    assert Holds(p, 0, s) && IsNamed(p, 0, "extract") && Holds(p, 1, t) && Holds(p, 1, d) && IsNamed(p, 1, "transform");
    assert Carries(p, 0, s, t);
    var edges := {(s, t), (t, d)};
    assert (s, t) in edges;
    assert Serves(p, 0, edges);
  }

  /**
   Every accepted multistage plan is ordered, linked and uniform; it is a staged execution of its graph exactly when the
   node ids are distinct.
  */
  lemma MultistagePlanStaged(plan: Json, pipelineId: string, g: MultistageLinearGraph, n: int)
    requires ValidateMultistagePlan(plan, pipelineId, g) == Some(n)
    ensures IsPlan(plan) && Scheduled(PlanOf(plan), n)
    ensures Staged(
      PlanOf(plan), {g.sourceId, g.firstTransformId, g.secondTransformId, g.targetId},
      ChainEdges(g.sourceId, g.firstTransformId, g.secondTransformId, g.targetId), n) <==>
      Distinct([g.sourceId, g.firstTransformId, g.secondTransformId, g.targetId])
  {
    hide Distinct, PartitionsNodes, CarriesEdges, Scheduled, MultistagePlan, ExpectedMultistagePlan;
    MultistagePlanRead(pipelineId, g, n);
    MultistagePartitionsIffDistinct(g, n);
    MultistagePlanLinks(g, n);
    if Distinct([g.sourceId, g.firstTransformId, g.secondTransformId, g.targetId]) {
      MultistagePlanEdges(g, n);
    }
  }

  lemma DistinctFour(ids: seq<string>)
    requires |ids| == 4
    ensures Distinct(ids) <==>
      ids[0] != ids[1] && ids[0] != ids[2] && ids[0] != ids[3] &&
      ids[1] != ids[2] && ids[1] != ids[3] && ids[2] != ids[3]
  {
  }

  /** The stages split a multistage graph's nodes exactly when its ids are distinct. */
  lemma MultistagePartitionsIffDistinct(g: MultistageLinearGraph, n: int)
    ensures PartitionsNodes(
      MultistagePlan(g, n), {g.sourceId, g.firstTransformId, g.secondTransformId, g.targetId}) <==>
      Distinct([g.sourceId, g.firstTransformId, g.secondTransformId, g.targetId])
  {
    var p, ids := MultistagePlan(g, n), [g.sourceId, g.firstTransformId, g.secondTransformId, g.targetId];
    DistinctFour(ids);
    SortedTwoMembers(ids[2], ids[3]);
    assert Holds(p, 0, ids[0]) && Holds(p, 1, ids[1]) && Holds(p, 2, ids[2]) && Holds(p, 2, ids[3]);
    if PartitionsNodes(p, {ids[0], ids[1], ids[2], ids[3]}) {
      assert Distinct(p.stages[2].operators);
    }
  }

  lemma MultistagePlanLinks(g: MultistageLinearGraph, n: int)
    requires 2 <= n <= 2000
    ensures Scheduled(MultistagePlan(g, n), n)
  {
    var p := MultistagePlan(g, n);
    assert IsNamed(p, 0, "extract") && IsNamed(p, 1, "transform-a") && IsNamed(p, 2, "transform-b");
    assert Links(p, 0, "extract", "transform-a") && Links(p, 1, "transform-a", "transform-b");
    DistinctNames();
  }

  lemma DistinctNames()
    ensures "extract" != "transform-a" && "extract" != "transform-b" && "transform-a" != "transform-b"
    ensures "extract-left" != "extract-right" && "extract-left" != "join" && "extract-right" != "join"
  {
    assert "transform-a"[10] != "transform-b"[10];
    assert |"extract-left"| == 12 && |"extract-right"| == 13;
  }

  lemma MultistagePlacement(g: MultistageLinearGraph, n: int)
    requires Distinct([g.sourceId, g.firstTransformId, g.secondTransformId, g.targetId])
    ensures var p := MultistagePlan(g, n);
      forall i, v :: Holds(p, i, v) <==>
        (i == 0 && v == g.sourceId) || (i == 1 && v == g.firstTransformId) ||
        (i == 2 && (v == g.secondTransformId || v == g.targetId))
  {
    SortedTwoMembers(g.secondTransformId, g.targetId);
    var p := MultistagePlan(g, n);
    assert p.stages[0].operators == [g.sourceId] && p.stages[1].operators == [g.firstTransformId];
    assert p.stages[2].operators == SortedTwo(g.secondTransformId, g.targetId) && |p.stages| == 3;
    assert forall v :: Holds(p, 0, v) <==> v == g.sourceId;
    assert forall v :: Holds(p, 1, v) <==> v == g.firstTransformId;
    assert forall v :: Holds(p, 2, v) <==> v == g.secondTransformId || v == g.targetId;
    assert forall i, v :: Holds(p, i, v) ==> i == 0 || i == 1 || i == 2;
  }

  lemma MultistageNames(g: MultistageLinearGraph, n: int)
    ensures var p := MultistagePlan(g, n);
      forall i, id :: IsNamed(p, i, id) <==>
        (i == 0 && id == "extract") || (i == 1 && id == "transform-a") || (i == 2 && id == "transform-b")
    ensures var p := MultistagePlan(g, n);
      |p.exchanges| == 2 && p.exchanges[0].producer == "extract" && p.exchanges[0].consumer == "transform-a" &&
      p.exchanges[1].producer == "transform-a" && p.exchanges[1].consumer == "transform-b"
  {
  }

  lemma MultistagePlanEdges(g: MultistageLinearGraph, n: int)
    requires Distinct([g.sourceId, g.firstTransformId, g.secondTransformId, g.targetId])
    ensures CarriesEdges(
      MultistagePlan(g, n), ChainEdges(g.sourceId, g.firstTransformId, g.secondTransformId, g.targetId))
  {
    var p := MultistagePlan(g, n);
    var s, a, b, d := g.sourceId, g.firstTransformId, g.secondTransformId, g.targetId;
    var ids := [s, a, b, d];
    assert ids[0] != ids[1] && ids[0] != ids[2] && ids[0] != ids[3];
    assert ids[1] != ids[2] && ids[1] != ids[3] && ids[2] != ids[3];
    DistinctNames();
    MultistagePlacement(g, n);
    MultistageNames(g, n);
    MultistageCarried(p, s, a, b, d);
    var edges := ChainEdges(s, a, b, d);
    assert (s, a) in edges && (a, b) in edges;
    assert Serves(p, 0, edges) && Serves(p, 1, edges);
  }

  lemma MultistageCarried(p: Plan, s: string, a: string, b: string, d: string)
    requires s != a && s != b && s != d && a != b && a != d && b != d
    requires forall i, v :: Holds(p, i, v) <==>
      (i == 0 && v == s) || (i == 1 && v == a) || (i == 2 && (v == b || v == d))
    requires "extract" != "transform-a" && "extract" != "transform-b" && "transform-a" != "transform-b"
    requires forall i, id :: IsNamed(p, i, id) <==>
      (i == 0 && id == "extract") || (i == 1 && id == "transform-a") || (i == 2 && id == "transform-b")
    requires |p.exchanges| == 2 && p.exchanges[0].producer == "extract" && p.exchanges[0].consumer == "transform-a"
    requires p.exchanges[1].producer == "transform-a" && p.exchanges[1].consumer == "transform-b"
    ensures Carries(p, 0, s, a) && Carries(p, 1, a, b)
    ensures EdgeRealized(p, s, a) && EdgeRealized(p, a, b) && EdgeRealized(p, b, d)
  {
    assert Holds(p, 0, s) && IsNamed(p, 0, "extract");
    assert Holds(p, 1, a) && IsNamed(p, 1, "transform-a");
    assert Holds(p, 2, b) && Holds(p, 2, d) && IsNamed(p, 2, "transform-b");
    assert Carries(p, 0, s, a) && Carries(p, 1, a, b);
    assert Internal(p, b, d);
  }

  /** Both exchanges hash: each input on its own join key. */
  ghost predicate HashesKeys(p: Plan, g: KeyedJoinGraph) {
    |p.exchanges| == 2 &&
    p.exchanges[0].producer == "extract-left" && p.exchanges[0].keys == [g.left.joinKey] &&
    p.exchanges[1].producer == "extract-right" && p.exchanges[1].keys == [g.right.joinKey] &&
    p.exchanges[0].partitioning == p.exchanges[1].partitioning == "hash"
  }

  lemma JoinPlanHashes(g: KeyedJoinGraph, n: int)
    ensures HashesKeys(JoinPlan(g, n), g)
  {
  }

  /**
   Every accepted keyed-join plan is ordered, linked and uniform and hashes both inputs on their join keys; it is a
   staged execution of its graph exactly when the node ids are distinct.
  */
  lemma JoinPlanStaged(plan: Json, pipelineId: string, g: KeyedJoinGraph, n: int)
    requires ValidateJoinPlan(plan, pipelineId, g) == Some(n)
    ensures IsPlan(plan) && Scheduled(PlanOf(plan), n) && HashesKeys(PlanOf(plan), g)
    ensures Staged(
      PlanOf(plan), {g.left.sourceId, g.right.sourceId, g.transformId, g.targetId},
      {(g.left.sourceId, g.transformId), (g.right.sourceId, g.transformId), (g.transformId, g.targetId)}, n) <==>
      Distinct([g.left.sourceId, g.right.sourceId, g.transformId, g.targetId])
  {
    hide Distinct, PartitionsNodes, CarriesEdges, Scheduled, HashesKeys, JoinPlan, ExpectedJoinPlan;
    JoinPlanRead(pipelineId, g, n);
    JoinPartitionsIffDistinct(g, n);
    JoinPlanLinks(g, n);
    JoinPlanHashes(g, n);
    if Distinct([g.left.sourceId, g.right.sourceId, g.transformId, g.targetId]) {
      JoinPlanEdges(g, n);
    }
  }

  /** The stages split a keyed join's nodes exactly when its ids are distinct. */
  lemma JoinPartitionsIffDistinct(g: KeyedJoinGraph, n: int)
    ensures PartitionsNodes(JoinPlan(g, n), {g.left.sourceId, g.right.sourceId, g.transformId, g.targetId}) <==>
      Distinct([g.left.sourceId, g.right.sourceId, g.transformId, g.targetId])
  {
    var p, ids := JoinPlan(g, n), [g.left.sourceId, g.right.sourceId, g.transformId, g.targetId];
    DistinctFour(ids);
    SortedTwoMembers(ids[2], ids[3]);
    assert Holds(p, 0, ids[0]) && Holds(p, 1, ids[1]) && Holds(p, 2, ids[2]) && Holds(p, 2, ids[3]);
    if PartitionsNodes(p, {ids[0], ids[1], ids[2], ids[3]}) {
      assert Distinct(p.stages[2].operators);
    }
  }

  lemma JoinPlanLinks(g: KeyedJoinGraph, n: int)
    requires 2 <= n <= 2000
    ensures Scheduled(JoinPlan(g, n), n)
  {
    var p := JoinPlan(g, n);
    assert IsNamed(p, 0, "extract-left") && IsNamed(p, 1, "extract-right") && IsNamed(p, 2, "join");
    assert Links(p, 0, "extract-left", "join") && Links(p, 1, "extract-right", "join");
    DistinctNames();
  }

  lemma JoinPlacement(g: KeyedJoinGraph, n: int)
    ensures var p := JoinPlan(g, n);
      forall i, v :: Holds(p, i, v) <==>
        (i == 0 && v == g.left.sourceId) || (i == 1 && v == g.right.sourceId) ||
        (i == 2 && (v == g.transformId || v == g.targetId))
    ensures var p := JoinPlan(g, n);
      forall i, id :: IsNamed(p, i, id) <==>
        (i == 0 && id == "extract-left") || (i == 1 && id == "extract-right") || (i == 2 && id == "join")
  {
    SortedTwoMembers(g.transformId, g.targetId);
    var p := JoinPlan(g, n);
    assert p.stages[0].operators == [g.left.sourceId] && p.stages[1].operators == [g.right.sourceId];
    assert p.stages[2].operators == SortedTwo(g.transformId, g.targetId) && |p.stages| == 3;
    assert forall v :: Holds(p, 0, v) <==> v == g.left.sourceId;
    assert forall v :: Holds(p, 1, v) <==> v == g.right.sourceId;
    assert forall v :: Holds(p, 2, v) <==> v == g.transformId || v == g.targetId;
    assert forall i, v :: Holds(p, i, v) ==> i == 0 || i == 1 || i == 2;
  }

  lemma JoinPlanEdges(g: KeyedJoinGraph, n: int)
    requires Distinct([g.left.sourceId, g.right.sourceId, g.transformId, g.targetId])
    ensures CarriesEdges(
      JoinPlan(g, n),
      {(g.left.sourceId, g.transformId), (g.right.sourceId, g.transformId), (g.transformId, g.targetId)})
  {
    var p := JoinPlan(g, n);
    var l, r, t, d := g.left.sourceId, g.right.sourceId, g.transformId, g.targetId;
    var ids := [l, r, t, d];
    assert ids[0] != ids[1] && ids[0] != ids[2] && ids[0] != ids[3];
    assert ids[1] != ids[2] && ids[1] != ids[3] && ids[2] != ids[3];
    DistinctNames();
    JoinPlacement(g, n);
    JoinCarried(p, l, r, t, d);
    var edges := {(l, t), (r, t), (t, d)};
    assert (l, t) in edges && (r, t) in edges;
    assert Serves(p, 0, edges) && Serves(p, 1, edges);
  }

  lemma JoinCarried(p: Plan, l: string, r: string, t: string, d: string)
    requires l != r && l != t && l != d && r != t && r != d && t != d
    requires forall i, v :: Holds(p, i, v) <==>
      (i == 0 && v == l) || (i == 1 && v == r) || (i == 2 && (v == t || v == d))
    requires "extract-left" != "extract-right" && "extract-left" != "join" && "extract-right" != "join"
    requires forall i, id :: IsNamed(p, i, id) <==>
      (i == 0 && id == "extract-left") || (i == 1 && id == "extract-right") || (i == 2 && id == "join")
    requires |p.exchanges| == 2 && p.exchanges[0].producer == "extract-left" && p.exchanges[0].consumer == "join"
    requires p.exchanges[1].producer == "extract-right" && p.exchanges[1].consumer == "join"
    ensures Carries(p, 0, l, t) && Carries(p, 1, r, t)
    ensures EdgeRealized(p, l, t) && EdgeRealized(p, r, t) && EdgeRealized(p, t, d)
  {
    assert Holds(p, 0, l) && IsNamed(p, 0, "extract-left");
    assert Holds(p, 1, r) && IsNamed(p, 1, "extract-right");
    assert Holds(p, 2, t) && Holds(p, 2, d) && IsNamed(p, 2, "join");
    assert Carries(p, 0, l, t) && Carries(p, 1, r, t);
    assert Internal(p, t, d);
  }
}
