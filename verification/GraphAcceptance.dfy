/** What an accepted document must look like: its nodes, its edges and the tables it is bound to, in any order. */
module GraphAcceptance {
  import opened Text
  import opened Wrappers
  import opened CanonicalJson
  import opened GraphConfiguration
  import opened GraphOrder

  /** The endpoints of the edges a document lists. */
  ghost function EdgePairs(graph: JsonObject): set<Pair>
    requires Field(graph, "edges").Arr?
  {
    set e | e in Field(graph, "edges").items && GoodEdge(e) :: PairOf(e)
  }

  /** The document's nodes of one kind are exactly nodes with these ids, one each. */
  ghost predicate HasNodes(graph: JsonObject, kind: string, ids: seq<string>)
    requires Field(graph, "nodes").Arr?
  {
    var nodes := OfKind(Field(graph, "nodes").items, kind);
    |nodes| == |ids| && forall id :: id in ids <==> exists x :: x in nodes && NodeId(x) == Success(id)
  }

  /** A document of this pipeline made of known nodes and of edges between exactly these pairs, each listed once. */
  ghost predicate Topology(graph: JsonObject, invocation: Invocation, pairs: set<Pair>) {
    Field(graph, "name") == Str(invocation.pipelineId) && Field(graph, "nodes").Arr? && Field(graph, "edges").Arr? &&
    (forall x :: x in Field(graph, "nodes").items ==> GoodNode(x)) &&
    (forall e :: e in Field(graph, "edges").items ==> GoodEdge(e)) &&
    |Field(graph, "edges").items| == |pairs| && EdgePairs(graph) == pairs
  }

  /** The relations bind exactly these tables, and with the output they all lie in the project. */
  ghost predicate Bound(relations: Json, tables: map<string, string>, outputTable: string, project: string) {
    relations.Obj? && relations.members.Keys == tables.Keys &&
    (forall id :: id in tables ==>
      relations.members[id] == Str(tables[id]) && SameProjectRelation(tables[id], project)) &&
    SameProjectRelation(outputTable, project)
  }

  lemma {:induction false} EdgeCount(edges: seq<Json>)
    requires EdgesOf(edges).Some?
    ensures |EdgesOf(edges).value| == |edges|
  {
    if edges != [] {
      EdgeCount(edges[..|edges| - 1]);
    }
  }

  lemma EdgeTopology(graph: JsonObject, m: map<Pair, JsonObject>)
    requires Field(graph, "edges").Arr? && EdgesOf(Field(graph, "edges").items) == Some(m)
    ensures EdgePairs(graph) == m.Keys && |Field(graph, "edges").items| == |m.Keys|
    ensures forall e :: e in Field(graph, "edges").items ==> GoodEdge(e)
  {
    var edges := Field(graph, "edges").items;
    EdgesDefined(edges);
    EdgesExact(edges);
    EdgeCount(edges);
    forall p
      ensures p in EdgePairs(graph) <==> p in m
    {
      if p in m {
        assert Obj(m[p]) in edges && Ends(m[p], p);
      }
      if e :| e in edges && GoodEdge(e) && PairOf(e) == p {
        assert Obj(e.members) in edges && Ends(e.members, p);
      }
    }
  }

  /** project.dataset.table, as the output rule builds it, is a relation of the project. */
  lemma OutputInProject(target: JsonObject, project: string)
    requires TargetRelation(target, project).Success? && IsProject(project)
    ensures SameProjectRelation(TargetRelation(target, project).value, project)
  {
    var value := TargetRelation(target, project).value;
    var w := Field(Field(target, "config").members, "writer").members;
    var d := Field(w, "destination").members;
    var dataset, table := Field(d, "dataset").text, Field(d, "table").text;
    assert value == project + "." + dataset + "." + table;
    DottedRelation(project, dataset, table);
  }

  lemma NoDots(project: string, dataset: string)
    requires IsProject(project) && IsDataset(dataset)
    ensures '.' !in project && '.' !in dataset
  {
  }

  lemma DottedRelation(project: string, dataset: string, table: string)
    requires IsProject(project) && IsDataset(dataset) && IsTable(table)
    ensures SameProjectRelation(project + "." + dataset + "." + table, project)
  {
    hide IsProject, IsDataset, IsTable;
    var value, rest := project + "." + dataset + "." + table, dataset + "." + table;
    assert value == project + ['.'] + rest && rest == dataset + ['.'] + table;
    NoDots(project, dataset);
    IndexOfFirst(project, '.', rest);
    IndexOfFirst(dataset, '.', table);
    assert value[..|project|] == project && value[|project| + 1..] == rest;
    assert rest[..|dataset|] == dataset && rest[|dataset| + 1..] == table;
  }

  // ---------------------------------------------------------------- the three kinds of document

  lemma NodesOfDocument(graph: JsonObject, groups: Groups)
    requires Field(graph, "nodes").Arr? && GroupsOf(Field(graph, "nodes").items) == Success(groups)
    ensures forall x :: x in Field(graph, "nodes").items ==> GoodNode(x)
    ensures groups.sources == OfKind(Field(graph, "nodes").items, "source")
    ensures groups.transforms == OfKind(Field(graph, "nodes").items, "transform")
    ensures groups.targets == OfKind(Field(graph, "nodes").items, "target")
  {
    GroupsExact(Field(graph, "nodes").items);
  }

  lemma OneNode(graph: JsonObject, kind: string, id: string)
    requires Field(graph, "nodes").Arr? && |OfKind(Field(graph, "nodes").items, kind)| == 1
    requires NodeId(OfKind(Field(graph, "nodes").items, kind)[0]) == Success(id)
    ensures HasNodes(graph, kind, [id])
  {
    hide NodeId;
    var nodes := OfKind(Field(graph, "nodes").items, kind);
    assert nodes[0] in nodes;
  }

  lemma TwoNodes(graph: JsonObject, kind: string, a: string, b: string)
    requires Field(graph, "nodes").Arr? && |OfKind(Field(graph, "nodes").items, kind)| == 2
    requires var nodes := OfKind(Field(graph, "nodes").items, kind);
      NodeTable(nodes).Success? && NodeTable(nodes).value.Keys == {a, b}
    ensures HasNodes(graph, kind, [a, b])
  {
    hide NodeId;
    var nodes := OfKind(Field(graph, "nodes").items, kind);
    assert nodes == [nodes[0], nodes[1]];
    NodeTableOfTwo(nodes[0], nodes[1]);
    var i, j := NodeId(nodes[0]).value, NodeId(nodes[1]).value;
    assert NodeTable(nodes).value.Keys == {i, j};
    assert nodes[0] in nodes && nodes[1] in nodes;
    assert i in {a, b} && j in {a, b} && a in {i, j} && b in {i, j};
  }

  lemma LinearTopology(graph: JsonObject, invocation: Invocation)
    requires LinearShapeOf(graph, invocation).Success?
    ensures var s := LinearShapeOf(graph, invocation).value;
      Topology(graph, invocation, {(s.sourceId, s.transformId), (s.transformId, s.targetId)}) &&
      HasNodes(graph, "source", [s.sourceId]) && HasNodes(graph, "transform", [s.transformId]) &&
      HasNodes(graph, "target", [s.targetId])
  {
    hide NodeId, PlainTransform, HasNodes, GoodNode, EdgePairs;
    var s := LinearShapeOf(graph, invocation).value;
    NodesOfDocument(graph, GroupsOf(Field(graph, "nodes").items).value);
    EdgeTopology(graph, EdgesOf(Field(graph, "edges").items).value);
    OneNode(graph, "source", s.sourceId);
    OneNode(graph, "transform", s.transformId);
    OneNode(graph, "target", s.targetId);
  }

  lemma SourceBound(relations: Json, id: string, target: JsonObject, project: string)
    requires SourceTable(relations, id, project).Success? && TargetRelation(target, project).Success?
    ensures Bound(
      relations, map[id := SourceTable(relations, id, project).value], TargetRelation(target, project).value, project)
  {
    hide TargetRelation;
    OutputInProject(target, project);
  }

  /** An accepted linear document is one chain of three nodes, bound to tables of its project. */
  lemma LinearAcceptance(graph: JsonObject, relations: Json, invocation: Invocation, g: LinearGraph)
    requires LinearGraphOf(graph, relations, invocation) == Success(g)
    ensures Topology(graph, invocation, {(g.sourceId, g.transformId), (g.transformId, g.targetId)})
    ensures HasNodes(graph, "source", [g.sourceId]) && HasNodes(graph, "transform", [g.transformId])
    ensures HasNodes(graph, "target", [g.targetId])
    ensures Bound(relations, map[g.sourceId := g.sourceTable], g.outputTable, invocation.project)
  {
    hide LinearShapeOf, TargetRelation, SourceTable, NodeFieldsOf, DirectMappingsOf, HasNodes, Topology, Bound;
    var shape := LinearShapeOf(graph, invocation).value;
    LinearTopology(graph, invocation);
    SourceBound(relations, shape.sourceId, shape.target, invocation.project);
  }

  lemma MultistageTopology(graph: JsonObject, invocation: Invocation)
    requires MultistageShapeOf(graph, invocation).Success?
    ensures var s := MultistageShapeOf(graph, invocation).value;
      s.firstId != s.secondId &&
      Topology(graph, invocation, ChainEdges(s.sourceId, s.firstId, s.secondId, s.targetId)) &&
      HasNodes(graph, "source", [s.sourceId]) && HasNodes(graph, "transform", [s.firstId, s.secondId]) &&
      HasNodes(graph, "target", [s.targetId])
  {
    hide NodeId, PlainTransform, HasNodes, GoodNode, EdgePairs, NodeTable;
    var s := MultistageShapeOf(graph, invocation).value;
    var groups := GroupsOf(Field(graph, "nodes").items).value;
    NodesOfDocument(graph, groups);
    EdgeTopology(graph, EdgesOf(Field(graph, "edges").items).value);
    OneNode(graph, "source", s.sourceId);
    OneNode(graph, "target", s.targetId);
    var keys := NodeTable(groups.transforms).value.Keys;
    OrderOfTwo(s.sourceId, s.targetId, keys, EdgesOf(Field(graph, "edges").items).value.Keys);
    TwoNodes(graph, "transform", s.firstId, s.secondId);
  }

  lemma OrderOfTwo(source: string, target: string, transforms: set<string>, edges: set<Pair>)
    requires ChainOrder(source, target, transforms, edges).Success?
    ensures var (a, b) := ChainOrder(source, target, transforms, edges).value; a != b && transforms == {a, b}
  {
    var ids := Sorted(transforms);
    assert Less(ids[0], ids[1]) && ids == [ids[0], ids[1]];
  }

  /** An accepted multistage document is one chain of four nodes, bound to tables of its project. */
  lemma MultistageAcceptance(graph: JsonObject, relations: Json, invocation: Invocation, g: MultistageLinearGraph)
    requires MultistageGraphOf(graph, relations, invocation) == Success(g)
    ensures g.firstTransformId != g.secondTransformId
    ensures Topology(graph, invocation, ChainEdges(g.sourceId, g.firstTransformId, g.secondTransformId, g.targetId))
    ensures HasNodes(graph, "source", [g.sourceId]) && HasNodes(graph, "target", [g.targetId])
    ensures HasNodes(graph, "transform", [g.firstTransformId, g.secondTransformId])
    ensures Bound(relations, map[g.sourceId := g.sourceTable], g.outputTable, invocation.project)
  {
    hide MultistageShapeOf, TargetRelation, SourceTable, NodeFieldsOf, DirectMappingsOf, HasNodes, Topology, Bound;
    var shape := MultistageShapeOf(graph, invocation).value;
    MultistageTopology(graph, invocation);
    SourceBound(relations, shape.sourceId, shape.target, invocation.project);
  }

  lemma JoinTopology(graph: JsonObject, invocation: Invocation)
    requires JoinShapeOf(graph, invocation).Success?
    ensures var s := JoinShapeOf(graph, invocation).value;
      s.join.leftId != s.join.rightId &&
      Topology(
        graph, invocation,
        {(s.join.leftId, s.transformId), (s.join.rightId, s.transformId), (s.transformId, s.targetId)}) &&
      HasNodes(graph, "source", [s.join.leftId, s.join.rightId]) && HasNodes(graph, "transform", [s.transformId]) &&
      HasNodes(graph, "target", [s.targetId])
  {
    hide NodeId, HasNodes, GoodNode, EdgePairs, NodeTable, JoinContractOf;
    var s := JoinShapeOf(graph, invocation).value;
    var groups := GroupsOf(Field(graph, "nodes").items).value;
    NodesOfDocument(graph, groups);
    EdgeTopology(graph, EdgesOf(Field(graph, "edges").items).value);
    OneNode(graph, "transform", s.transformId);
    OneNode(graph, "target", s.targetId);
    TwoInputs(s.join, groups.transforms[0], NodeTable(groups.sources).value.Keys);
    TwoNodes(graph, "source", s.join.leftId, s.join.rightId);
  }

  lemma TwoInputs(join: JoinContract, transform: JsonObject, sources: set<string>)
    requires JoinContractOf(transform, sources) == Success(join)
    ensures join.leftId != join.rightId && sources == {join.leftId, join.rightId}
  {
  }

  lemma TablesBound(relations: Json, left: string, right: string, target: JsonObject, project: string)
    requires left != right
    requires JoinTables(relations, left, right, project).Success? && TargetRelation(target, project).Success?
    ensures var tables := JoinTables(relations, left, right, project).value;
      Bound(relations, map[left := tables.0, right := tables.1], TargetRelation(target, project).value, project)
  {
    hide TargetRelation;
    OutputInProject(target, project);
  }

  /** An accepted keyed join is two distinct sources, one transform and one target, bound to tables of its project. */
  lemma KeyedJoinAcceptance(graph: JsonObject, relations: Json, invocation: Invocation, g: KeyedJoinGraph)
    requires KeyedJoinGraphOf(graph, relations, invocation) == Success(g)
    ensures g.left.sourceId != g.right.sourceId
    ensures Topology(
      graph, invocation,
      {(g.left.sourceId, g.transformId), (g.right.sourceId, g.transformId), (g.transformId, g.targetId)})
    ensures HasNodes(graph, "source", [g.left.sourceId, g.right.sourceId])
    ensures HasNodes(graph, "transform", [g.transformId]) && HasNodes(graph, "target", [g.targetId])
    ensures Bound(
      relations, map[g.left.sourceId := g.left.sourceTable, g.right.sourceId := g.right.sourceTable], g.outputTable,
      invocation.project)
  {
    hide JoinShapeOf, TargetRelation, JoinTables, NodeFieldsOf, DirectMappingsOf, SideOf, HasNodes, Topology, Bound;
    var shape := JoinShapeOf(graph, invocation).value;
    JoinTopology(graph, invocation);
    TablesBound(relations, shape.join.leftId, shape.join.rightId, shape.target, invocation.project);
  }
}
