/** Acceptance and the graph do not depend on how nodes, edges and mappings are listed; when a failure kind can. */
module GraphOrder {
  import opened Text
  import opened Wrappers
  import opened Bags
  import opened CanonicalJson
  import opened GraphConfiguration
  import opened GraphGuarantees

  // ---------------------------------------------------------------- nodes

  function OfKind(nodes: seq<Json>, kind: string): seq<JsonObject> {
    if nodes == [] then [] else
      var last := nodes[|nodes| - 1];
      OfKind(nodes[..|nodes| - 1], kind) +
      (if last.Obj? && Field(last.members, "type") == Str(kind) then [last.members] else [])
  }

  predicate GoodNode(node: Json) {
    node.Obj? && Field(node.members, "type") in {Str("source"), Str("transform"), Str("target")}
  }

  lemma {:induction false} GroupsExact(nodes: seq<Json>)
    ensures GroupsOf(nodes).Success? <==> forall n :: n in nodes ==> GoodNode(n)
    ensures GroupsOf(nodes).Success? ==>
      GroupsOf(nodes).value == Groups(OfKind(nodes, "source"), OfKind(nodes, "transform"), OfKind(nodes, "target"))
  {
    if nodes != [] {
      var n := |nodes| - 1;
      GroupsExact(nodes[..n]);
      assert nodes == nodes[..n] + [nodes[n]];
      assert forall x :: x in nodes <==> x in nodes[..n] || x == nodes[n];
      assert GoodNode(nodes[n]) <==>
        nodes[n].Obj? && var kind := Field(nodes[n].members, "type");
        kind == Str("source") || kind == Str("transform") || kind == Str("target");
    }
  }

  lemma {:induction false} OfKindCount(nodes: seq<Json>, kind: string, x: JsonObject)
    ensures multiset(OfKind(nodes, kind))[x] == if Field(x, "type") == Str(kind) then multiset(nodes)[Obj(x)] else 0
  {
    if nodes != [] {
      var n := |nodes| - 1;
      OfKindCount(nodes[..n], kind, x);
      assert nodes == nodes[..n] + [nodes[n]];
    }
  }

  lemma OfKindPermuted(a: seq<Json>, b: seq<Json>, kind: string)
    requires multiset(a) == multiset(b)
    ensures multiset(OfKind(a, kind)) == multiset(OfKind(b, kind))
  {
    forall x
      ensures multiset(OfKind(a, kind))[x] == multiset(OfKind(b, kind))[x]
    {
      OfKindCount(a, kind, x);
      OfKindCount(b, kind, x);
    }
  }

  /** Listing the nodes differently permutes each group. */
  lemma GroupsPermuted(a: seq<Json>, b: seq<Json>)
    requires multiset(a) == multiset(b) && GroupsOf(a).Success?
    ensures GroupsOf(b).Success?
    ensures multiset(GroupsOf(a).value.sources) == multiset(GroupsOf(b).value.sources)
    ensures multiset(GroupsOf(a).value.transforms) == multiset(GroupsOf(b).value.transforms)
    ensures multiset(GroupsOf(a).value.targets) == multiset(GroupsOf(b).value.targets)
  {
    SameMembers(a, b);
    GroupsExact(a);
    GroupsExact(b);
    OfKindPermuted(a, b, "source");
    OfKindPermuted(a, b, "transform");
    OfKindPermuted(a, b, "target");
  }

  lemma NodeTableOfTwo(x: JsonObject, y: JsonObject)
    ensures NodeTable([x, y]).Success? <==> NodeId(x).Success? && NodeId(y).Success?
    ensures NodeTable([x, y]).Success? ==> NodeTable([x, y]).value == map[NodeId(x).value := x][NodeId(y).value := y]
  {
    assert [x, y][..1] == [x];
    assert [x][..0] == [];
    assert NodeTable([]) == Success(map[]);
  }

  lemma TwoNodesSwapped(x: JsonObject, y: JsonObject)
    requires NodeTable([x, y]).Success? && |NodeTable([x, y]).value.Keys| == 2
    ensures NodeTable([y, x]) == NodeTable([x, y])
  {
    NodeTableOfTwo(x, y);
    NodeTableOfTwo(y, x);
    var i, j := NodeId(x).value, NodeId(y).value;
    assert NodeTable([x, y]).value.Keys == {i, j};
    assert i == j ==> {i, j} == {i};
    assert i != j;
    assert map[i := x][j := y] == map[j := y][i := x];
  }

  /** Two nodes with different ids make the same table either way round. */
  lemma NodeTableSwapped(a: seq<JsonObject>, b: seq<JsonObject>)
    requires multiset(a) == multiset(b) && |a| == 2 && NodeTable(a).Success? && |NodeTable(a).value.Keys| == 2
    ensures NodeTable(b) == NodeTable(a)
  {
    PairBag(a, b);
    assert a == [a[0], a[1]];
    TwoNodesSwapped(a[0], a[1]);
  }

  // ---------------------------------------------------------------- mappings

  /** Reordering a mapping list changes neither its acceptance nor its table. */
  lemma MappingTablePermuted(a: seq<Json>, b: seq<Json>, st: map<string, string>, tt: map<string, string>)
    requires multiset(a) == multiset(b)
    ensures MappingTable(a, st, tt) == MappingTable(b, st, tt)
  {
    if MappingTable(a, st, tt).Some? {
      MappingTableOneWay(a, b, st, tt);
    } else if MappingTable(b, st, tt).Some? {
      MappingTableOneWay(b, a, st, tt);
    }
  }

  lemma MappingTableKept(a: seq<Json>, b: seq<Json>, st: map<string, string>, tt: map<string, string>)
    requires multiset(a) == multiset(b) && MappingTable(a, st, tt).Some?
    ensures MappingTable(b, st, tt).Some?
  {
    SameMembers(a, b);
    MappingTableDefined(a, st, tt);
    forall i | 0 <= i < |b|
      ensures GoodMapping(b[i], st, tt)
    {
      assert b[i] in a;
    }
    forall i, j | 0 <= i < j < |b|
      ensures MappingOf(b[i]).target != MappingOf(b[j]).target
    {
      var p, q := PermutedPair(a, b, i, j);
      assert p < q || q < p;
    }
    MappingTableDefined(b, st, tt);
  }

  lemma MappingTableOneWay(a: seq<Json>, b: seq<Json>, st: map<string, string>, tt: map<string, string>)
    requires multiset(a) == multiset(b) && MappingTable(a, st, tt).Some?
    ensures MappingTable(b, st, tt) == MappingTable(a, st, tt)
  {
    SameMembers(a, b);
    MappingTableKept(a, b, st, tt);
    MappingTableExact(a, st, tt);
    MappingTableExact(b, st, tt);
    var x, y := MappingTable(a, st, tt).value, MappingTable(b, st, tt).value;
    forall m
      ensures Names(a, st, tt, m) <==> Names(b, st, tt, m)
    {
    }
    forall t
      ensures t in x <==> t in y
      ensures t in x && t in y ==> x[t] == y[t]
    {
      if t in x {
        assert x[t].target == t && Names(b, st, tt, x[t]);
      }
      if t in y {
        assert y[t].target == t && Names(a, st, tt, y[t]);
      }
    }
    assert x == y;
  }

  /** The same edge with its mappings listed in another order. */
  ghost predicate SameEdge(e: JsonObject, f: JsonObject) {
    (forall k :: k != "mappings" ==> Field(e, k) == Field(f, k)) &&
    var a, b := Field(e, "mappings"), Field(f, "mappings");
    a == b || (a.Arr? && b.Arr? && multiset(a.items) == multiset(b.items))
  }

  lemma EdgeMappingsSame(e: JsonObject, f: JsonObject, st: map<string, string>, tt: map<string, string>)
    requires SameEdge(e, f)
    ensures EdgeMappings(e, st, tt) == EdgeMappings(f, st, tt)
  {
    var a, b := Field(e, "mappings"), Field(f, "mappings");
    if a != b {
      SameMembers(a.items, b.items);
      MappingTablePermuted(a.items, b.items, st, tt);
    }
  }

  lemma DirectMappingsSame(
    e: JsonObject, f: JsonObject, st: map<string, string>, tt: map<string, string>, fields: seq<string>)
    requires SameEdge(e, f)
    ensures DirectMappingsOf(e, st, tt, fields) == DirectMappingsOf(f, st, tt, fields)
  {
    EdgeMappingsSame(e, f, st, tt);
  }

  lemma SideSame(node: JsonObject, e: JsonObject, f: JsonObject, tt: map<string, string>)
    requires SameEdge(e, f)
    ensures SideOf(node, e, tt) == SideOf(node, f, tt)
  {
    if NodeFieldsOf(node).Success? {
      EdgeMappingsSame(e, f, NodeFieldsOf(node).value.types, tt);
    }
  }

  // ---------------------------------------------------------------- edges

  /** v is an edge from p.0 to p.1. */
  predicate Ends(v: JsonObject, p: Pair) {
    Field(v, "from") == Str(p.0) && Field(v, "to") == Str(p.1)
  }

  predicate GoodEdge(e: Json) {
    e.Obj? && Field(e.members, "from").Str? && Field(e.members, "to").Str?
  }

  function PairOf(e: Json): Pair
    requires GoodEdge(e)
  {
    (Field(e.members, "from").text, Field(e.members, "to").text)
  }

  /** The index of an accepted edge list holds exactly its edges, by their endpoints. */
  lemma {:induction false} EdgesExact(edges: seq<Json>)
    requires EdgesOf(edges).Some?
    ensures forall p, v :: p in EdgesOf(edges).value && EdgesOf(edges).value[p] == v <==> Obj(v) in edges && Ends(v, p)
  {
    if edges != [] {
      var n := |edges| - 1;
      EdgesExact(edges[..n]);
      assert edges == edges[..n] + [edges[n]];
      forall p, v
        ensures p in EdgesOf(edges).value && EdgesOf(edges).value[p] == v <==> Obj(v) in edges && Ends(v, p)
      {
        assert Obj(v) in edges <==> Obj(v) in edges[..n] || Obj(v) == edges[n];
      }
    }
  }

  /** Only lists of well-formed edges with distinct endpoints are accepted. */
  lemma {:induction false} EdgesDefined(edges: seq<Json>)
    ensures EdgesOf(edges).Some? <==>
      (forall i :: 0 <= i < |edges| ==> GoodEdge(edges[i])) &&
      (forall i, j :: 0 <= i < j < |edges| && GoodEdge(edges[i]) && GoodEdge(edges[j]) ==>
        PairOf(edges[i]) != PairOf(edges[j]))
  {
    if edges != [] {
      var n := |edges| - 1;
      EdgesDefined(edges[..n]);
      assert forall i :: 0 <= i < n ==> edges[..n][i] == edges[i];
      if EdgesOf(edges[..n]).Some? && GoodEdge(edges[n]) {
        KnownPair(edges[..n], PairOf(edges[n]));
      }
    }
  }

  lemma KnownPair(edges: seq<Json>, p: (string, string))
    requires EdgesOf(edges).Some? && forall i :: 0 <= i < |edges| ==> GoodEdge(edges[i])
    ensures p in EdgesOf(edges).value <==> exists i :: 0 <= i < |edges| && PairOf(edges[i]) == p
  {
    EdgesExact(edges);
    var m := EdgesOf(edges).value;
    if p in m {
      assert Obj(m[p]) in edges;
      var i :| 0 <= i < |edges| && edges[i] == Obj(m[p]);
      assert PairOf(edges[i]) == p;
    }
    if i :| 0 <= i < |edges| && PairOf(edges[i]) == p {
      assert edges[i] in edges && Ends(edges[i].members, p);
    }
  }

  lemma EdgesPermuted(a: seq<Json>, b: seq<Json>)
    requires multiset(a) == multiset(b) && EdgesOf(a).Some?
    ensures EdgesOf(b) == EdgesOf(a)
  {
    SameMembers(a, b);
    EdgesDefined(a);
    forall i | 0 <= i < |b|
      ensures GoodEdge(b[i])
    {
      assert b[i] in a;
    }
    forall i, j | 0 <= i < j < |b|
      ensures PairOf(b[i]) != PairOf(b[j])
    {
      var p, q := PermutedPair(a, b, i, j);
      assert p < q || q < p;
    }
    EdgesDefined(b);
    EdgesExact(a);
    EdgesExact(b);
    var x, y := EdgesOf(a).value, EdgesOf(b).value;
    forall p
      ensures p in x <==> p in y
      ensures p in x && p in y ==> x[p] == y[p]
    {
      if p in x {
        assert Obj(x[p]) in b && Ends(x[p], p);
      }
      if p in y {
        assert Obj(y[p]) in a && Ends(y[p], p);
      }
    }
    assert x == y;
  }

  /** Position by position the same edges, with mapping lists reordered. */
  ghost predicate SameEdges(a: seq<Json>, b: seq<Json>) {
    |a| == |b| &&
    forall i :: 0 <= i < |a| ==> a[i] == b[i] || (a[i].Obj? && b[i].Obj? && SameEdge(a[i].members, b[i].members))
  }

  ghost predicate Alike(x: map<Pair, JsonObject>, y: map<Pair, JsonObject>) {
    x.Keys == y.Keys && forall p :: p in x ==> SameEdge(x[p], y[p])
  }

  lemma {:induction false} EdgesAlike(a: seq<Json>, b: seq<Json>)
    requires SameEdges(a, b) && EdgesOf(a).Some?
    ensures EdgesOf(b).Some? && Alike(EdgesOf(a).value, EdgesOf(b).value)
    decreases |a|
  {
    if a != [] {
      var n := |a| - 1;
      assert SameEdges(a[..n], b[..n]) by {
        assert forall i :: 0 <= i < n ==> a[..n][i] == a[i] && b[..n][i] == b[i];
      }
      EdgesAlike(a[..n], b[..n]);
      var x, y := a[n].members, b[n].members;
      assert SameEdge(x, y);
      assert Field(x, "from") == Field(y, "from") && Field(x, "to") == Field(y, "to");
    }
  }

  /** A rewriting of the three lists: nodes permuted, edges permuted, and mappings permuted within each edge. */
  ghost predicate Relisted(graph: JsonObject, other: JsonObject, edges: seq<Json>) {
    Field(graph, "name") == Field(other, "name") &&
    Field(graph, "nodes").Arr? && Field(other, "nodes").Arr? &&
    multiset(Field(graph, "nodes").items) == multiset(Field(other, "nodes").items) &&
    Field(graph, "edges").Arr? && Field(other, "edges").Arr? &&
    multiset(Field(graph, "edges").items) == multiset(edges) && SameEdges(edges, Field(other, "edges").items)
  }

  /** Relisting keeps the edge index up to the order of mappings. */
  lemma RelistedEdges(graph: JsonObject, other: JsonObject, edges: seq<Json>)
    requires Relisted(graph, other, edges) && EdgesOf(Field(graph, "edges").items).Some?
    ensures EdgesOf(Field(other, "edges").items).Some?
    ensures Alike(EdgesOf(Field(graph, "edges").items).value, EdgesOf(Field(other, "edges").items).value)
  {
    EdgesPermuted(Field(graph, "edges").items, edges);
    EdgesAlike(edges, Field(other, "edges").items);
  }

  // ---------------------------------------------------------------- which failure a node list ends in

  /** A list or dict as the type of a node cannot be looked up. */
  predicate Unhashable(node: Json) {
    node.Obj? && (Field(node.members, "type").Arr? || Field(node.members, "type").Obj?)
  }

  /** How reading the node list ends at a node that is no source, transform or target. */
  function FaultOf(node: Json): ConfigError {
    if Unhashable(node) then Crashed else Rejected
  }

  lemma BadNodeFails(g: Groups, node: Json)
    ensures AddNode(g, node).Success? <==> GoodNode(node)
    ensures !GoodNode(node) ==> AddNode(g, node) == Failure(FaultOf(node))
  {
  }

  /** Reading fails with the fault of the first bad node. */
  lemma {:induction false} GroupsFault(nodes: seq<Json>) returns (i: nat)
    requires GroupsOf(nodes).Failure?
    ensures i < |nodes| && !GoodNode(nodes[i]) && GroupsOf(nodes) == Failure(FaultOf(nodes[i]))
    ensures forall j :: 0 <= j < i ==> GoodNode(nodes[j])
  {
    hide FaultOf, GoodNode, AddNode;
    var n := |nodes| - 1;
    if GroupsOf(nodes[..n]).Failure? {
      i := GroupsFault(nodes[..n]);
    } else {
      GroupsExact(nodes[..n]);
      assert forall j :: 0 <= j < n ==> nodes[..n][j] in nodes[..n];
      BadNodeFails(GroupsOf(nodes[..n]).value, nodes[n]);
      i := n;
    }
  }

  /** All bad nodes of the list fail in the same way. */
  ghost predicate OneFault(nodes: seq<Json>) {
    forall x, y :: x in nodes && y in nodes && !GoodNode(x) && !GoodNode(y) ==> FaultOf(x) == FaultOf(y)
  }

  lemma GroupsSameFailure(a: seq<Json>, b: seq<Json>)
    requires multiset(a) == multiset(b) && OneFault(a) && GroupsOf(a).Failure?
    ensures GroupsOf(b).Failure? && GroupsOf(b).error == GroupsOf(a).error
  {
    hide FaultOf, GoodNode;
    SameMembers(a, b);
    GroupsExact(a);
    GroupsExact(b);
    var i := GroupsFault(a);
    var j := GroupsFault(b);
    assert a[i] in a && b[j] in a;
  }

  lemma LeadingFault(nodes: seq<Json>)
    requires nodes != [] && !GoodNode(nodes[0])
    ensures GroupsOf(nodes) == Failure(FaultOf(nodes[0]))
  {
    hide FaultOf, GoodNode, AddNode;
    assert nodes[..1][..0] == [];
    BadNodeFails(Groups([], [], []), nodes[0]);
    GroupsOfPrefix(nodes, 1);
  }

  /** The node list with one of its nodes moved to the front. */
  lemma Fronted(nodes: seq<Json>, x: Json) returns (moved: seq<Json>)
    requires x in nodes
    ensures multiset(moved) == multiset(nodes) && moved != [] && moved[0] == x
  {
    var k :| 0 <= k < |nodes| && nodes[k] == x;
    moved := [x] + nodes[..k] + nodes[k + 1..];
    assert nodes == nodes[..k] + [x] + nodes[k + 1..];
  }

  // ---------------------------------------------------------------- relisting back and forth

  lemma SameEdgesTail(a: seq<Json>, b: seq<Json>, k: nat)
    requires SameEdges(a, b) && k < |a|
    ensures SameEdges(a[..k] + a[k + 1..], b[..k] + b[k + 1..])
  {
  }

  /** An arrangement of b that matches a position by position, when b matches some arrangement of a. */
  lemma {:induction false} Realigned(a: seq<Json>, edges: seq<Json>, b: seq<Json>) returns (back: seq<Json>)
    requires multiset(a) == multiset(edges) && SameEdges(edges, b)
    ensures multiset(b) == multiset(back) && SameEdges(back, a)
    decreases |a|
  {
    SameMembers(a, edges);
    if a == [] {
      back := [];
    } else {
      var k := RemoveHead(a, edges);
      SameEdgesTail(edges, b, k);
      var rest := Realigned(a[1..], edges[..k] + edges[k + 1..], b[..k] + b[k + 1..]);
      back := [b[k]] + rest;
      assert b == b[..k] + [b[k]] + b[k + 1..];
    }
  }

  /** Relisting can be undone by relisting. */
  lemma RelistedBack(graph: JsonObject, other: JsonObject, edges: seq<Json>) returns (back: seq<Json>)
    requires Relisted(graph, other, edges)
    ensures Relisted(other, graph, back)
  {
    back := Realigned(Field(graph, "edges").items, edges, Field(other, "edges").items);
  }

  /** Only the order of the nodes changes. */
  lemma NodesRelisted(graph: JsonObject, nodes: seq<Json>)
    requires Field(graph, "nodes").Arr? && Field(graph, "edges").Arr?
    requires multiset(nodes) == multiset(Field(graph, "nodes").items)
    ensures Relisted(graph, graph["nodes" := Arr(nodes)], Field(graph, "edges").items)
  {
    assert "nodes" != "edges" && "nodes" != "name";
  }

  // ---------------------------------------------------------------- graphs

  /** The builders get as far as the node list. */
  ghost predicate Entered(graph: JsonObject, invocation: Invocation) {
    Field(graph, "name") == Str(invocation.pipelineId) && Field(graph, "nodes").Arr? && Field(graph, "edges").Arr?
  }

  /** Whatever the node order, the builders fail in one way: they stop before the nodes, or at one kind of bad node. */
  ghost predicate OneFailure(graph: JsonObject, invocation: Invocation) {
    Entered(graph, invocation) ==> OneFault(Field(graph, "nodes").items)
  }

  /** The failure of a document rejected for nothing but its node list. */
  ghost function NodeFailure(graph: JsonObject, invocation: Invocation): ConfigError {
    if Entered(graph, invocation) && GroupsOf(Field(graph, "nodes").items).Failure?
    then GroupsOf(Field(graph, "nodes").items).error else Rejected
  }

  lemma NodeFailureRelisted(graph: JsonObject, other: JsonObject, edges: seq<Json>, invocation: Invocation)
    requires Relisted(graph, other, edges) && OneFailure(graph, invocation)
    ensures NodeFailure(other, invocation) == NodeFailure(graph, invocation)
  {
    hide GoodNode, FaultOf;
    var a, b := Field(graph, "nodes").items, Field(other, "nodes").items;
    if Entered(graph, invocation) {
      if GroupsOf(a).Failure? {
        GroupsSameFailure(a, b);
      } else {
        GroupsPermuted(a, b);
      }
    }
  }

  /** Two bad nodes of different kinds, and the two documents that list one or the other of them first. */
  lemma TwoFailures(graph: JsonObject, invocation: Invocation) returns (first: JsonObject, second: JsonObject)
    requires !OneFailure(graph, invocation)
    ensures Relisted(graph, first, Field(graph, "edges").items) && Relisted(graph, second, Field(graph, "edges").items)
    ensures Entered(first, invocation) && Entered(second, invocation)
    ensures var a, b := GroupsOf(Field(first, "nodes").items), GroupsOf(Field(second, "nodes").items);
      a.Failure? && b.Failure? && a.error != b.error
  {
    hide GoodNode, FaultOf;
    var nodes := Field(graph, "nodes").items;
    var x, y :| x in nodes && y in nodes && !GoodNode(x) && !GoodNode(y) && FaultOf(x) != FaultOf(y);
    var xs := Fronted(nodes, x);
    var ys := Fronted(nodes, y);
    LeadingFault(xs);
    LeadingFault(ys);
    first, second := graph["nodes" := Arr(xs)], graph["nodes" := Arr(ys)];
    NodesRelisted(graph, xs);
    NodesRelisted(graph, ys);
    assert "nodes" != "edges" && "nodes" != "name";
  }

  /** An unreadable type before a missing one crashes, after it is rejected: the order of bad nodes can show. */
  lemma FailureDependsOnOrder()
    ensures GroupsOf([Obj(map["type" := Arr([])]), Int(5)]) == Failure(Crashed)
    ensures GroupsOf([Int(5), Obj(map["type" := Arr([])])]) == Failure(Rejected)
  {
    LeadingFault([Obj(map["type" := Arr([])]), Int(5)]);
    LeadingFault([Int(5), Obj(map["type" := Arr([])])]);
  }

  // ---------------------------------------------------------------- linear graphs

  lemma LinearShapeRelisted(graph: JsonObject, other: JsonObject, edges: seq<Json>, invocation: Invocation)
    requires Relisted(graph, other, edges) && LinearShapeOf(graph, invocation).Success?
    ensures LinearShapeOf(other, invocation).Success?
    ensures var s, t := LinearShapeOf(graph, invocation).value, LinearShapeOf(other, invocation).value;
      t == s.(first := t.first, second := t.second) && SameEdge(s.first, t.first) && SameEdge(s.second, t.second)
  {
    var a, b := Field(graph, "nodes").items, Field(other, "nodes").items;
    GroupsPermuted(a, b);
    SingletonBag(GroupsOf(a).value.sources, GroupsOf(b).value.sources);
    SingletonBag(GroupsOf(a).value.transforms, GroupsOf(b).value.transforms);
    SingletonBag(GroupsOf(a).value.targets, GroupsOf(b).value.targets);
    RelistedEdges(graph, other, edges);
  }

  lemma LinearBodySame(s: LinearShape, t: LinearShape, relations: Json, project: string)
    requires t == s.(first := t.first, second := t.second) && SameEdge(s.first, t.first) && SameEdge(s.second, t.second)
    requires LinearBodyOf(s, relations, project).Success?
    ensures LinearBodyOf(t, relations, project) == LinearBodyOf(s, relations, project)
  {
    hide TargetRelation, SourceTable, NodeFieldsOf, DirectMappingsOf;
    var x, y, z := NodeFieldsOf(s.source).value, NodeFieldsOf(s.transform).value, NodeFieldsOf(s.target).value;
    DirectMappingsSame(s.first, t.first, x.types, y.types, y.names);
    DirectMappingsSame(s.second, t.second, y.types, z.types, z.names);
  }

  lemma LinearOneWay(graph: JsonObject, other: JsonObject, edges: seq<Json>, relations: Json, invocation: Invocation)
    requires Relisted(graph, other, edges) && LinearGraphOf(graph, relations, invocation).Success?
    ensures LinearGraphOf(other, relations, invocation) == LinearGraphOf(graph, relations, invocation)
  {
    hide LinearShapeOf, LinearBodyOf;
    LinearShapeRelisted(graph, other, edges, invocation);
    LinearBodySame(
      LinearShapeOf(graph, invocation).value, LinearShapeOf(other, invocation).value, relations, invocation.project);
  }

  lemma LinearFailure(graph: JsonObject, relations: Json, invocation: Invocation)
    requires LinearGraphOf(graph, relations, invocation).Failure?
    ensures LinearGraphOf(graph, relations, invocation) == Failure(NodeFailure(graph, invocation))
  {
    hide LinearBodyOf, GroupsOf, NodeId, PlainTransform, EdgesOf;
  }

  /** Relisting an accepted linear document changes nothing; no relisting accepts a refused one. */
  lemma LinearGraphRelisted(
    graph: JsonObject, other: JsonObject, edges: seq<Json>, relations: Json, invocation: Invocation)
    requires Relisted(graph, other, edges)
    ensures LinearGraphOf(other, relations, invocation).Success? <==>
      LinearGraphOf(graph, relations, invocation).Success?
    ensures LinearGraphOf(graph, relations, invocation).Success? || OneFailure(graph, invocation) ==>
      LinearGraphOf(other, relations, invocation) == LinearGraphOf(graph, relations, invocation)
  {
    hide LinearGraphOf, Relisted, OneFailure;
    var back := RelistedBack(graph, other, edges);
    if LinearGraphOf(graph, relations, invocation).Success? {
      LinearOneWay(graph, other, edges, relations, invocation);
    } else if LinearGraphOf(other, relations, invocation).Success? {
      LinearOneWay(other, graph, back, relations, invocation);
    } else {
      LinearFailure(graph, relations, invocation);
      LinearFailure(other, relations, invocation);
      if OneFailure(graph, invocation) {
        NodeFailureRelisted(graph, other, edges, invocation);
      }
    }
  }

  /** The outcome is the same, failure kind included, for every relisting. */
  ghost predicate LinearOrderFree(graph: JsonObject, relations: Json, invocation: Invocation) {
    forall other, edges :: Relisted(graph, other, edges) ==>
      LinearGraphOf(other, relations, invocation) == LinearGraphOf(graph, relations, invocation)
  }

  lemma LinearStopsAtNodes(graph: JsonObject, relations: Json, invocation: Invocation)
    requires Entered(graph, invocation) && GroupsOf(Field(graph, "nodes").items).Failure?
    ensures LinearGraphOf(graph, relations, invocation) == Failure(GroupsOf(Field(graph, "nodes").items).error)
  {
    hide LinearBodyOf, GroupsOf, NodeId, PlainTransform, EdgesOf;
  }

  /** The order of a linear document never shows exactly when its nodes can fail in one way only. */
  lemma LinearOrderFreeIff(graph: JsonObject, relations: Json, invocation: Invocation)
    ensures LinearOrderFree(graph, relations, invocation) <==> OneFailure(graph, invocation)
  {
    if OneFailure(graph, invocation) {
      forall other, edges | Relisted(graph, other, edges)
        ensures LinearGraphOf(other, relations, invocation) == LinearGraphOf(graph, relations, invocation)
      {
        LinearGraphRelisted(graph, other, edges, relations, invocation);
      }
    } else {
      var first, second := TwoFailures(graph, invocation);
      LinearStopsAtNodes(first, relations, invocation);
      LinearStopsAtNodes(second, relations, invocation);
      assert LinearGraphOf(first, relations, invocation) != LinearGraphOf(second, relations, invocation);
    }
  }

  // ---------------------------------------------------------------- multistage graphs

  lemma MultistageShapeRelisted(graph: JsonObject, other: JsonObject, edges: seq<Json>, invocation: Invocation)
    requires Relisted(graph, other, edges) && MultistageShapeOf(graph, invocation).Success?
    ensures MultistageShapeOf(other, invocation).Success?
    ensures var s, t := MultistageShapeOf(graph, invocation).value, MultistageShapeOf(other, invocation).value;
      t == s.(toFirst := t.toFirst, toSecond := t.toSecond, toTarget := t.toTarget) &&
      SameEdge(s.toFirst, t.toFirst) && SameEdge(s.toSecond, t.toSecond) && SameEdge(s.toTarget, t.toTarget)
  {
    var a, b := Field(graph, "nodes").items, Field(other, "nodes").items;
    GroupsPermuted(a, b);
    var g, h := GroupsOf(a).value, GroupsOf(b).value;
    SingletonBag(g.sources, h.sources);
    SingletonBag(g.targets, h.targets);
    SameMembers(g.transforms, h.transforms);
    SortedSize(NodeTable(g.transforms).value.Keys);
    NodeTableSwapped(g.transforms, h.transforms);
    RelistedEdges(graph, other, edges);
  }

  lemma MultistageBodySame(s: MultistageShape, t: MultistageShape, relations: Json, project: string)
    requires t == s.(toFirst := t.toFirst, toSecond := t.toSecond, toTarget := t.toTarget) &&
      SameEdge(s.toFirst, t.toFirst) && SameEdge(s.toSecond, t.toSecond) && SameEdge(s.toTarget, t.toTarget)
    requires MultistageBodyOf(s, relations, project).Success?
    ensures MultistageBodyOf(t, relations, project) == MultistageBodyOf(s, relations, project)
  {
    hide TargetRelation, SourceTable, NodeFieldsOf, DirectMappingsOf;
    var x, y := NodeFieldsOf(s.source).value, NodeFieldsOf(s.first).value;
    var z, w := NodeFieldsOf(s.second).value, NodeFieldsOf(s.target).value;
    DirectMappingsSame(s.toFirst, t.toFirst, x.types, y.types, y.names);
    DirectMappingsSame(s.toSecond, t.toSecond, y.types, z.types, z.names);
    DirectMappingsSame(s.toTarget, t.toTarget, z.types, w.types, w.names);
  }

  lemma MultistageOneWay(
    graph: JsonObject, other: JsonObject, edges: seq<Json>, relations: Json, invocation: Invocation)
    requires Relisted(graph, other, edges) && MultistageGraphOf(graph, relations, invocation).Success?
    ensures MultistageGraphOf(other, relations, invocation) == MultistageGraphOf(graph, relations, invocation)
  {
    hide MultistageShapeOf, MultistageBodyOf;
    MultistageShapeRelisted(graph, other, edges, invocation);
    MultistageBodySame(
      MultistageShapeOf(graph, invocation).value, MultistageShapeOf(other, invocation).value, relations,
      invocation.project);
  }

  /** Both transforms carry one id, in a document otherwise sound up to the search for the chain. */
  ghost predicate OneTransformId(graph: JsonObject, invocation: Invocation) {
    Entered(graph, invocation) && GroupsOf(Field(graph, "nodes").items).Success? &&
    EdgesOf(Field(graph, "edges").items).Some? &&
    var g := GroupsOf(Field(graph, "nodes").items).value;
    |g.sources| == 1 && |g.transforms| == 2 && |g.targets| == 1 &&
    NodeId(g.sources[0]).Success? && NodeId(g.targets[0]).Success? && SameNodeIds(g.transforms)
  }

  predicate SameNodeIds(nodes: seq<JsonObject>) {
    |nodes| == 2 && NodeId(nodes[0]).Success? && NodeId(nodes[1]) == NodeId(nodes[0])
  }

  lemma NodeTableOfPair(nodes: seq<JsonObject>)
    requires |nodes| == 2
    ensures NodeTable(nodes).Success? <==> NodeId(nodes[0]).Success? && NodeId(nodes[1]).Success?
    ensures NodeTable(nodes).Success? ==> (|Sorted(NodeTable(nodes).value.Keys)| != 2 <==> SameNodeIds(nodes))
  {
    hide NodeId;
    assert nodes == [nodes[0], nodes[1]];
    NodeTableOfTwo(nodes[0], nodes[1]);
    if NodeTable(nodes).Success? {
      var i, j := NodeId(nodes[0]).value, NodeId(nodes[1]).value;
      var keys := NodeTable(nodes).value.Keys;
      assert keys == {i, j};
      SortedSize(keys);
      if i == j {
        assert keys == {i};
      } else {
        assert |{i, j}| == 2;
      }
    }
  }

  /** A refused multistage document fails at its nodes, crashes on a repeated transform id, or is rejected. */
  lemma MultistageFailure(graph: JsonObject, relations: Json, invocation: Invocation)
    requires MultistageGraphOf(graph, relations, invocation).Failure?
    ensures MultistageGraphOf(graph, relations, invocation) ==
      Failure(if OneTransformId(graph, invocation) then Crashed else NodeFailure(graph, invocation))
  {
    hide MultistageBodyOf, GroupsOf, NodeId, PlainTransform, EdgesOf, NodeTable;
    if Entered(graph, invocation) && GroupsOf(Field(graph, "nodes").items).Success? {
      var g := GroupsOf(Field(graph, "nodes").items).value;
      if |g.transforms| == 2 {
        NodeTableOfPair(g.transforms);
      }
    }
  }

  lemma OneTransformIdRelisted(graph: JsonObject, other: JsonObject, edges: seq<Json>, invocation: Invocation)
    requires Relisted(graph, other, edges) && OneTransformId(graph, invocation)
    ensures OneTransformId(other, invocation)
  {
    hide NodeId, GroupsOf;
    var a, b := Field(graph, "nodes").items, Field(other, "nodes").items;
    GroupsPermuted(a, b);
    var g, h := GroupsOf(a).value, GroupsOf(b).value;
    SingletonBag(g.sources, h.sources);
    SingletonBag(g.targets, h.targets);
    PairBag(g.transforms, h.transforms);
    RelistedEdges(graph, other, edges);
  }

  /** Relisting an accepted multistage document changes nothing; no relisting accepts a refused one. */
  lemma MultistageGraphRelisted(
    graph: JsonObject, other: JsonObject, edges: seq<Json>, relations: Json, invocation: Invocation)
    requires Relisted(graph, other, edges)
    ensures MultistageGraphOf(other, relations, invocation).Success? <==>
      MultistageGraphOf(graph, relations, invocation).Success?
    ensures MultistageGraphOf(graph, relations, invocation).Success? || OneFailure(graph, invocation) ==>
      MultistageGraphOf(other, relations, invocation) == MultistageGraphOf(graph, relations, invocation)
  {
    hide MultistageGraphOf, Relisted, OneFailure, OneTransformId;
    var back := RelistedBack(graph, other, edges);
    if MultistageGraphOf(graph, relations, invocation).Success? {
      MultistageOneWay(graph, other, edges, relations, invocation);
    } else if MultistageGraphOf(other, relations, invocation).Success? {
      MultistageOneWay(other, graph, back, relations, invocation);
    } else {
      MultistageFailure(graph, relations, invocation);
      MultistageFailure(other, relations, invocation);
      if OneFailure(graph, invocation) {
        NodeFailureRelisted(graph, other, edges, invocation);
        if OneTransformId(graph, invocation) {
          OneTransformIdRelisted(graph, other, edges, invocation);
        } else if OneTransformId(other, invocation) {
          OneTransformIdRelisted(other, graph, back, invocation);
        }
      }
    }
  }

  /** The outcome is the same, failure kind included, for every relisting. */
  ghost predicate MultistageOrderFree(graph: JsonObject, relations: Json, invocation: Invocation) {
    forall other, edges :: Relisted(graph, other, edges) ==>
      MultistageGraphOf(other, relations, invocation) == MultistageGraphOf(graph, relations, invocation)
  }

  lemma MultistageStopsAtNodes(graph: JsonObject, relations: Json, invocation: Invocation)
    requires Entered(graph, invocation) && GroupsOf(Field(graph, "nodes").items).Failure?
    ensures MultistageGraphOf(graph, relations, invocation) == Failure(GroupsOf(Field(graph, "nodes").items).error)
  {
    hide MultistageBodyOf, GroupsOf, NodeId, PlainTransform, EdgesOf, NodeTable;
  }

  /** The order of a multistage document never shows exactly when its nodes can fail in one way only. */
  lemma MultistageOrderFreeIff(graph: JsonObject, relations: Json, invocation: Invocation)
    ensures MultistageOrderFree(graph, relations, invocation) <==> OneFailure(graph, invocation)
  {
    if OneFailure(graph, invocation) {
      forall other, edges | Relisted(graph, other, edges)
        ensures MultistageGraphOf(other, relations, invocation) == MultistageGraphOf(graph, relations, invocation)
      {
        MultistageGraphRelisted(graph, other, edges, relations, invocation);
      }
    } else {
      var first, second := TwoFailures(graph, invocation);
      MultistageStopsAtNodes(first, relations, invocation);
      MultistageStopsAtNodes(second, relations, invocation);
      assert MultistageGraphOf(first, relations, invocation) != MultistageGraphOf(second, relations, invocation);
    }
  }

  // ---------------------------------------------------------------- keyed joins

  lemma JoinShapeRelisted(graph: JsonObject, other: JsonObject, edges: seq<Json>, invocation: Invocation)
    requires Relisted(graph, other, edges) && JoinShapeOf(graph, invocation).Success?
    ensures JoinShapeOf(other, invocation).Success?
    ensures var s, t := JoinShapeOf(graph, invocation).value, JoinShapeOf(other, invocation).value;
      t == s.(fromLeft := t.fromLeft, fromRight := t.fromRight, toTarget := t.toTarget) &&
      SameEdge(s.fromLeft, t.fromLeft) && SameEdge(s.fromRight, t.fromRight) && SameEdge(s.toTarget, t.toTarget)
  {
    var a, b := Field(graph, "nodes").items, Field(other, "nodes").items;
    GroupsPermuted(a, b);
    var g, h := GroupsOf(a).value, GroupsOf(b).value;
    SingletonBag(g.transforms, h.transforms);
    SingletonBag(g.targets, h.targets);
    SameMembers(g.sources, h.sources);
    var join := JoinShapeOf(graph, invocation).value.join;
    assert NodeTable(g.sources).value.Keys == {join.leftId, join.rightId} && join.leftId != join.rightId;
    NodeTableSwapped(g.sources, h.sources);
    RelistedEdges(graph, other, edges);
  }

  lemma JoinBodySame(s: JoinShape, t: JoinShape, relations: Json, project: string)
    requires t == s.(fromLeft := t.fromLeft, fromRight := t.fromRight, toTarget := t.toTarget) &&
      SameEdge(s.fromLeft, t.fromLeft) && SameEdge(s.fromRight, t.fromRight) && SameEdge(s.toTarget, t.toTarget)
    requires JoinBodyOf(s, relations, project).Success?
    ensures JoinBodyOf(t, relations, project) == JoinBodyOf(s, relations, project)
  {
    hide TargetRelation, JoinTables, NodeFieldsOf, DirectMappingsOf, SideOf, CompatibleKeys, CoverOnce;
    var x, y := NodeFieldsOf(s.transform).value, NodeFieldsOf(s.target).value;
    SideSame(s.left, s.fromLeft, t.fromLeft, x.types);
    SideSame(s.right, s.fromRight, t.fromRight, x.types);
    DirectMappingsSame(s.toTarget, t.toTarget, x.types, y.types, y.names);
  }

  lemma JoinOneWay(graph: JsonObject, other: JsonObject, edges: seq<Json>, relations: Json, invocation: Invocation)
    requires Relisted(graph, other, edges) && KeyedJoinGraphOf(graph, relations, invocation).Success?
    ensures KeyedJoinGraphOf(other, relations, invocation) == KeyedJoinGraphOf(graph, relations, invocation)
  {
    hide JoinShapeOf, JoinBodyOf;
    JoinShapeRelisted(graph, other, edges, invocation);
    JoinBodySame(
      JoinShapeOf(graph, invocation).value, JoinShapeOf(other, invocation).value, relations, invocation.project);
  }

  lemma JoinFailure(graph: JsonObject, relations: Json, invocation: Invocation)
    requires KeyedJoinGraphOf(graph, relations, invocation).Failure?
    ensures KeyedJoinGraphOf(graph, relations, invocation) == Failure(NodeFailure(graph, invocation))
  {
    hide JoinBodyOf, GroupsOf, NodeId, NodeTable, JoinContractOf, EdgesOf;
  }

  /** Relisting an accepted keyed join changes nothing; no relisting accepts a refused one. */
  lemma KeyedJoinGraphRelisted(
    graph: JsonObject, other: JsonObject, edges: seq<Json>, relations: Json, invocation: Invocation)
    requires Relisted(graph, other, edges)
    ensures KeyedJoinGraphOf(other, relations, invocation).Success? <==>
      KeyedJoinGraphOf(graph, relations, invocation).Success?
    ensures KeyedJoinGraphOf(graph, relations, invocation).Success? || OneFailure(graph, invocation) ==>
      KeyedJoinGraphOf(other, relations, invocation) == KeyedJoinGraphOf(graph, relations, invocation)
  {
    hide KeyedJoinGraphOf, Relisted, OneFailure;
    var back := RelistedBack(graph, other, edges);
    if KeyedJoinGraphOf(graph, relations, invocation).Success? {
      JoinOneWay(graph, other, edges, relations, invocation);
    } else if KeyedJoinGraphOf(other, relations, invocation).Success? {
      JoinOneWay(other, graph, back, relations, invocation);
    } else {
      JoinFailure(graph, relations, invocation);
      JoinFailure(other, relations, invocation);
      if OneFailure(graph, invocation) {
        NodeFailureRelisted(graph, other, edges, invocation);
      }
    }
  }

  /** The outcome is the same, failure kind included, for every relisting. */
  ghost predicate KeyedJoinOrderFree(graph: JsonObject, relations: Json, invocation: Invocation) {
    forall other, edges :: Relisted(graph, other, edges) ==>
      KeyedJoinGraphOf(other, relations, invocation) == KeyedJoinGraphOf(graph, relations, invocation)
  }

  lemma JoinStopsAtNodes(graph: JsonObject, relations: Json, invocation: Invocation)
    requires Entered(graph, invocation) && GroupsOf(Field(graph, "nodes").items).Failure?
    ensures KeyedJoinGraphOf(graph, relations, invocation) == Failure(GroupsOf(Field(graph, "nodes").items).error)
  {
    hide JoinBodyOf, GroupsOf, NodeId, NodeTable, JoinContractOf, EdgesOf;
  }

  /** The order of a keyed-join document never shows exactly when its nodes can fail in one way only. */
  lemma KeyedJoinOrderFreeIff(graph: JsonObject, relations: Json, invocation: Invocation)
    ensures KeyedJoinOrderFree(graph, relations, invocation) <==> OneFailure(graph, invocation)
  {
    if OneFailure(graph, invocation) {
      forall other, edges | Relisted(graph, other, edges)
        ensures KeyedJoinGraphOf(other, relations, invocation) == KeyedJoinGraphOf(graph, relations, invocation)
      {
        KeyedJoinGraphRelisted(graph, other, edges, relations, invocation);
      }
    } else {
      var first, second := TwoFailures(graph, invocation);
      JoinStopsAtNodes(first, relations, invocation);
      JoinStopsAtNodes(second, relations, invocation);
      assert KeyedJoinGraphOf(first, relations, invocation) != KeyedJoinGraphOf(second, relations, invocation);
    }
  }
}
