/** What acceptance by a graph builder guarantees to everything that runs afterwards. */
module GraphGuarantees {
  import opened Text
  import opened Wrappers
  import opened CanonicalJson
  import opened GraphConfiguration

  // ---------------------------------------------------------------- characterizations of the collected tables

  /** The names read from an accepted field list are the declared ones, in order. */
  lemma {:induction false} FieldsNamed(raw: seq<Json>)
    requires FieldsOf(raw).Some?
    ensures forall i :: 0 <= i < |raw| ==> GoodField(raw[i]) && FieldsOf(raw).value.names[i] == FieldName(raw[i])
  {
    hide GoodField, FieldName, FieldType;
    if raw != [] {
      var n := |raw| - 1;
      FieldsNamed(raw[..n]);
      assert forall i :: 0 <= i < n ==> raw[..n][i] == raw[i];
    }
  }

  /** Only lists of supported, distinctly named fields are accepted. */
  lemma {:induction false} FieldsOfExact(raw: seq<Json>)
    ensures FieldsOf(raw).Some? <==>
      (forall i :: 0 <= i < |raw| ==> GoodField(raw[i])) &&
      (forall i, j :: 0 <= i < j < |raw| && GoodField(raw[i]) && GoodField(raw[j]) ==>
        FieldName(raw[i]) != FieldName(raw[j]))
  {
    hide GoodField, FieldName, FieldType;
    if raw != [] {
      var n := |raw| - 1;
      FieldsOfExact(raw[..n]);
      assert forall i :: 0 <= i < n ==> raw[..n][i] == raw[i];
      if FieldsOf(raw[..n]).Some? {
        FieldsNamed(raw[..n]);
        var names := FieldsOf(raw[..n]).value.names;
        assert forall i :: 0 <= i < n ==> names[i] == FieldName(raw[i]);
        assert forall k :: k in FieldsOf(raw[..n]).value.types <==> k in names;
      }
    }
  }

  lemma FieldsDistinct(raw: seq<Json>)
    requires FieldsOf(raw).Some?
    ensures Distinct(FieldsOf(raw).value.names)
  {
    FieldsOfExact(raw);
    FieldsNamed(raw);
  }

  /** Only the type-preserving, target-distinct mapping lists have a table. */
  lemma {:induction false} MappingTableDefined(raw: seq<Json>, st: map<string, string>, tt: map<string, string>)
    ensures MappingTable(raw, st, tt).Some? <==>
      (forall i :: 0 <= i < |raw| ==> GoodMapping(raw[i], st, tt)) &&
      (forall i, j :: 0 <= i < j < |raw| && GoodMapping(raw[i], st, tt) && GoodMapping(raw[j], st, tt) ==>
        MappingOf(raw[i]).target != MappingOf(raw[j]).target)
  {
    if raw != [] {
      var n := |raw| - 1;
      MappingTableDefined(raw[..n], st, tt);
      assert forall i :: 0 <= i < n ==> raw[..n][i] == raw[i];
      if MappingTable(raw[..n], st, tt).Some? && GoodMapping(raw[n], st, tt) {
        KnownTarget(raw[..n], st, tt, MappingOf(raw[n]).target);
      }
    }
  }

  lemma KnownTarget(raw: seq<Json>, st: map<string, string>, tt: map<string, string>, t: string)
    requires MappingTable(raw, st, tt).Some? && forall i :: 0 <= i < |raw| ==> GoodMapping(raw[i], st, tt)
    ensures t in MappingTable(raw, st, tt).value <==>
      exists i :: 0 <= i < |raw| && GoodMapping(raw[i], st, tt) && MappingOf(raw[i]).target == t
  {
    MappingTableExact(raw, st, tt);
    var table := MappingTable(raw, st, tt).value;
    if t in table {
      assert Names(raw, st, tt, table[t]);
      var e :| e in raw && GoodMapping(e, st, tt) && MappingOf(e) == table[t];
      var i :| 0 <= i < |raw| && raw[i] == e;
      assert MappingOf(raw[i]).target == t;
    }
    if i :| 0 <= i < |raw| && GoodMapping(raw[i], st, tt) && MappingOf(raw[i]).target == t {
      assert raw[i] in raw && Names(raw, st, tt, MappingOf(raw[i]));
    }
  }

  /** The mapping list really names m. */
  ghost predicate Names(raw: seq<Json>, st: map<string, string>, tt: map<string, string>, m: DirectMapping) {
    exists e :: e in raw && GoodMapping(e, st, tt) && MappingOf(e) == m
  }

  /** A table holds exactly the mappings its list names. */
  lemma {:induction false} MappingTableExact(raw: seq<Json>, st: map<string, string>, tt: map<string, string>)
    requires MappingTable(raw, st, tt).Some?
    ensures var table := MappingTable(raw, st, tt).value;
      forall t, m :: t in table && table[t] == m <==> m.target == t && Names(raw, st, tt, m)
  {
    if raw != [] {
      var n := |raw| - 1;
      var last := raw[n];
      MappingTableExact(raw[..n], st, tt);
      assert raw == raw[..n] + [last];
      forall m
        ensures Names(raw, st, tt, m) <==> Names(raw[..n], st, tt, m) || m == MappingOf(last)
      {
        if e :| e in raw && GoodMapping(e, st, tt) && MappingOf(e) == m {
          assert e in raw[..n] || e == last;
        }
        if e :| e in raw[..n] && GoodMapping(e, st, tt) && MappingOf(e) == m {
          assert e in raw;
        }
        if m == MappingOf(last) {
          assert last in raw;
        }
      }
    }
  }

  /** A list of renames all of whose sources and targets exist with one type. */
  predicate Typed(ms: seq<DirectMapping>, sourceTypes: map<string, string>, targetTypes: map<string, string>) {
    forall i :: 0 <= i < |ms| ==>
      ms[i].source in sourceTypes && ms[i].target in targetTypes &&
      sourceTypes[ms[i].source] == targetTypes[ms[i].target]
  }

  lemma TableTyped(raw: seq<Json>, st: map<string, string>, tt: map<string, string>, fields: seq<string>)
    requires MappingTable(raw, st, tt).Some?
    requires forall f :: f in fields ==> f in MappingTable(raw, st, tt).value
    ensures Typed(Listed(MappingTable(raw, st, tt).value, fields), st, tt)
    ensures Targets(Listed(MappingTable(raw, st, tt).value, fields)) == fields
  {
    MappingTableExact(raw, st, tt);
    var table := MappingTable(raw, st, tt).value;
    forall i | 0 <= i < |fields|
      ensures table[fields[i]].source in st && fields[i] in tt && st[table[fields[i]].source] == tt[fields[i]]
    {
      var t := fields[i];
      assert t in table && Names(raw, st, tt, table[t]);
      var e :| e in raw && GoodMapping(e, st, tt) && MappingOf(e) == table[t];
    }
  }

  /** Direct mappings are total on the declared output, in its order, and preserve types. */
  lemma DirectMappingsTyped(edge: JsonObject, st: map<string, string>, tt: map<string, string>, fields: seq<string>)
    requires DirectMappingsOf(edge, st, tt, fields).Success?
    ensures var ms := DirectMappingsOf(edge, st, tt, fields).value; Targets(ms) == fields && Typed(ms, st, tt)
  {
    TableTyped(Field(edge, "mappings").items, st, tt, fields);
  }

  lemma PartialMappingsTyped(edge: JsonObject, st: map<string, string>, tt: map<string, string>)
    requires PartialDirectMappingsOf(edge, st, tt).Success?
    ensures var ms := PartialDirectMappingsOf(edge, st, tt).value; StrictlySorted(Targets(ms)) && Typed(ms, st, tt)
  {
    var table := EdgeMappings(edge, st, tt).value;
    TableTyped(Field(edge, "mappings").items, st, tt, Sorted(table.Keys));
  }

  /** The field names of an accepted node are distinct, and typed by exactly those names. */
  ghost predicate GoodFields(f: Fields) {
    Distinct(f.names) && forall k :: k in f.types <==> k in f.names
  }

  lemma NodeFieldsGood(node: JsonObject)
    requires NodeFieldsOf(node).Success?
    ensures GoodFields(NodeFieldsOf(node).value)
  {
    FieldsDistinct(Field(node, "fields").items);
  }

  // ---------------------------------------------------------------- typed graphs

  ghost predicate TypedLinear(g: LinearGraph, s: Fields, t: Fields, d: Fields) {
    GoodFields(s) && GoodFields(t) && GoodFields(d) &&
    g.sourceFields == s.names && g.transformFields == t.names && g.targetFields == d.names &&
    Targets(g.sourceToTransform) == t.names && Typed(g.sourceToTransform, s.types, t.types) &&
    Targets(g.transformToTarget) == d.names && Typed(g.transformToTarget, t.types, d.types)
  }

  ghost predicate TypedMultistage(g: MultistageLinearGraph, s: Fields, a: Fields, b: Fields, d: Fields) {
    GoodFields(s) && GoodFields(a) && GoodFields(b) && GoodFields(d) &&
    g.sourceFields == s.names && g.firstTransformFields == a.names && g.secondTransformFields == b.names &&
    g.targetFields == d.names &&
    Targets(g.sourceToFirst) == a.names && Typed(g.sourceToFirst, s.types, a.types) &&
    Targets(g.firstToSecond) == b.names && Typed(g.firstToSecond, a.types, b.types) &&
    Targets(g.secondToTarget) == d.names && Typed(g.secondToTarget, b.types, d.types)
  }

  /** The sides' targets are disjoint and together exactly the joined fields, so merging the tables loses nothing. */
  ghost predicate TypedJoin(g: KeyedJoinGraph, l: Fields, r: Fields, t: Fields, d: Fields) {
    GoodFields(l) && GoodFields(r) && GoodFields(t) && GoodFields(d) &&
    g.left.fields == l.names && g.right.fields == r.names &&
    g.transformFields == t.names && g.targetFields == d.names &&
    g.left.joinKey in l.types && g.right.joinKey in r.types && l.types[g.left.joinKey] == r.types[g.right.joinKey] &&
    Typed(g.left.mappings, l.types, t.types) && Typed(g.right.mappings, r.types, t.types) &&
    Distinct(Targets(g.left.mappings)) && Distinct(Targets(g.right.mappings)) &&
    (forall f :: f in t.names <==> f in Targets(g.left.mappings) || f in Targets(g.right.mappings)) &&
    (forall f :: !(f in Targets(g.left.mappings) && f in Targets(g.right.mappings))) &&
    Targets(g.transformToTarget) == d.names && Typed(g.transformToTarget, t.types, d.types)
  }

  /** Every accepted linear graph is typed and total along its whole chain. */
  lemma LinearGraphTyped(graph: JsonObject, relations: Json, invocation: Invocation, g: LinearGraph)
    returns (s: Fields, t: Fields, d: Fields)
    requires LinearGraphOf(graph, relations, invocation) == Success(g)
    ensures TypedLinear(g, s, t, d)
  {
    s, t, d := LinearBodyTyped(LinearShapeOf(graph, invocation).value, relations, invocation.project, g);
  }

  lemma LinearBodyTyped(shape: LinearShape, relations: Json, project: string, g: LinearGraph)
    returns (s: Fields, t: Fields, d: Fields)
    requires LinearBodyOf(shape, relations, project) == Success(g)
    ensures TypedLinear(g, s, t, d)
  {
    hide TargetRelation, SourceTable, NodeFieldsOf, DirectMappingsOf, Typed, GoodFields;
    s, t, d := NodeFieldsOf(shape.source).value, NodeFieldsOf(shape.transform).value, NodeFieldsOf(shape.target).value;
    NodeFieldsGood(shape.source);
    NodeFieldsGood(shape.transform);
    NodeFieldsGood(shape.target);
    DirectMappingsTyped(shape.first, s.types, t.types, t.names);
    DirectMappingsTyped(shape.second, t.types, d.types, d.names);
  }

  /** Every accepted multistage graph is typed and total along its whole chain. */
  lemma MultistageGraphTyped(graph: JsonObject, relations: Json, invocation: Invocation, g: MultistageLinearGraph)
    returns (s: Fields, a: Fields, b: Fields, d: Fields)
    requires MultistageGraphOf(graph, relations, invocation) == Success(g)
    ensures TypedMultistage(g, s, a, b, d)
  {
    s, a, b, d := MultistageBodyTyped(MultistageShapeOf(graph, invocation).value, relations, invocation.project, g);
  }

  lemma MultistageBodyTyped(shape: MultistageShape, relations: Json, project: string, g: MultistageLinearGraph)
    returns (s: Fields, a: Fields, b: Fields, d: Fields)
    requires MultistageBodyOf(shape, relations, project) == Success(g)
    ensures TypedMultistage(g, s, a, b, d)
  {
    hide TargetRelation, SourceTable, NodeFieldsOf, DirectMappingsOf, Typed, GoodFields;
    s, d := NodeFieldsOf(shape.source).value, NodeFieldsOf(shape.target).value;
    a, b := NodeFieldsOf(shape.first).value, NodeFieldsOf(shape.second).value;
    NodeFieldsGood(shape.source);
    NodeFieldsGood(shape.first);
    NodeFieldsGood(shape.second);
    NodeFieldsGood(shape.target);
    DirectMappingsTyped(shape.toFirst, s.types, a.types, a.names);
    DirectMappingsTyped(shape.toSecond, a.types, b.types, b.names);
    DirectMappingsTyped(shape.toTarget, b.types, d.types, d.names);
  }

  lemma CoverOnceSplits(left: seq<DirectMapping>, right: seq<DirectMapping>, fields: seq<string>)
    requires CoverOnce(left, right, fields)
    ensures Distinct(Targets(left)) && Distinct(Targets(right))
    ensures forall f :: f in fields <==> f in Targets(left) || f in Targets(right)
    ensures forall f :: !(f in Targets(left) && f in Targets(right))
  {
    var l, r := Targets(left), Targets(right);
    var mapped := l + r;
    assert forall i :: 0 <= i < |l| ==> mapped[i] == l[i];
    assert forall j :: 0 <= j < |r| ==> mapped[|l| + j] == r[j];
    forall f
      ensures f in fields <==> f in l || f in r
    {
      var produced, declared := (set t | t in Targets(left) + Targets(right)), (set x | x in fields);
      assert produced == declared;
      assert f in produced <==> f in l || f in r;
    }
    forall i, j | 0 <= i < |l| && 0 <= j < |r|
      ensures l[i] != r[j]
    {
      assert mapped[i] != mapped[|l| + j];
    }
  }

  /** Every accepted keyed join is typed, key-compatible, and splits its joined fields between the two sides. */
  lemma KeyedJoinGraphTyped(graph: JsonObject, relations: Json, invocation: Invocation, g: KeyedJoinGraph)
    returns (l: Fields, r: Fields, t: Fields, d: Fields)
    requires KeyedJoinGraphOf(graph, relations, invocation) == Success(g)
    ensures TypedJoin(g, l, r, t, d)
  {
    l, r, t, d := JoinBodyTyped(JoinShapeOf(graph, invocation).value, relations, invocation.project, g);
  }

  lemma SideParts(node: JsonObject, edge: JsonObject, transformTypes: map<string, string>)
    requires SideOf(node, edge, transformTypes).Success?
    ensures var side := SideOf(node, edge, transformTypes).value;
      NodeFieldsOf(node) == Success(side.fields) &&
      PartialDirectMappingsOf(edge, side.fields.types, transformTypes) == Success(side.mappings)
  {
  }

  /** The steps a keyed join has passed when it is built, and what each contributed. */
  lemma JoinBodyParts(shape: JoinShape, relations: Json, project: string, g: KeyedJoinGraph)
    returns (left: Side, right: Side, t: Fields, d: Fields)
    requires JoinBodyOf(shape, relations, project) == Success(g)
    ensures NodeFieldsOf(shape.transform) == Success(t) && NodeFieldsOf(shape.target) == Success(d)
    ensures SideOf(shape.left, shape.fromLeft, t.types) == Success(left)
    ensures SideOf(shape.right, shape.fromRight, t.types) == Success(right)
    ensures CompatibleKeys(shape.join, left.fields, right.fields) && CoverOnce(left.mappings, right.mappings, t.names)
    ensures DirectMappingsOf(shape.toTarget, t.types, d.types, d.names) == Success(g.transformToTarget)
    ensures g.left.fields == left.fields.names && g.right.fields == right.fields.names
    ensures g.left.mappings == left.mappings && g.right.mappings == right.mappings
    ensures g.left.joinKey == shape.join.leftKey && g.right.joinKey == shape.join.rightKey
    ensures g.transformFields == t.names && g.targetFields == d.names
  {
    hide TargetRelation, JoinTables, NodeFieldsOf, SideOf, DirectMappingsOf, CompatibleKeys, CoverOnce;
    t, d := NodeFieldsOf(shape.transform).value, NodeFieldsOf(shape.target).value;
    left := SideOf(shape.left, shape.fromLeft, t.types).value;
    right := SideOf(shape.right, shape.fromRight, t.types).value;
  }

  lemma JoinBodyTyped(shape: JoinShape, relations: Json, project: string, g: KeyedJoinGraph)
    returns (l: Fields, r: Fields, t: Fields, d: Fields)
    requires JoinBodyOf(shape, relations, project) == Success(g)
    ensures TypedJoin(g, l, r, t, d)
  {
    hide JoinBodyOf, NodeFieldsOf, SideOf, DirectMappingsOf, PartialDirectMappingsOf, CoverOnce, Typed, GoodFields;
    var left, right;
    left, right, t, d := JoinBodyParts(shape, relations, project, g);
    l, r := left.fields, right.fields;
    SideParts(shape.left, shape.fromLeft, t.types);
    SideParts(shape.right, shape.fromRight, t.types);
    NodeFieldsGood(shape.left);
    NodeFieldsGood(shape.right);
    NodeFieldsGood(shape.transform);
    NodeFieldsGood(shape.target);
    PartialMappingsTyped(shape.fromLeft, l.types, t.types);
    PartialMappingsTyped(shape.fromRight, r.types, t.types);
    DirectMappingsTyped(shape.toTarget, t.types, d.types, d.names);
    CoverOnceSplits(g.left.mappings, g.right.mappings, t.names);
  }

  // ---------------------------------------------------------------- the multistage chain

  /** Two orders of the same transforms describe one edge set only when source and target are one of the two. */
  lemma ChainAmbiguousIff(s: string, t: string, a: string, b: string)
    requires a != b
    ensures ChainEdges(s, a, b, t) == ChainEdges(s, b, a, t) <==> s == t && (s == a || s == b)
  {
    if ChainEdges(s, a, b, t) == ChainEdges(s, b, a, t) {
      assert (a, b) in ChainEdges(s, b, a, t);
      assert (b, a) in ChainEdges(s, a, b, t);
    }
  }

  lemma SortedPair(a: string, b: string)
    requires a != b
    ensures Sorted({a, b}) == [a, b] || Sorted({a, b}) == [b, a]
  {
    var ks := Sorted({a, b});
    SortedSize({a, b});
    assert |{a, b}| == 2;
    assert ks[0] in {a, b} && ks[1] in {a, b} && Less(ks[0], ks[1]);
  }

  /**
   For any two transform ids the search fails exactly when the edges are neither chain, and prefers the smaller id first
   where, with repeated ids, they are both.
  */
  lemma ChainOrderExact(s: string, t: string, a: string, b: string, edges: set<Pair>)
    requires a != b
    ensures ChainOrder(s, t, {a, b}, edges) == Success((a, b)) <==>
      edges == ChainEdges(s, a, b, t) && (Less(a, b) || !(s == t && (s == a || s == b)))
    ensures ChainOrder(s, t, {a, b}, edges).Failure? <==>
      edges != ChainEdges(s, a, b, t) && edges != ChainEdges(s, b, a, t)
  {
    hide ChainEdges;
    SortedPair(a, b);
    var ids := Sorted({a, b});
    assert Less(ids[0], ids[1]);
    OneDirection(a, b);
    ChainAmbiguousIff(s, t, a, b);
  }

  lemma OneDirection(a: string, b: string)
    ensures !(Less(a, b) && Less(b, a))
  {
    if Leq(a, b) && Leq(b, a) {
      LeqAntisymmetric(a, b);
    }
  }
}
