/** The direct relational meaning of an accepted graph, and that stage-by-stage execution computes it. */
module Meaning {
  import opened Wrappers
  import opened Bags
  import opened GraphConfiguration
  import opened GraphGuarantees
  import opened Frames

  // ---------------------------------------------------------------- totality

  /** The renames produce exactly these distinct fields, each from an available column. */
  predicate Total(ms: seq<DirectMapping>, columns: seq<string>, fields: seq<string>) {
    Targets(ms) == fields && Distinct(fields) && forall m :: m in ms ==> m.source in columns
  }

  predicate TotalLinear(g: LinearGraph) {
    Total(g.sourceToTransform, g.sourceFields, g.transformFields) &&
    Total(g.transformToTarget, g.transformFields, g.targetFields)
  }

  predicate TotalMultistage(g: MultistageLinearGraph) {
    Total(g.sourceToFirst, g.sourceFields, g.firstTransformFields) &&
    Total(g.firstToSecond, g.firstTransformFields, g.secondTransformFields) &&
    Total(g.secondToTarget, g.secondTransformFields, g.targetFields)
  }

  /** Each joined field comes from exactly one side, from a column that side has. */
  predicate TotalJoin(g: KeyedJoinGraph) {
    g.left.joinKey in g.left.fields && g.right.joinKey in g.right.fields &&
    Distinct(Targets(g.left.mappings)) && Distinct(Targets(g.right.mappings)) &&
    (forall m :: m in g.left.mappings ==> m.source in g.left.fields) &&
    (forall m :: m in g.right.mappings ==> m.source in g.right.fields) &&
    (forall f :: f in g.transformFields ==> f in Targets(g.left.mappings) || f in Targets(g.right.mappings)) &&
    (forall f :: f in Targets(g.left.mappings) ==> f !in Targets(g.right.mappings)) &&
    Total(g.transformToTarget, g.transformFields, g.targetFields)
  }

  lemma TypedIsTotal(ms: seq<DirectMapping>, s: Fields, t: Fields)
    requires GoodFields(s) && GoodFields(t) && Targets(ms) == t.names && Typed(ms, s.types, t.types)
    ensures Total(ms, s.names, t.names)
  {
  }

  /** Acceptance makes every later column reference of a linear run defined. */
  lemma LinearAcceptedTotal(g: LinearGraph, s: Fields, t: Fields, d: Fields)
    requires TypedLinear(g, s, t, d)
    ensures TotalLinear(g)
  {
    TypedIsTotal(g.sourceToTransform, s, t);
    TypedIsTotal(g.transformToTarget, t, d);
  }

  lemma MultistageAcceptedTotal(g: MultistageLinearGraph, s: Fields, a: Fields, b: Fields, d: Fields)
    requires TypedMultistage(g, s, a, b, d)
    ensures TotalMultistage(g)
  {
    TypedIsTotal(g.sourceToFirst, s, a);
    TypedIsTotal(g.firstToSecond, a, b);
    TypedIsTotal(g.secondToTarget, b, d);
  }

  lemma JoinAcceptedTotal(g: KeyedJoinGraph, l: Fields, r: Fields, t: Fields, d: Fields)
    requires TypedJoin(g, l, r, t, d)
    ensures TotalJoin(g)
  {
    TypedIsTotal(g.transformToTarget, t, d);
  }

  lemma TotalLookup(ms: seq<DirectMapping>, columns: seq<string>, fields: seq<string>)
    requires Total(ms, columns, fields)
    ensures forall f :: f in fields ==> f in ByTarget(ms) && ByTarget(ms)[f] in columns
  {
    ByTargetValues(ms);
    forall f | f in fields
      ensures f in ByTarget(ms) && ByTarget(ms)[f] in columns
    {
      var i :| 0 <= i < |ms| && Targets(ms)[i] == f;
      assert ms[i] in ms;
    }
  }

  /** A total projection never fails on a frame with those columns. */
  lemma ProjectTotal(frame: Frame, ms: seq<DirectMapping>, columns: seq<string>, fields: seq<string>)
    requires Total(ms, columns, fields) && frame.columns == columns
    ensures ProjectFrame(frame, ms, fields).Some?
  {
    TotalLookup(ms, columns, fields);
  }

  // ---------------------------------------------------------------- types along the chain

  /** Composing type-preserving renames preserves types from the first record to the last. */
  lemma ComposedTyped(
    first: seq<DirectMapping>, second: seq<DirectMapping>, s: Fields, t: Fields, d: Fields, f: string)
    requires GoodFields(s) && GoodFields(t) && GoodFields(d)
    requires Targets(first) == t.names && Typed(first, s.types, t.types)
    requires Targets(second) == d.names && Typed(second, t.types, d.types)
    requires f in d.names
    ensures var both := Composed(ByTarget(first), ByTarget(second));
      f in both && both[f] in s.types && s.types[both[f]] == d.types[f]
  {
    TypedLookup(second, t, d, f);
    TypedLookup(first, s, t, ByTarget(second)[f]);
  }

  lemma TypedLookup(ms: seq<DirectMapping>, s: Fields, t: Fields, f: string)
    requires GoodFields(s) && GoodFields(t) && Targets(ms) == t.names && Typed(ms, s.types, t.types) && f in t.names
    ensures f in ByTarget(ms) && ByTarget(ms)[f] in s.names && s.types[ByTarget(ms)[f]] == t.types[f]
  {
    ByTargetValues(ms);
    var i :| 0 <= i < |ms| && Targets(ms)[i] == f;
    assert ms[i] in ms;
  }

  // ---------------------------------------------------------------- linear and multistage meaning

  function Identity(fields: seq<string>): map<string, string> {
    map f | f in fields :: f
  }

  /** The published rows: each target field straight from its source column. */
  function LinearMeaning(g: LinearGraph, source: seq<Row>): seq<Row> {
    Map(Pick(Composed(ByTarget(g.sourceToTransform), ByTarget(g.transformToTarget)), g.targetFields), source)
  }

  function MultistageMeaning(g: MultistageLinearGraph, source: seq<Row>): seq<Row> {
    Map(
      Pick(
        Composed(Composed(ByTarget(g.sourceToFirst), ByTarget(g.firstToSecond)), ByTarget(g.secondToTarget)),
        g.targetFields),
      source)
  }

  lemma SelectThenPick(sources: map<string, string>, columns: seq<string>, fields: seq<string>, rows: seq<Row>)
    requires forall f :: f in fields ==> f in sources && sources[f] in columns
    ensures Map(Pick(sources, fields), Map(Pick(Identity(columns), columns), rows)) == Map(Pick(sources, fields), rows)
  {
    forall i | 0 <= i < |rows|
      ensures Pick(sources, fields)(Pick(Identity(columns), columns)(rows[i])) == Pick(sources, fields)(rows[i])
    {
    }
  }

  /** Executing the linear stages on any arrangement of the selected source rows yields the meaning, as a bag. */
  lemma LinearStages(g: LinearGraph, source: seq<Row>, exchanged: seq<Row>)
    requires TotalLinear(g)
    requires multiset(exchanged) == multiset(Map(Pick(Identity(g.sourceFields), g.sourceFields), source))
    ensures multiset(Map(Pick(ByTarget(g.transformToTarget), g.targetFields),
      Map(Pick(ByTarget(g.sourceToTransform), g.transformFields), exchanged))) == multiset(LinearMeaning(g, source))
  {
    var first, second := ByTarget(g.sourceToTransform), ByTarget(g.transformToTarget);
    TotalLookup(g.sourceToTransform, g.sourceFields, g.transformFields);
    TotalLookup(g.transformToTarget, g.transformFields, g.targetFields);
    MapPickComposed(first, g.transformFields, second, g.targetFields, exchanged);
    MapPermuted(
      Pick(Composed(first, second), g.targetFields), exchanged,
      Map(Pick(Identity(g.sourceFields), g.sourceFields), source));
    SelectThenPick(Composed(first, second), g.sourceFields, g.targetFields, source);
  }

  /** Executing the multistage chain, with any rearrangement at either exchange, is one projection of the source. */
  lemma MultistageStages(g: MultistageLinearGraph, source: seq<Row>, one: seq<Row>, two: seq<Row>)
    requires TotalMultistage(g)
    requires multiset(one) == multiset(Map(Pick(Identity(g.sourceFields), g.sourceFields), source))
    requires multiset(two) == multiset(Map(Pick(ByTarget(g.sourceToFirst), g.firstTransformFields), one))
    ensures multiset(Map(Pick(ByTarget(g.secondToTarget), g.targetFields),
      Map(Pick(ByTarget(g.firstToSecond), g.secondTransformFields), two))) == multiset(MultistageMeaning(g, source))
  {
    var first, second, third := ByTarget(g.sourceToFirst), ByTarget(g.firstToSecond), ByTarget(g.secondToTarget);
    TotalLookup(g.sourceToFirst, g.sourceFields, g.firstTransformFields);
    TotalLookup(g.firstToSecond, g.firstTransformFields, g.secondTransformFields);
    TotalLookup(g.secondToTarget, g.secondTransformFields, g.targetFields);
    var late := Composed(second, third);
    MapPickComposed(second, g.secondTransformFields, third, g.targetFields, two);
    MapPermuted(Pick(late, g.targetFields), two, Map(Pick(first, g.firstTransformFields), one));
    MapPickComposed(first, g.firstTransformFields, late, g.targetFields, one);
    assert Composed(first, late) == Composed(Composed(first, second), third) by {
      ComposedAssociative(first, second, third);
    }
    var all := Composed(Composed(first, second), third);
    MapPermuted(Pick(all, g.targetFields), one, Map(Pick(Identity(g.sourceFields), g.sourceFields), source));
    SelectThenPick(all, g.sourceFields, g.targetFields, source);
  }

  lemma ComposedAssociative(a: map<string, string>, b: map<string, string>, c: map<string, string>)
    ensures Composed(a, Composed(b, c)) == Composed(Composed(a, b), c)
  {
  }

  // ---------------------------------------------------------------- join meaning

  /** The qualified projection of one matching pair: the merged table prefers the right side. */
  function PickPair(left: map<string, string>, right: map<string, string>, fields: seq<string>): ((Row, Row)) -> Row {
    (p: (Row, Row)) => map f | f in fields ::
      if f in right then Cell(p.1, right[f]) else if f in left then Cell(p.0, left[f]) else VNull
  }

  /** The published row of a pair: each target field from the one side that feeds it. */
  function PublishedPair(g: KeyedJoinGraph): ((Row, Row)) -> Row {
    var left, right, last := ByTarget(g.left.mappings), ByTarget(g.right.mappings), ByTarget(g.transformToTarget);
    PickPair(Composed(left, last), Composed(right, last), g.targetFields)
  }

  /** The projected inner join of the whole sources. */
  function JoinMeaning(g: KeyedJoinGraph, left: seq<Row>, right: seq<Row>): seq<Row> {
    Map(PublishedPair(g), JoinRows(left, right, g.left.joinKey, g.right.joinKey))
  }

  function PairMap(f: Row -> Row, h: Row -> Row): ((Row, Row)) -> (Row, Row) {
    (p: (Row, Row)) => (f(p.0), h(p.1))
  }

  lemma {:induction false} JoinOneMapped(
    f: Row -> Row, h: Row -> Row, l: Row, right: seq<Row>, leftKey: string, rightKey: string)
    requires Cell(f(l), leftKey) == Cell(l, leftKey)
    requires forall r: Row :: Cell(h(r), rightKey) == Cell(r, rightKey)
    ensures JoinOne(f(l), Map(h, right), leftKey, rightKey) == Map(PairMap(f, h), JoinOne(l, right, leftKey, rightKey))
  {
    if right != [] {
      JoinOneMapped(f, h, l, right[1..], leftKey, rightKey);
      assert Map(h, right)[1..] == Map(h, right[1..]);
      var head := if Matches(l, right[0], leftKey, rightKey) then [(l, right[0])] else [];
      MapSplit(PairMap(f, h), head, JoinOne(l, right[1..], leftKey, rightKey));
    }
  }

  /** Pruning columns before the join is the same as pruning them after it, when the keys survive. */
  lemma {:induction false} JoinMapped(
    f: Row -> Row, h: Row -> Row, left: seq<Row>, right: seq<Row>, leftKey: string, rightKey: string)
    requires forall l: Row :: Cell(f(l), leftKey) == Cell(l, leftKey)
    requires forall r: Row :: Cell(h(r), rightKey) == Cell(r, rightKey)
    ensures JoinRows(Map(f, left), Map(h, right), leftKey, rightKey) ==
      Map(PairMap(f, h), JoinRows(left, right, leftKey, rightKey))
  {
    if left != [] {
      JoinMapped(f, h, left[1..], right, leftKey, rightKey);
      JoinOneMapped(f, h, left[0], right, leftKey, rightKey);
      assert Map(f, left)[1..] == Map(f, left[1..]);
      MapSplit(
        PairMap(f, h), JoinOne(left[0], right, leftKey, rightKey), JoinRows(left[1..], right, leftKey, rightKey));
    }
  }

  /** Within accepted graphs each joined field has one source side, so merging the two tables loses nothing. */
  lemma JoinLookup(g: KeyedJoinGraph)
    requires TotalJoin(g)
    ensures var left, right := ByTarget(g.left.mappings), ByTarget(g.right.mappings);
      forall f :: f in g.transformFields ==>
        (f in left && f !in right && left[f] in g.left.fields) ||
        (f in right && f !in left && right[f] in g.right.fields)
  {
    ByTargetKeys(g.left.mappings);
    ByTargetKeys(g.right.mappings);
    ByTargetValues(g.left.mappings);
    ByTargetValues(g.right.mappings);
    forall f | f in g.transformFields
      ensures f in ByTarget(g.left.mappings) ==> ByTarget(g.left.mappings)[f] in g.left.fields
      ensures f in ByTarget(g.right.mappings) ==> ByTarget(g.right.mappings)[f] in g.right.fields
    {
      if f in Targets(g.left.mappings) {
        var i :| 0 <= i < |g.left.mappings| && Targets(g.left.mappings)[i] == f;
        assert g.left.mappings[i] in g.left.mappings;
      }
      if f in Targets(g.right.mappings) {
        var i :| 0 <= i < |g.right.mappings| && Targets(g.right.mappings)[i] == f;
        assert g.right.mappings[i] in g.right.mappings;
      }
    }
  }

  lemma PublishedPairOfSelected(g: KeyedJoinGraph, p: (Row, Row))
    requires TotalJoin(g)
    ensures var left, right := ByTarget(g.left.mappings), ByTarget(g.right.mappings);
      var last := ByTarget(g.transformToTarget);
      var f, h := Pick(Identity(g.left.fields), g.left.fields), Pick(Identity(g.right.fields), g.right.fields);
      Pick(last, g.targetFields)(PickPair(left, right, g.transformFields)(PairMap(f, h)(p))) == PublishedPair(g)(p)
  {
    JoinLookup(g);
    TotalLookup(g.transformToTarget, g.transformFields, g.targetFields);
  }

  /** Joining any arrangement of the two exchanged sources and projecting twice publishes the meaning, as a bag. */
  lemma JoinStages(
    g: KeyedJoinGraph, left: seq<Row>, right: seq<Row>, leftIn: seq<Row>, rightIn: seq<Row>, joined: seq<(Row, Row)>)
    requires TotalJoin(g)
    requires multiset(leftIn) == multiset(Map(Pick(Identity(g.left.fields), g.left.fields), left))
    requires multiset(rightIn) == multiset(Map(Pick(Identity(g.right.fields), g.right.fields), right))
    requires multiset(joined) == multiset(JoinRows(leftIn, rightIn, g.left.joinKey, g.right.joinKey))
    ensures multiset(Map(Pick(ByTarget(g.transformToTarget), g.targetFields),
      Map(PickPair(ByTarget(g.left.mappings), ByTarget(g.right.mappings), g.transformFields), joined))) ==
      multiset(JoinMeaning(g, left, right))
  {
    var f, h := Pick(Identity(g.left.fields), g.left.fields), Pick(Identity(g.right.fields), g.right.fields);
    var pair := PickPair(ByTarget(g.left.mappings), ByTarget(g.right.mappings), g.transformFields);
    var last := Pick(ByTarget(g.transformToTarget), g.targetFields);
    JoinPermuted(leftIn, rightIn, Map(f, left), Map(h, right), g.left.joinKey, g.right.joinKey);
    JoinMapped(f, h, left, right, g.left.joinKey, g.right.joinKey);
    var whole := JoinRows(left, right, g.left.joinKey, g.right.joinKey);
    MapPermuted(pair, joined, Map(PairMap(f, h), whole));
    MapPermuted(last, Map(pair, joined), Map(pair, Map(PairMap(f, h), whole)));
    forall i | 0 <= i < |whole|
      ensures last(pair(PairMap(f, h)(whole[i]))) == PublishedPair(g)(whole[i])
    {
      PublishedPairOfSelected(g, whole[i]);
    }
    assert Map(last, Map(pair, Map(PairMap(f, h), whole))) == JoinMeaning(g, left, right);
  }
}
