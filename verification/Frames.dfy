/** Distributed frames as partitioned bags of rows: projection, equality join and hash co-partitioning. */
module Frames {
  import opened Wrappers
  import opened Bags
  import opened GraphConfiguration

  datatype Value = VNull | VBool(flag: bool) | VInt(number: int) | VText(text: string)

  type Row = map<string, Value>

  /** Column names, known even without rows, and the rows of each partition. */
  datatype Frame = Frame(columns: seq<string>, parts: seq<seq<Row>>)

  function Rows(f: Frame): seq<Row> {
    Flatten(f.parts)
  }

  function Bag(f: Frame): multiset<Row> {
    multiset(Rows(f))
  }

  function Cell(r: Row, column: string): Value {
    if column in r then r[column] else VNull
  }

  // ---------------------------------------------------------------- projection

  /** The source column of each target; a repeated target keeps its last source. */
  function ByTarget(ms: seq<DirectMapping>): map<string, string> {
    if ms == [] then map[] else ByTarget(ms[..|ms| - 1])[ms[|ms| - 1].target := ms[|ms| - 1].source]
  }

  lemma {:induction false} ByTargetKeys(ms: seq<DirectMapping>)
    ensures forall f :: f in ByTarget(ms) <==> f in Targets(ms)
  {
    if ms != [] {
      var n := |ms| - 1;
      ByTargetKeys(ms[..n]);
      assert Targets(ms) == Targets(ms[..n]) + [ms[n].target];
    }
  }

  lemma {:induction false} ByTargetValues(ms: seq<DirectMapping>)
    requires Distinct(Targets(ms))
    ensures forall m :: m in ms ==> m.target in ByTarget(ms) && ByTarget(ms)[m.target] == m.source
  {
    if ms != [] {
      var n := |ms| - 1;
      assert Targets(ms) == Targets(ms[..n]) + [ms[n].target];
      forall i, j | 0 <= i < j < n
        ensures Targets(ms[..n])[i] != Targets(ms[..n])[j]
      {
        assert Targets(ms)[i] != Targets(ms)[j];
      }
      ByTargetValues(ms[..n]);
      forall m | m in ms
        ensures m.target in ByTarget(ms) && ByTarget(ms)[m.target] == m.source
      {
        var i :| 0 <= i < |ms| && ms[i] == m;
        if i < n {
          assert Targets(ms)[i] != Targets(ms)[n];
          assert m in ms[..n];
        }
      }
    }
  }

  /** Renaming selection on one row: each field takes the value of its source column. */
  function Pick(sources: map<string, string>, fields: seq<string>): Row -> Row {
    r => map f | f in fields :: if f in sources then Cell(r, sources[f]) else VNull
  }

  /** Renaming selection on a frame: nothing when a field has no mapping or a source column does not exist. */
  function ProjectFrame(frame: Frame, ms: seq<DirectMapping>, fields: seq<string>): Option<Frame> {
    var sources := ByTarget(ms);
    if exists f :: f in fields && (f !in sources || sources[f] !in frame.columns) then None
    else Some(Frame(fields, Map(part => Map(Pick(sources, fields), part), frame.parts)))
  }

  lemma ProjectFrameRows(frame: Frame, ms: seq<DirectMapping>, fields: seq<string>)
    requires ProjectFrame(frame, ms, fields).Some?
    ensures Rows(ProjectFrame(frame, ms, fields).value) == Map(Pick(ByTarget(ms), fields), Rows(frame))
  {
    FlattenMap(Pick(ByTarget(ms), fields), frame.parts);
    assert Map(part => Map(Pick(ByTarget(ms), fields), part), frame.parts) ==
      Map(s => Map(Pick(ByTarget(ms), fields), s), frame.parts);
  }

  /** The rename that two renames in sequence amount to. */
  function Composed(first: map<string, string>, second: map<string, string>): map<string, string> {
    map f | f in second && second[f] in first :: first[second[f]]
  }

  /** Two projections in a row are the one by the composed rename. */
  lemma PickComposed(
    first: map<string, string>, middle: seq<string>, second: map<string, string>, fields: seq<string>, r: Row)
    requires forall f :: f in fields ==> f in second && second[f] in middle && second[f] in first
    ensures Pick(second, fields)(Pick(first, middle)(r)) == Pick(Composed(first, second), fields)(r)
  {
  }

  lemma MapPickComposed(
    first: map<string, string>, middle: seq<string>, second: map<string, string>, fields: seq<string>, rows: seq<Row>)
    requires forall f :: f in fields ==> f in second && second[f] in middle && second[f] in first
    ensures Map(Pick(second, fields), Map(Pick(first, middle), rows)) ==
      Map(Pick(Composed(first, second), fields), rows)
  {
    forall i | 0 <= i < |rows|
      ensures Pick(second, fields)(Pick(first, middle)(rows[i])) == Pick(Composed(first, second), fields)(rows[i])
    {
      PickComposed(first, middle, second, fields, rows[i]);
    }
  }

  // ---------------------------------------------------------------- inner equality join

  /** A null key matches nothing, not even another null. */
  predicate Matches(l: Row, r: Row, leftKey: string, rightKey: string) {
    Cell(l, leftKey) != VNull && Cell(l, leftKey) == Cell(r, rightKey)
  }

  function JoinOne(l: Row, right: seq<Row>, leftKey: string, rightKey: string): seq<(Row, Row)> {
    if right == [] then [] else
      (if Matches(l, right[0], leftKey, rightKey) then [(l, right[0])] else []) +
      JoinOne(l, right[1..], leftKey, rightKey)
  }

  /** The rows of the inner join, as matching pairs. */
  function JoinRows(left: seq<Row>, right: seq<Row>, leftKey: string, rightKey: string): seq<(Row, Row)> {
    if left == [] then [] else
      JoinOne(left[0], right, leftKey, rightKey) + JoinRows(left[1..], right, leftKey, rightKey)
  }

  lemma {:induction false} JoinOneCount(l: Row, right: seq<Row>, leftKey: string, rightKey: string, x: Row, y: Row)
    ensures multiset(JoinOne(l, right, leftKey, rightKey))[(x, y)] ==
      if x == l && Matches(x, y, leftKey, rightKey) then multiset(right)[y] else 0
  {
    if right != [] {
      JoinOneCount(l, right[1..], leftKey, rightKey, x, y);
      assert right == [right[0]] + right[1..];
    }
  }

  lemma OneMore(a: nat, b: nat)
    ensures (a + 1) * b == a * b + b
  {
  }

  lemma JoinRowsCount(left: seq<Row>, right: seq<Row>, leftKey: string, rightKey: string, p: (Row, Row))
    requires left != []
    ensures multiset(JoinRows(left, right, leftKey, rightKey))[p] ==
      multiset(JoinOne(left[0], right, leftKey, rightKey))[p] +
      multiset(JoinRows(left[1..], right, leftKey, rightKey))[p]
  {
  }

  /** The relational meaning of the join: a matching pair occurs as often as its two rows do, jointly; others never. */
  lemma {:induction false} JoinCount(left: seq<Row>, right: seq<Row>, leftKey: string, rightKey: string, x: Row, y: Row)
    ensures multiset(JoinRows(left, right, leftKey, rightKey))[(x, y)] ==
      if Matches(x, y, leftKey, rightKey) then multiset(left)[x] * multiset(right)[y] else 0
  {
    if left != [] {
      JoinCount(left[1..], right, leftKey, rightKey, x, y);
      JoinOneCount(left[0], right, leftKey, rightKey, x, y);
      HeadCount(left, x);
      OneMore(multiset(left[1..])[x], multiset(right)[y]);
      JoinRowsCount(left, right, leftKey, rightKey, (x, y));
    }
  }

  /** The join depends only on the bags of its inputs. */
  lemma JoinPermuted(
    left: seq<Row>, right: seq<Row>, left': seq<Row>, right': seq<Row>, leftKey: string, rightKey: string)
    requires multiset(left) == multiset(left') && multiset(right) == multiset(right')
    ensures multiset(JoinRows(left, right, leftKey, rightKey)) == multiset(JoinRows(left', right', leftKey, rightKey))
  {
    forall x, y
      ensures multiset(JoinRows(left, right, leftKey, rightKey))[(x, y)] ==
        multiset(JoinRows(left', right', leftKey, rightKey))[(x, y)]
    {
      JoinCount(left, right, leftKey, rightKey, x, y);
      JoinCount(left', right', leftKey, rightKey, x, y);
    }
    EqualOnPairs(JoinRows(left, right, leftKey, rightKey), JoinRows(left', right', leftKey, rightKey));
  }

  lemma EqualOnPairs(a: seq<(Row, Row)>, b: seq<(Row, Row)>)
    requires forall x, y :: multiset(a)[(x, y)] == multiset(b)[(x, y)]
    ensures multiset(a) == multiset(b)
  {
    forall p: (Row, Row)
      ensures multiset(a)[p] == multiset(b)[p]
    {
      assert p == (p.0, p.1);
    }
  }

  // ---------------------------------------------------------------- hash co-partitioning

  /** Every row sits in the partition its key hashes to. */
  ghost predicate HashPartitioned(parts: seq<seq<Row>>, key: string, hash: Value -> nat) {
    forall i, r :: 0 <= i < |parts| && r in parts[i] ==> hash(Cell(r, key)) % |parts| == i
  }

  /** Joining partition i of one side with partition i of the other, and concatenating. */
  function LocalJoins(left: seq<seq<Row>>, right: seq<seq<Row>>, leftKey: string, rightKey: string):
    (r: seq<seq<(Row, Row)>>)
    requires |left| == |right|
    ensures |r| == |left|
  {
    seq(|left|, i requires 0 <= i < |left| => JoinRows(left[i], right[i], leftKey, rightKey))
  }

  /** Hashing both sides by one function of the key makes the partition-local joins together the global join. */
  lemma CoPartitionedJoin(
    left: seq<seq<Row>>, right: seq<seq<Row>>, leftKey: string, rightKey: string, hash: Value -> nat)
    requires |left| == |right| > 0
    requires HashPartitioned(left, leftKey, hash) && HashPartitioned(right, rightKey, hash)
    ensures multiset(Flatten(LocalJoins(left, right, leftKey, rightKey))) ==
      multiset(JoinRows(Flatten(left), Flatten(right), leftKey, rightKey))
  {
    forall x, y
      ensures multiset(Flatten(LocalJoins(left, right, leftKey, rightKey)))[(x, y)] ==
        multiset(JoinRows(Flatten(left), Flatten(right), leftKey, rightKey))[(x, y)]
    {
      LocalJoinsCount(left, right, leftKey, rightKey, hash, x, y);
      JoinCount(Flatten(left), Flatten(right), leftKey, rightKey, x, y);
    }
    EqualOnPairs(
      Flatten(LocalJoins(left, right, leftKey, rightKey)), JoinRows(Flatten(left), Flatten(right), leftKey, rightKey));
  }

  lemma LocalJoinsCount(
    left: seq<seq<Row>>, right: seq<seq<Row>>, leftKey: string, rightKey: string, hash: Value -> nat, x: Row, y: Row)
    requires |left| == |right| > 0
    requires HashPartitioned(left, leftKey, hash) && HashPartitioned(right, rightKey, hash)
    ensures multiset(Flatten(LocalJoins(left, right, leftKey, rightKey)))[(x, y)] ==
      if Matches(x, y, leftKey, rightKey) then multiset(Flatten(left))[x] * multiset(Flatten(right))[y] else 0
  {
    var joins := LocalJoins(left, right, leftKey, rightKey);
    var p := hash(Cell(x, leftKey)) % |left|;
    forall i | 0 <= i < |joins| && (i != p || !Matches(x, y, leftKey, rightKey))
      ensures (x, y) !in joins[i]
    {
      JoinCount(left[i], right[i], leftKey, rightKey, x, y);
      assert (x, y) in joins[i] <==> multiset(joins[i])[(x, y)] > 0;
      if i != p {
        assert x !in left[i];
        assert multiset(left[i])[x] == 0;
      }
    }
    ConfinedCount(joins, p, (x, y));
    JoinCount(left[p], right[p], leftKey, rightKey, x, y);
    if Matches(x, y, leftKey, rightKey) {
      ConfinedCount(left, p, x);
      assert hash(Cell(y, rightKey)) % |right| == p;
      ConfinedCount(right, p, y);
    }
  }

  function Empties<T>(n: nat): seq<seq<T>> {
    seq(n, _ => [])
  }

  /** Spreading rows by hash: one bag-preserving partitioning that meets the co-partitioning condition. */
  function HashSpread(rows: seq<Row>, key: string, hash: Value -> nat, n: nat): (parts: seq<seq<Row>>)
    requires n > 0
    ensures |parts| == n
  {
    if rows == [] then Empties(n)
    else
      var parts := HashSpread(rows[1..], key, hash, n);
      var p := hash(Cell(rows[0], key)) % n;
      parts[p := [rows[0]] + parts[p]]
  }

  lemma {:induction false} FlattenUpdate<T>(parts: seq<seq<T>>, p: nat, x: T)
    requires p < |parts|
    ensures multiset(Flatten(parts[p := [x] + parts[p]])) == multiset(Flatten(parts)) + multiset{x}
    decreases |parts|
  {
    var grown := parts[p := [x] + parts[p]];
    if p == 0 {
      assert grown[1..] == parts[1..];
    } else {
      FlattenUpdate(parts[1..], p - 1, x);
      assert grown[1..] == parts[1..][p - 1 := [x] + parts[1..][p - 1]];
    }
  }

  lemma {:induction false} FlattenEmpty<T>(n: nat)
    ensures Flatten(Empties<T>(n)) == []
  {
    if n > 0 {
      FlattenEmpty<T>(n - 1);
      assert Empties<T>(n)[1..] == Empties<T>(n - 1);
    }
  }

  lemma {:induction false} HashSpreadCorrect(rows: seq<Row>, key: string, hash: Value -> nat, n: nat)
    requires n > 0
    ensures HashPartitioned(HashSpread(rows, key, hash, n), key, hash)
    ensures multiset(Flatten(HashSpread(rows, key, hash, n))) == multiset(rows)
  {
    if rows == [] {
      FlattenEmpty<Row>(n);
    } else {
      HashSpreadCorrect(rows[1..], key, hash, n);
      HashSpreadRow(rows, key, hash, n);
    }
  }

  lemma HashSpreadRow(rows: seq<Row>, key: string, hash: Value -> nat, n: nat)
    requires n > 0 && rows != []
    requires HashPartitioned(HashSpread(rows[1..], key, hash, n), key, hash)
    requires multiset(Flatten(HashSpread(rows[1..], key, hash, n))) == multiset(rows[1..])
    ensures HashPartitioned(HashSpread(rows, key, hash, n), key, hash)
    ensures multiset(Flatten(HashSpread(rows, key, hash, n))) == multiset(rows)
  {
    var parts := HashSpread(rows[1..], key, hash, n);
    FlattenUpdate(parts, hash(Cell(rows[0], key)) % n, rows[0]);
    assert rows == [rows[0]] + rows[1..];
  }

  // ---------------------------------------------------------------- size of a join

  function KeyCount(rows: seq<Row>, key: string, v: Value): nat {
    if rows == [] then 0 else (if Cell(rows[0], key) == v then 1 else 0) + KeyCount(rows[1..], key, v)
  }

  /** The sum over the given key values of left occurrences times right occurrences. */
  function KeyProducts(vs: seq<Value>, left: seq<Row>, right: seq<Row>, leftKey: string, rightKey: string): nat {
    if vs == [] then 0 else
      KeyCount(left, leftKey, vs[0]) * KeyCount(right, rightKey, vs[0]) +
      KeyProducts(vs[1..], left, right, leftKey, rightKey)
  }

  lemma {:induction false} JoinOneSize(l: Row, right: seq<Row>, leftKey: string, rightKey: string)
    ensures |JoinOne(l, right, leftKey, rightKey)| ==
      if Cell(l, leftKey) == VNull then 0 else KeyCount(right, rightKey, Cell(l, leftKey))
  {
    if right != [] {
      JoinOneSize(l, right[1..], leftKey, rightKey);
    }
  }

  lemma {:induction false} KeyProductsCons(
    vs: seq<Value>, l: Row, left: seq<Row>, right: seq<Row>, leftKey: string, rightKey: string)
    requires Distinct(vs)
    ensures KeyProducts(vs, [l] + left, right, leftKey, rightKey) ==
      KeyProducts(vs, left, right, leftKey, rightKey) +
      if Cell(l, leftKey) in vs then KeyCount(right, rightKey, Cell(l, leftKey)) else 0
  {
    if vs != [] {
      assert ([l] + left)[1..] == left;
      assert forall i :: 1 <= i < |vs| ==> vs[i] != vs[0];
      KeyProductsCons(vs[1..], l, left, right, leftKey, rightKey);
      var a, b := KeyCount(left, leftKey, vs[0]), KeyCount(right, rightKey, vs[0]);
      assert (1 + a) * b == b + a * b;
      assert Cell(l, leftKey) in vs <==> Cell(l, leftKey) == vs[0] || Cell(l, leftKey) in vs[1..];
    }
  }

  /** The joined row count is the sum over non-null keys of left count times right count. */
  lemma {:induction false} JoinSize(vs: seq<Value>, left: seq<Row>, right: seq<Row>, leftKey: string, rightKey: string)
    requires Distinct(vs) && VNull !in vs
    requires forall l :: l in left && Cell(l, leftKey) != VNull ==> Cell(l, leftKey) in vs
    ensures |JoinRows(left, right, leftKey, rightKey)| == KeyProducts(vs, left, right, leftKey, rightKey)
    decreases left
  {
    if left == [] {
      NoProducts(vs, right, leftKey, rightKey);
    } else {
      JoinSize(vs, left[1..], right, leftKey, rightKey);
      JoinOneSize(left[0], right, leftKey, rightKey);
      KeyProductsCons(vs, left[0], left[1..], right, leftKey, rightKey);
      assert left == [left[0]] + left[1..];
      assert left[0] in left;
    }
  }

  lemma {:induction false} NoProducts(vs: seq<Value>, right: seq<Row>, leftKey: string, rightKey: string)
    ensures KeyProducts(vs, [], right, leftKey, rightKey) == 0
  {
    if vs != [] {
      NoProducts(vs[1..], right, leftKey, rightKey);
    }
  }
}
