/** The incremental benchmark: seed and delta streams, merged in batches, give the counts both oracles demand. */
module IncrementalOracle {
  import opened Text
  import opened Wrappers
  import opened Bags
  import opened PaddedDecimals
  import opened MergeWriter

  datatype Config = Config(seedRows: nat, deltaRows: nat, payloadBytes: nat)

  /** What the configurations admit, within twelve-digit ids. */
  predicate Admissible(c: Config) {
    0 < c.seedRows && 0 < c.deltaRows <= c.seedRows && c.seedRows + c.deltaRows <= ID_BOUND
  }

  function Repeat(ch: char, n: nat): (s: string)
    ensures |s| == n
  {
    seq(n, _ => ch)
  }

  function SeedRecord(c: Config, index: nat): Record {
    Record(Id(index), Repeat('s', c.payloadBytes), Some(1))
  }

  function DeltaRecord(c: Config, index: nat): Record {
    Record(Id(index), Repeat('d', c.payloadBytes), Some(2))
  }

  function SeedRecords(c: Config): seq<Record> {
    seq(c.seedRows, i requires 0 <= i < c.seedRows => SeedRecord(c, i))
  }

  /** The first half of the delta updates the lowest ids; the rest follow the seed. */
  function DeltaIndex(c: Config, k: nat): nat {
    if k < c.deltaRows / 2 then k else c.seedRows + (k - c.deltaRows / 2)
  }

  function DeltaRecords(c: Config): seq<Record> {
    seq(c.deltaRows, k requires 0 <= k < c.deltaRows => DeltaRecord(c, DeltaIndex(c, k)))
  }

  function Inserted(c: Config): nat {
    c.deltaRows - c.deltaRows / 2
  }

  function Seeded(c: Config): Table {
    UpsertedAll(map[], SeedRecords(c), true)
  }

  function Final(c: Config): Table {
    UpsertedAll(Seeded(c), DeltaRecords(c), true)
  }

  // ---------------------------------------------------------------- the tables

  lemma SeedDistinct(c: Config)
    requires Admissible(c)
    ensures DistinctIds(SeedRecords(c)) && Ids(SeedRecords(c)) == IdRange(0, c.seedRows)
  {
    forall i, j | 0 <= i < j < c.seedRows
      ensures SeedRecords(c)[i].id != SeedRecords(c)[j].id
    {
      IdOrder(i, j);
    }
    forall i: nat | i < c.seedRows
      ensures Id(i) in Ids(SeedRecords(c))
    {
      assert SeedRecords(c)[i] in SeedRecords(c);
    }
  }

  lemma DeltaDistinct(c: Config)
    requires Admissible(c)
    ensures DistinctIds(DeltaRecords(c))
    ensures Ids(DeltaRecords(c)) == IdRange(0, c.deltaRows / 2) + IdRange(c.seedRows, c.seedRows + Inserted(c))
  {
    var ds := DeltaRecords(c);
    forall i, j | 0 <= i < j < c.deltaRows
      ensures ds[i].id != ds[j].id
    {
      IdOrder(DeltaIndex(c, i), DeltaIndex(c, j));
    }
    forall i: nat | i < c.deltaRows / 2
      ensures Id(i) in Ids(ds)
    {
      assert ds[i] in ds && DeltaIndex(c, i) == i;
    }
    forall i: nat | c.seedRows <= i < c.seedRows + Inserted(c)
      ensures Id(i) in Ids(ds)
    {
      var k := i - c.seedRows + c.deltaRows / 2;
      assert ds[k] in ds && DeltaIndex(c, k) == i;
    }
  }

  /** After the seed: exactly the seed records. */
  lemma SeededTable(c: Config)
    requires Admissible(c)
    ensures forall i: nat :: i < c.seedRows ==> At(Seeded(c), Id(i)) == Some(SeedRecord(c, i))
    ensures forall id :: id !in IdRange(0, c.seedRows) ==> At(Seeded(c), id) == None
  {
    SeedDistinct(c);
    DistinctUpserts(map[], SeedRecords(c), true);
    forall i: nat | i < c.seedRows
      ensures At(Seeded(c), Id(i)) == Some(SeedRecord(c, i))
    {
      assert SeedRecords(c)[i] in SeedRecords(c);
      assert Stores(Seeded(c), SeedRecords(c)[i]);
    }
  }

  lemma DeltaAccepted(c: Config)
    requires Admissible(c)
    ensures forall r :: r in DeltaRecords(c) ==> Accepts(Seeded(c), r, true)
  {
    SeededTable(c);
    forall r | r in DeltaRecords(c)
      ensures Accepts(Seeded(c), r, true)
    {
      if r.id in IdRange(0, c.seedRows) {
        var i: nat :| 0 <= i < c.seedRows && Id(i) == r.id;
        assert At(Seeded(c), Id(i)) == Some(SeedRecord(c, i));
      } else {
        assert At(Seeded(c), r.id) == None;
      }
    }
  }

  /** What the finished table holds at the id of any index. */
  function Expected(c: Config, index: nat): Option<Record> {
    if index < c.deltaRows / 2 then Some(DeltaRecord(c, index))
    else if index < c.seedRows then Some(SeedRecord(c, index))
    else if index < c.seedRows + Inserted(c) then Some(DeltaRecord(c, index))
    else None
  }

  /** After the delta: the lowest half updated, the rest of the seed unchanged, the other half inserted. */
  lemma FinalTable(c: Config)
    requires Admissible(c)
    ensures forall i: nat :: i < c.seedRows + Inserted(c) ==> At(Final(c), Id(i)) == Expected(c, i)
    ensures Final(c).Keys == IdRange(0, c.seedRows + Inserted(c))
  {
    SeededTable(c);
    DeltaDistinct(c);
    DeltaAccepted(c);
    DistinctUpserts(Seeded(c), DeltaRecords(c), true);
    forall i: nat | i < c.seedRows + Inserted(c)
      ensures At(Final(c), Id(i)) == Expected(c, i)
    {
      FinalAt(c, i);
    }
    var all := IdRange(0, c.seedRows + Inserted(c));
    assert forall id :: id in IdRange(0, c.seedRows) || id in Ids(DeltaRecords(c)) ==> id in all;
    forall id
      ensures id in Final(c) <==> id in all
    {
      if id in all {
        var i: nat :| 0 <= i < c.seedRows + Inserted(c) && Id(i) == id;
        assert At(Final(c), Id(i)) == Expected(c, i);
      } else {
        assert At(Final(c), id) == At(Seeded(c), id) == None;
      }
    }
  }

  lemma FinalAt(c: Config, i: nat)
    requires Admissible(c) && i < c.seedRows + Inserted(c)
    requires forall r :: r in DeltaRecords(c) ==> Stores(Final(c), r)
    requires forall id :: id !in Ids(DeltaRecords(c)) ==> At(Final(c), id) == At(Seeded(c), id)
    requires forall j: nat :: j < c.seedRows ==> At(Seeded(c), Id(j)) == Some(SeedRecord(c, j))
    requires Ids(DeltaRecords(c)) == IdRange(0, c.deltaRows / 2) + IdRange(c.seedRows, c.seedRows + Inserted(c))
    ensures At(Final(c), Id(i)) == Expected(c, i)
  {
    if i < c.deltaRows / 2 || c.seedRows <= i {
      DeltaContains(c, i);
    } else {
      InRange(i, 0, c.deltaRows / 2);
      InRange(i, c.seedRows, c.seedRows + Inserted(c));
      assert Id(i) !in Ids(DeltaRecords(c));
    }
  }

  lemma DeltaContains(c: Config, i: nat)
    requires Admissible(c) && (i < c.deltaRows / 2 || c.seedRows <= i < c.seedRows + Inserted(c))
    ensures DeltaRecord(c, i) in DeltaRecords(c)
  {
    var u := c.deltaRows / 2;
    var k := if i < u then i else i - c.seedRows + u;
    assert DeltaRecords(c)[k] == DeltaRecord(c, i);
  }

  // ---------------------------------------------------------------- the oracles

  /** The number of rows that satisfy a condition. */
  function CountIf(t: Table, p: Record -> bool): nat {
    |set id | id in t && p(t[id])|
  }

  lemma InRange(i: nat, lo: nat, hi: nat)
    requires i < ID_BOUND && lo <= hi <= ID_BOUND
    ensures Id(i) in IdRange(lo, hi) <==> lo <= i < hi
  {
    if Id(i) in IdRange(lo, hi) {
      var j: nat :| lo <= j < hi && Id(j) == Id(i);
      IdOrder(i, j);
    }
  }

  /** Counting a condition that holds on exactly the given ids. */
  lemma CountSet(c: Config, p: Record -> bool, ids: set<string>)
    requires Admissible(c) && ids <= IdRange(0, c.seedRows + Inserted(c))
    requires forall i: nat :: i < c.seedRows + Inserted(c) ==> (p(Expected(c, i).value) <==> Id(i) in ids)
    ensures CountIf(Final(c), p) == |ids|
  {
    FinalTable(c);
    var t := Final(c);
    forall id | id in t
      ensures p(t[id]) <==> id in ids
    {
      var i: nat :| 0 <= i < c.seedRows + Inserted(c) && Id(i) == id;
      assert At(t, Id(i)) == Expected(c, i);
    }
    assert (set id | id in t && p(t[id])) == ids;
  }

  /** A count over a range of ids on which, and only on which, the condition holds. */
  lemma CountRange(c: Config, p: Record -> bool, lo: nat, hi: nat)
    requires Admissible(c) && lo <= hi <= c.seedRows + Inserted(c)
    requires forall i: nat :: i < c.seedRows + Inserted(c) ==> (p(Expected(c, i).value) <==> lo <= i < hi)
    ensures CountIf(Final(c), p) == hi - lo
  {
    forall i: nat | i < c.seedRows + Inserted(c)
      ensures p(Expected(c, i).value) <==> Id(i) in IdRange(lo, hi)
    {
      InRange(i, lo, hi);
    }
    CountSet(c, p, IdRange(lo, hi));
    IdRangeSize(lo, hi);
  }

  datatype Observed = Observed(rows: nat, updated: nat, inserted: nat, deltaPayload: nat, kept: int, invalid: nat)

  function NewBelow(boundary: string): Record -> bool {
    (r: Record) => r.cursor == Some(2) && Less(r.id, boundary)
  }

  function NewFrom(boundary: string): Record -> bool {
    (r: Record) => r.cursor == Some(2) && Leq(boundary, r.id)
  }

  function With(cursor: int, payload: string): Record -> bool {
    (r: Record) => r.cursor == Some(cursor) && r.payload == payload
  }

  function Sized(cursor: int, bytes: nat): Record -> bool {
    (r: Record) => r.cursor == Some(cursor) && |r.payload| == bytes
  }

  function Invalid(): Record -> bool {
    (r: Record) => r.cursor.Some? && r.cursor.value != 1 && r.cursor.value != 2
  }

  /** The BigQuery verification query. */
  function BigQueryObserved(c: Config, t: Table): Observed {
    Observed(
      |t|, CountIf(t, NewBelow(Id(c.seedRows))), CountIf(t, NewFrom(Id(c.seedRows))),
      CountIf(t, With(2, Repeat('d', c.payloadBytes))), CountIf(t, With(1, Repeat('s', c.payloadBytes))),
      CountIf(t, Invalid()))
  }

  /** The tuple the BigQuery oracle expects; its final row count adds half the delta, rounded down, to the seed. */
  function BigQueryExpected(c: Config): Observed {
    var updated := c.deltaRows / 2;
    Observed(c.seedRows + c.deltaRows / 2, updated, c.deltaRows - updated, c.deltaRows, c.seedRows - updated, 0)
  }

  lemma Boundary(c: Config, i: nat)
    requires Admissible(c) && i < c.seedRows + Inserted(c)
    ensures Expected(c, i).value.id == Id(i)
    ensures Less(Id(i), Id(c.seedRows)) <==> i < c.seedRows
    ensures Leq(Id(c.seedRows), Id(i)) <==> c.seedRows <= i
    ensures Less(Id(i), Id(c.deltaRows / 2)) <==> i < c.deltaRows / 2
  {
    IdOrder(i, c.seedRows);
    IdOrder(c.seedRows, i);
    IdOrder(i, c.deltaRows / 2);
  }

  /** Updated rows: new cursors below either oracle's boundary. */
  lemma CountUpdated(c: Config, boundary: string)
    requires Admissible(c) && (boundary == Id(c.seedRows) || boundary == Id(c.deltaRows / 2))
    ensures CountIf(Final(c), NewBelow(boundary)) == c.deltaRows / 2
  {
    forall i: nat | i < c.seedRows + Inserted(c)
      ensures NewBelow(boundary)(Expected(c, i).value) <==> 0 <= i < c.deltaRows / 2
    {
      Boundary(c, i);
    }
    CountRange(c, NewBelow(boundary), 0, c.deltaRows / 2);
  }

  lemma CountInserted(c: Config)
    requires Admissible(c)
    ensures CountIf(Final(c), NewFrom(Id(c.seedRows))) == Inserted(c)
  {
    forall i: nat | i < c.seedRows + Inserted(c)
      ensures NewFrom(Id(c.seedRows))(Expected(c, i).value) <==> c.seedRows <= i < c.seedRows + Inserted(c)
    {
      Boundary(c, i);
    }
    CountRange(c, NewFrom(Id(c.seedRows)), c.seedRows, c.seedRows + Inserted(c));
  }

  lemma CountKept(c: Config)
    requires Admissible(c)
    ensures CountIf(Final(c), With(1, Repeat('s', c.payloadBytes))) == c.seedRows - c.deltaRows / 2
    ensures CountIf(Final(c), Invalid()) == 0
  {
    CountRange(c, With(1, Repeat('s', c.payloadBytes)), c.deltaRows / 2, c.seedRows);
    CountRange(c, Invalid(), 0, 0);
  }

  /** The two separate ranges of delta ids, counted together. */
  lemma CountDelta(c: Config, p: Record -> bool)
    requires Admissible(c)
    requires forall i: nat :: i < c.seedRows + Inserted(c) ==>
      (p(Expected(c, i).value) <==> i < c.deltaRows / 2 || c.seedRows <= i)
    ensures CountIf(Final(c), p) == c.deltaRows
  {
    forall i: nat | i < c.seedRows + Inserted(c)
      ensures p(Expected(c, i).value) <==> Id(i) in DeltaIds(c)
    {
      InRange(i, 0, c.deltaRows / 2);
      InRange(i, c.seedRows, c.seedRows + Inserted(c));
    }
    DeltaIdsSize(c);
    CountSet(c, p, DeltaIds(c));
  }

  function DeltaIds(c: Config): set<string> {
    IdRange(0, c.deltaRows / 2) + IdRange(c.seedRows, c.seedRows + Inserted(c))
  }

  lemma DeltaIdsSize(c: Config)
    requires Admissible(c)
    ensures |DeltaIds(c)| == c.deltaRows && DeltaIds(c) <= IdRange(0, c.seedRows + Inserted(c))
  {
    TwoRanges(c.deltaRows / 2, c.seedRows, c.seedRows + Inserted(c));
  }

  lemma TwoRanges(end: nat, lo: nat, hi: nat)
    requires end <= lo <= hi <= ID_BOUND
    ensures |IdRange(0, end) + IdRange(lo, hi)| == end + (hi - lo)
    ensures IdRange(0, end) + IdRange(lo, hi) <= IdRange(0, hi)
  {
    RangesApart(0, end, lo, hi);
    IdRangeSize(0, end);
    IdRangeSize(lo, hi);
    RangeWithin(0, end, hi);
    RangeWithin(lo, hi, hi);
    UnionSize(IdRange(0, end), IdRange(lo, hi));
  }

  lemma UnionSize(a: set<string>, b: set<string>)
    requires a !! b
    ensures |a + b| == |a| + |b|
  {
  }

  lemma RangeWithin(lo: nat, hi: nat, end: nat)
    requires lo <= hi <= end <= ID_BOUND
    ensures IdRange(lo, hi) <= IdRange(0, end)
  {
  }

  lemma CountRows(c: Config)
    requires Admissible(c)
    ensures |Final(c)| == c.seedRows + Inserted(c)
  {
    FinalTable(c);
    IdRangeSize(0, c.seedRows + Inserted(c));
    assert |Final(c)| == |Final(c).Keys|;
  }

  lemma RangesApart(a: nat, b: nat, lo: nat, hi: nat)
    requires a <= b <= lo <= hi <= ID_BOUND
    ensures IdRange(a, b) !! IdRange(lo, hi)
  {
    forall i: nat, j: nat | a <= i < b && lo <= j < hi
      ensures Id(i) != Id(j)
    {
      IdOrder(i, j);
    }
  }

  /** The BigQuery oracle accepts the finished table exactly when the delta is even; the configuration insists it is. */
  lemma BigQueryOracleIffEven(c: Config)
    requires Admissible(c)
    ensures BigQueryObserved(c, Final(c)) == BigQueryExpected(c) <==> c.deltaRows % 2 == 0
  {
    CountRows(c);
    CountUpdated(c, Id(c.seedRows));
    CountInserted(c);
    CountDelta(c, With(2, Repeat('d', c.payloadBytes)));
    CountKept(c);
  }

  datatype Counted = Counted(rows: nat, updated: nat, inserted: nat, shaped: nat)

  /** The PostgreSQL verification query, whose updated rows lie below the id of the update count. */
  function PostgresObserved(c: Config, t: Table): Counted {
    Counted(
      |t|, CountIf(t, NewBelow(Id(c.deltaRows / 2))), CountIf(t, NewFrom(Id(c.seedRows))),
      CountIf(t, Sized(2, c.payloadBytes)))
  }

  /** The PostgreSQL oracle, which derives the final row count from the inserted rows, needs no parity. */
  lemma PostgresOracle(c: Config)
    requires Admissible(c)
    ensures PostgresObserved(c, Final(c)) ==
      Counted(c.seedRows + Inserted(c), c.deltaRows / 2, Inserted(c), c.deltaRows / 2 + Inserted(c))
  {
    CountRows(c);
    CountUpdated(c, Id(c.deltaRows / 2));
    CountInserted(c);
    CountDelta(c, Sized(2, c.payloadBytes));
  }

  // ---------------------------------------------------------------- the runs

  /** A stream of distinct, acceptable records with cursors is written in full, each record counted once. */
  method WriteStream(writer: Writer, records: seq<Record>, batchRows: nat) returns (affected: nat)
    requires batchRows > 0 && writer.guarded && Admitted(records, true) && DistinctIds(records)
    requires forall r :: r in records ==> Accepts(writer.table, r, true)
    modifies writer
    ensures affected == |records| && writer.table == UpsertedAll(old(writer.table), records, true)
  {
    var total, written := WriteBatches(writer, records, batchRows);
    DistinctAffected(old(writer.table), writer.batches[|old(writer.batches)|..], true);
    return total.value;
  }

  /** Seed, delta and a row below the stored cursor, written in batches of any size to an empty guarded table. */
  method RunPostgresIncremental(writer: Writer, c: Config, batchRows: nat)
    returns (seedCount: nat, deltaCount: nat, regressed: nat)
    requires Admissible(c) && batchRows > 0 && writer.guarded && writer.table == map[]
    modifies writer
    ensures seedCount == c.seedRows && deltaCount == c.deltaRows && regressed == 0
    ensures writer.table == Final(c)
  {
    SeedDistinct(c);
    DeltaDistinct(c);
    DeltaAccepted(c);
    seedCount := WriteStream(writer, SeedRecords(c), batchRows);
    deltaCount := WriteStream(writer, DeltaRecords(c), batchRows);
    FinalTable(c);
    var regression := Record(Id(0), "must-not-regress", Some(0));
    assert At(Final(c), Id(0)) == Expected(c, 0);
    RegressionRejected(Final(c), regression);
    var refused := writer.Write([regression]);
    regressed := refused.value;
  }

  /** Raises (None) on a proposal below the current cursor. */
  function AdvanceCursor(current: Option<int>, proposed: int): Option<int> {
    if current.Some? && proposed < current.value then None else Some(proposed)
  }

  /** The cursor after a series of proposals, each refused one leaving it where it was. */
  function CursorAfter(proposals: seq<int>): Option<int> {
    if proposals == [] then None
    else
      var current := CursorAfter(proposals[..|proposals| - 1]);
      var next := AdvanceCursor(current, proposals[|proposals| - 1]);
      if next.Some? then next else current
  }

  ghost predicate Greatest(proposals: seq<int>, cursor: Option<int>) {
    cursor.Some? && cursor.value in proposals && forall p :: p in proposals ==> p <= cursor.value
  }

  lemma GreatestGrows(earlier: seq<int>, cursor: Option<int>, last: int)
    requires Greatest(earlier, cursor)
    ensures Greatest(earlier + [last], if last < cursor.value then cursor else Some(last))
  {
    assert last in earlier + [last];
  }

  /** Refusing regressions keeps the cursor at the greatest proposal so far. */
  lemma {:induction false} CursorIsGreatest(proposals: seq<int>)
    requires proposals != []
    ensures Greatest(proposals, CursorAfter(proposals))
  {
    var n := |proposals| - 1;
    assert proposals == proposals[..n] + [proposals[n]];
    if n == 0 {
      assert CursorAfter(proposals[..0]) == None;
    } else {
      CursorIsGreatest(proposals[..n]);
      GreatestGrows(proposals[..n], CursorAfter(proposals[..n]), proposals[n]);
    }
  }
}
