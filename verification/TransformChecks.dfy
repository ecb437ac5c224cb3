/** What the transform harnesses read back before and after the mutation, against the values they demand. */
module TransformChecks {
  import opened Wrappers
  import opened Text
  import opened Bags
  import opened TransformOracle

  // ---------------------------------------------------------------- sums and extremes

  function Total(amounts: seq<int>): int {
    if amounts == [] then 0 else Total(amounts[..|amounts| - 1]) + amounts[|amounts| - 1]
  }

  function FactAmounts(fs: seq<Fact>): seq<int> {
    Map((f: Fact) => f.amount, fs)
  }

  function RowAmounts(rows: seq<Joined>): seq<int> {
    Map((r: Joined) => r.amount, rows)
  }

  /** The amounts generated for the first n facts. */
  function Amounts(n: nat): seq<int> {
    seq(n, i requires 0 <= i < n => (i + 1) % 17)
  }

  lemma {:induction false} AmountsTotal(n: nat)
    ensures Total(Amounts(n)) == AmountUpTo(n)
  {
    if n > 0 {
      AmountsTotal(n - 1);
      assert Amounts(n)[..n - 1] == Amounts(n - 1);
    }
  }

  function FactIds(fs: seq<Fact>): set<nat> {
    set f | f in fs :: f.id
  }

  function RowIds(rows: seq<Joined>): set<nat> {
    set r | r in rows :: r.id
  }

  /** The ids from 1 to n. */
  function UpTo(n: nat): (ids: set<nat>)
    ensures |ids| == n && forall id :: id in ids <==> 1 <= id <= n
  {
    if n == 0 then {} else UpTo(n - 1) + {n}
  }

  function LeastId(fs: seq<Fact>): (least: nat)
    requires fs != []
    ensures least in FactIds(fs) && forall f :: f in fs ==> least <= f.id
  {
    if |fs| == 1 then fs[0].id else
      var rest := LeastId(fs[1..]);
      if fs[0].id < rest then fs[0].id else rest
  }

  function GreatestId(fs: seq<Fact>): (greatest: nat)
    requires fs != []
    ensures greatest in FactIds(fs) && forall f :: f in fs ==> f.id <= greatest
  {
    if |fs| == 1 then fs[0].id else
      var rest := GreatestId(fs[1..]);
      if fs[0].id > rest then fs[0].id else rest
  }

  /** The sum of the amounts of all rows of a keyed table. */
  ghost function TableTotal(table: Table): int {
    if table == map[] then 0 else
      var id :| id in table;
      table[id].amount + TableTotal(table - {id})
  }

  /** In whatever order the rows are visited. */
  lemma {:induction false} TotalWithout(table: Table, id: nat)
    requires id in table
    ensures TableTotal(table) == table[id].amount + TableTotal(table - {id})
    decreases |table|
  {
    var first :| first in table && TableTotal(table) == table[first].amount + TableTotal(table - {first});
    if first != id {
      TotalWithout(table - {first}, id);
      TotalWithout(table - {id}, first);
      assert table - {first} - {id} == table - {id} - {first};
    }
  }

  lemma {:induction false} NumberedTotal(table: Table, n: nat)
    requires table.Keys == UpTo(n)
    ensures TableTotal(table) == TableAmount(table, n)
  {
    if n == 0 {
      assert table == map[];
    } else {
      TotalWithout(table, n);
      var rest := table - {n};
      assert rest.Keys == UpTo(n - 1);
      NumberedTotal(rest, n - 1);
      SameAmount(table, rest, n - 1);
    }
  }

  lemma {:induction false} SameAmount(a: Table, b: Table, n: nat)
    requires forall id :: 1 <= id <= n ==> id in a && id in b && a[id] == b[id]
    ensures TableAmount(a, n) == TableAmount(b, n)
  {
    if n > 0 {
      SameAmount(a, b, n - 1);
    }
  }

  // ---------------------------------------------------------------- the first build

  datatype Scan = Scan(rows: nat, distinctIds: nat, minimumId: nat, maximumId: nat, totalAmount: int)

  datatype JoinCheck = JoinCheck(rows: nat, distinctIds: nat, categories: nat, totalAmount: int)

  datatype Increment = Increment(rows: nat, totalAmount: int)

  datatype BigQueryInitial =
    BigQueryInitial(scan: Scan, joined: JoinCheck, aggregates: seq<Aggregate>, incremental: Increment)

  datatype PostgresInitial =
    PostgresInitial(
      scanRows: nat, joinedRows: nat, joinedCategories: nat, aggregateCategories: nat, aggregateRows: int,
      aggregateAmount: int, incrementalRows: nat)

  /** The queries of the BigQuery harness over the four models. */
  ghost function BigQueryInitialObserved(c: Config): BigQueryInitial
    requires c.dimensions > 0 && c.facts > 0
  {
    var facts := Facts(c);
    var joined := Join(facts, Dimensions(c));
    var model := MergeById(map[], joined);
    BigQueryInitial(
      Scan(|facts|, |FactIds(facts)|, LeastId(facts), GreatestId(facts), Total(FactAmounts(facts))),
      JoinCheck(|joined|, |RowIds(joined)|, |Categories(joined)|, Total(RowAmounts(joined))),
      Aggregates(joined), Increment(|model|, TableTotal(model)))
  }

  /** What that harness demands; its aggregates are those of the accumulating loop. */
  function BigQueryInitialExpected(c: Config): BigQueryInitial
    requires c.dimensions > 0
  {
    var total := AmountUpTo(c.facts);
    BigQueryInitial(
      Scan(c.facts, c.facts, 1, c.facts, total), JoinCheck(c.facts, c.facts, 10, total),
      GroupsOver(JoinedRows(c, c.facts), TenCategories()), Increment(c.facts, total))
  }

  function PostgresInitialObserved(c: Config): PostgresInitial
    requires c.dimensions > 0
  {
    var joined := Join(Facts(c), Dimensions(c));
    var aggregates := Aggregates(joined);
    PostgresInitial(
      |Facts(c)|, |joined|, |Categories(joined)|, |aggregates|, SumRows(aggregates), SumAmounts(aggregates),
      |MergeById(map[], joined)|)
  }

  function PostgresInitialExpected(c: Config): PostgresInitial {
    PostgresInitial(c.facts, c.facts, 10, 10, c.facts, AmountUpTo(c.facts), c.facts)
  }

  lemma ScanRead(c: Config)
    requires c.dimensions > 0 && c.facts > 0
    ensures |Facts(c)| == c.facts && FactIds(Facts(c)) == UpTo(c.facts)
    ensures LeastId(Facts(c)) == 1 && GreatestId(Facts(c)) == c.facts
    ensures Total(FactAmounts(Facts(c))) == AmountUpTo(c.facts)
  {
    var fs := Facts(c);
    forall id: nat | 1 <= id <= c.facts
      ensures id in FactIds(fs)
    {
      assert fs[id - 1] in fs && fs[id - 1].id == id;
    }
    assert 1 in FactIds(fs) && c.facts in FactIds(fs);
    assert FactAmounts(fs) == Amounts(c.facts);
    AmountsTotal(c.facts);
  }

  lemma JoinRead(c: Config)
    requires c.dimensions > 0
    ensures Join(Facts(c), Dimensions(c)) == JoinedRows(c, c.facts)
    ensures RowIds(JoinedRows(c, c.facts)) == UpTo(c.facts)
    ensures Total(RowAmounts(JoinedRows(c, c.facts))) == AmountUpTo(c.facts)
  {
    hide Total, RowAmounts, RowIds, Join, JoinedRows;
    JoinGenerated(c);
    JoinedIds(c);
    RowsTotal(c);
  }

  lemma JoinedIds(c: Config)
    requires c.dimensions > 0
    ensures RowIds(JoinedRows(c, c.facts)) == UpTo(c.facts)
  {
    hide Category;
    var rows := JoinedRows(c, c.facts);
    assert forall i :: 0 <= i < |rows| ==> rows[i].id == i + 1;
    forall id | id in UpTo(c.facts)
      ensures id in RowIds(rows)
    {
      assert rows[id - 1] in rows;
    }
    hide JoinedRows;
    forall id | id in RowIds(rows)
      ensures id in UpTo(c.facts)
    {
      var i :| 0 <= i < |rows| && rows[i].id == id;
    }
  }

  lemma RowsTotal(c: Config)
    requires c.dimensions > 0
    ensures Total(RowAmounts(JoinedRows(c, c.facts))) == AmountUpTo(c.facts)
  {
    assert RowAmounts(JoinedRows(c, c.facts)) == Amounts(c.facts);
    AmountsTotal(c.facts);
  }

  /** The seeded incremental model. */
  lemma SeedRead(c: Config)
    requires c.dimensions > 0
    ensures var model := MergeById(map[], JoinedRows(c, c.facts));
      |model| == c.facts && TableTotal(model) == AmountUpTo(c.facts)
  {
    var rows := JoinedRows(c, c.facts);
    var model := MergeById(map[], rows);
    SeededTable(rows);
    forall id: nat
      ensures id in model <==> 1 <= id <= c.facts
      ensures id in model ==> model[id] == JoinedOf(FactOf(c, id))
    {
      assert At(model, id) == if 1 <= id <= |rows| then Some(rows[id - 1]) else None;
    }
    assert model.Keys == UpTo(c.facts);
    NumberedTotal(model, c.facts);
    GeneratedAmount(c, model, c.facts);
  }

  /** Counting the categories is as good as comparing them with the ten. */
  lemma TenCounted(c: Config)
    requires c.dimensions > 0
    ensures |Categories(JoinedRows(c, c.facts))| == 10 <==> c.dimensions >= 10 && c.facts >= 10
  {
    var found, ten := Categories(JoinedRows(c, c.facts)), CategorySet();
    TenCategoriesIff(c);
    CategoriesAmongTen(c);
    TenCategoriesSize();
    if |found| == 10 {
      SubsetOfSize(found, ten);
    }
  }

  lemma TenCategoriesSize()
    ensures |CategorySet()| == 10
  {
    TenCategoriesSorted();
    NamesCount(TenCategories());
  }

  lemma {:induction false} NamesCount(names: seq<string>)
    requires StrictlySorted(names)
    ensures |set k | k in names| == |names|
  {
    if names == [] {
      assert (set k | k in names) == {};
    } else {
      NamesCount(names[1..]);
      assert (set k | k in names) == {names[0]} + set k | k in names[1..];
      assert names[0] !in names[1..];
    }
  }

  lemma SubsetOfSize(a: set<string>, b: set<string>)
    requires a <= b && |a| == |b|
    ensures a == b
  {
    assert |b - a| == 0;
  }

  /** The BigQuery harness accepts the first build exactly when there are ten dimensions and ten facts. */
  lemma BigQueryInitialIff(c: Config)
    requires c.dimensions > 0 && c.facts > 0
    ensures BigQueryInitialObserved(c) == BigQueryInitialExpected(c) <==> c.dimensions >= 10 && c.facts >= 10
  {
    hide JoinedRows, Facts, TableTotal, Total, Aggregates, MergeById, Join, Categories;
    ScanRead(c);
    JoinRead(c);
    SeedRead(c);
    TenCounted(c);
    GroupByMatchesOracleIff(c);
    JoinedSize(c);
  }

  lemma JoinedSize(c: Config)
    requires c.dimensions > 0
    ensures |JoinedRows(c, c.facts)| == c.facts
  {
  }

  /** So does the PostgreSQL harness, which reads only counts and sums. */
  lemma PostgresInitialIff(c: Config)
    requires c.dimensions > 0 && c.facts > 0
    ensures PostgresInitialObserved(c) == PostgresInitialExpected(c) <==> c.dimensions >= 10 && c.facts >= 10
  {
    hide JoinedRows, Aggregates, MergeById, Join, Categories, GroupsOver, Facts;
    ScanRead(c);
    JoinRead(c);
    SeedRead(c);
    JoinedSize(c);
    TenCounted(c);
    GroupByMatchesOracleIff(c);
    TotalsConserved(c, c.facts);
  }

  // ---------------------------------------------------------------- the incremental build

  datatype BigQueryMutated =
    BigQueryMutated(rows: nat, distinctIds: nat, updatedRows: nat, insertedRows: nat, totalAmount: int)

  datatype PostgresMutated = PostgresMutated(rows: nat, updated: nat, inserted: nat)

  /** How many rows have this id, amount and cursor. */
  function CountOf(table: Table, id: nat, amount: int, updatedAt: int): nat {
    |set k | k in table && table[k].id == id && table[k].amount == amount && table[k].updatedAt == updatedAt|
  }

  function TableIds(table: Table): set<nat> {
    set k | k in table :: table[k].id
  }

  ghost function BigQueryMutatedObserved(c: Config, table: Table): BigQueryMutated {
    BigQueryMutated(
      |table|, |TableIds(table)|, CountOf(table, 1, 999, 2), CountOf(table, c.facts + 1, 5, 2), TableTotal(table))
  }

  function BigQueryMutatedExpected(c: Config): BigQueryMutated {
    BigQueryMutated(c.facts + 1, c.facts + 1, 1, 1, AmountUpTo(c.facts) - 1 % 17 + 999 + 5)
  }

  function PostgresMutatedObserved(c: Config, table: Table): PostgresMutated {
    PostgresMutated(|table|, CountOf(table, 1, 999, 2), CountOf(table, c.facts + 1, 5, 2))
  }

  lemma KeptSize(c: Config)
    requires c.dimensions > 0 && c.facts > 0
    ensures |KeptFacts(c)| == if c.dimensions >= 2 then c.facts + 1 else c.facts
    ensures forall i :: 0 <= i < |KeptFacts(c)| ==> KeptFacts(c)[i].id == i + 1
  {
  }

  lemma MutatedIds(c: Config, table: Table)
    requires c.dimensions > 0 && c.facts > 0
    requires Tabulates(table, Map((f: Fact) => JoinedOf(f), KeptFacts(c)))
    ensures table.Keys == UpTo(|KeptFacts(c)|) && forall id :: id in table ==> table[id].id == id
  {
    hide KeptFacts;
    TabulatedIds(table, KeptFacts(c));
    KeptSize(c);
    assert forall id :: id in table.Keys <==> id in UpTo(|KeptFacts(c)|);
  }

  lemma CountOfOne(table: Table, id: nat, amount: int, updatedAt: int)
    requires forall k :: k in table ==> table[k].id == k
    ensures CountOf(table, id, amount, updatedAt) ==
      if id in table && table[id].amount == amount && table[id].updatedAt == updatedAt then 1 else 0
  {
    assert (set k | k in table && table[k].id == id && table[k].amount == amount && table[k].updatedAt == updatedAt) ==
      if id in table && table[id].amount == amount && table[id].updatedAt == updatedAt then {id} else {};
  }

  lemma MutatedRead(c: Config, table: Table)
    requires c.dimensions > 0 && c.facts > 0
    requires Tabulates(table, Map((f: Fact) => JoinedOf(f), KeptFacts(c)))
    ensures |table| == |TableIds(table)| == |KeptFacts(c)|
    ensures CountOf(table, 1, 999, 2) == 1
    ensures CountOf(table, c.facts + 1, 5, 2) == if c.dimensions >= 2 then 1 else 0
    ensures TableTotal(table) ==
      AmountUpTo(c.facts) - 1 % 17 + 999 + if c.dimensions >= 2 then 5 else 0
  {
    hide KeptFacts, Total;
    MutatedIds(c, table);
    MutatedTable(c, table);
    KeptSize(c);
    assert |table| == |table.Keys|;
    assert TableIds(table) == table.Keys;
    CountOfOne(table, 1, 999, 2);
    CountOfOne(table, c.facts + 1, 5, 2);
    NumberedTotal(table, |KeptFacts(c)|);
  }

  /**
   After the mutation the merged model always holds exactly the newly joined rows; either harness accepts it exactly
   when there are at least two dimensions, because the inserted fact refers to the second.
  */
  lemma MutationOracleIff(c: Config, watermark: int)
    requires c.dimensions > 0 && c.facts > 0 && watermark <= 2
    ensures var table := MergedModel(c, watermark);
      Tabulates(table, Join(MutatedFacts(c), Dimensions(c))) &&
      (BigQueryMutatedObserved(c, table) == BigQueryMutatedExpected(c) <==> c.dimensions >= 2) &&
      (PostgresMutatedObserved(c, table) == PostgresMutated(c.facts + 1, 1, 1) <==> c.dimensions >= 2)
  {
    hide KeptFacts, MergedModel, CountOf, TableTotal, TableIds, Join;
    MutationMerged(c, watermark);
    MutatedRead(c, MergedModel(c, watermark));
    KeptSize(c);
  }
}
