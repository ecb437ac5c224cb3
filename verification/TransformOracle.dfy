/** The transform benchmark: joining, grouping and incrementally merging generated facts. */
module TransformOracle {
  import opened Text
  import opened Wrappers
  import opened Bags

  datatype Config = Config(facts: nat, dimensions: nat)

  datatype Fact = Fact(id: nat, dimensionId: nat, amount: int, updatedAt: int)

  datatype Dimension = Dimension(dimensionId: nat, category: string)

  datatype Joined = Joined(id: nat, category: string, amount: int, updatedAt: int)

  function Category(k: nat): string {
    "category_" + Digits(k)
  }

  // ---------------------------------------------------------------- generated sources

  function Dimensions(c: Config): seq<Dimension> {
    seq(c.dimensions, i requires 0 <= i < c.dimensions => Dimension(i, Category(i % 10)))
  }

  function FactOf(c: Config, id: nat): Fact
    requires c.dimensions > 0
  {
    Fact(id, id % c.dimensions, id % 17, 1)
  }

  function Facts(c: Config): seq<Fact>
    requires c.dimensions > 0
  {
    seq(c.facts, i requires 0 <= i < c.facts => FactOf(c, i + 1))
  }

  // ---------------------------------------------------------------- the models' SQL

  function Matching(f: Fact, ds: seq<Dimension>): seq<Joined> {
    if ds == [] then [] else
      (if f.dimensionId == ds[0].dimensionId then [Joined(f.id, ds[0].category, f.amount, f.updatedAt)] else []) +
      Matching(f, ds[1..])
  }

  /** The joining query: each fact once for every dimension it refers to. */
  function Join(fs: seq<Fact>, ds: seq<Dimension>): seq<Joined> {
    if fs == [] then [] else Matching(fs[0], ds) + Join(fs[1..], ds)
  }

  function GroupAmount(rows: seq<Joined>, category: string): int {
    if rows == [] then 0 else
      GroupAmount(rows[..|rows| - 1], category) +
      (if rows[|rows| - 1].category == category then rows[|rows| - 1].amount else 0)
  }

  function GroupRows(rows: seq<Joined>, category: string): nat {
    if rows == [] then 0 else
      GroupRows(rows[..|rows| - 1], category) + (if rows[|rows| - 1].category == category then 1 else 0)
  }

  function Categories(rows: seq<Joined>): set<string> {
    set r | r in rows :: r.category
  }

  type Aggregate = (string, int, nat)

  /** The grouping query: amount total and row count of each category that occurs, in category order. */
  function Aggregates(rows: seq<Joined>): seq<Aggregate> {
    GroupsOver(rows, Sorted(Categories(rows)))
  }

  // ---------------------------------------------------------------- the join

  /** The one row a fact joins to. */
  function JoinedOf(f: Fact): Joined {
    Joined(f.id, Category(f.dimensionId % 10), f.amount, f.updatedAt)
  }

  lemma {:induction false} MatchingOne(c: Config, f: Fact, from: nat)
    requires from <= c.dimensions
    ensures Matching(f, Dimensions(c)[from..]) ==
      if from <= f.dimensionId < c.dimensions then [JoinedOf(f)] else []
    decreases c.dimensions - from
  {
    if from < c.dimensions {
      MatchingOne(c, f, from + 1);
      assert Dimensions(c)[from..][1..] == Dimensions(c)[from + 1..];
      assert Dimensions(c)[from..][0] == Dimension(from, Category(from % 10));
    }
  }

  /** Facts whose dimensions exist join one to one: no row is lost or repeated. */
  lemma {:induction false} JoinOneToOne(c: Config, fs: seq<Fact>)
    requires forall f :: f in fs ==> f.dimensionId < c.dimensions
    ensures Join(fs, Dimensions(c)) == Map((f: Fact) => JoinedOf(f), fs)
  {
    if fs != [] {
      assert fs[0] in fs;
      MatchingOne(c, fs[0], 0);
      assert Dimensions(c)[0..] == Dimensions(c);
      JoinOneToOne(c, fs[1..]);
      assert Join(fs, Dimensions(c)) == [JoinedOf(fs[0])] + Map((f: Fact) => JoinedOf(f), fs[1..]);
    }
  }

  /** The joined rows of the generated sources, by fact id. */
  function JoinedRows(c: Config, n: nat): seq<Joined>
    requires c.dimensions > 0
  {
    seq(n, i requires 0 <= i < n => JoinedOf(FactOf(c, i + 1)))
  }

  lemma JoinGenerated(c: Config)
    requires c.dimensions > 0
    ensures Join(Facts(c), Dimensions(c)) == JoinedRows(c, c.facts)
  {
    JoinOneToOne(c, Facts(c));
  }

  // ---------------------------------------------------------------- group-by against the imperative oracle

  /** The group a generated fact falls into. */
  function GroupOf(c: Config, id: nat): nat
    requires c.dimensions > 0
  {
    id % c.dimensions % 10
  }

  lemma CategoryInjective(j: nat, k: nat)
    requires j < 10 && k < 10
    ensures Category(j) == Category(k) <==> j == k
  {
    assert Category(j)[9..] == Digits(j) && Category(k)[9..] == Digits(k);
    if Category(j) == Category(k) {
      DigitsInjective(j, k);
    }
  }

  lemma {:induction false} LeqAfterPrefix(p: string, a: string, b: string)
    ensures Leq(p + a, p + b) <==> Leq(a, b)
  {
    if p == [] {
      assert p + a == a && p + b == b;
    } else {
      LeqAfterPrefix(p[1..], a, b);
      assert (p + a)[1..] == p[1..] + a && (p + b)[1..] == p[1..] + b;
    }
  }

  function TenCategories(): seq<string> {
    seq(10, k requires 0 <= k < 10 => Category(k))
  }

  lemma TenCategoriesSorted()
    ensures StrictlySorted(TenCategories())
  {
    forall j: nat, k: nat | j < k < 10
      ensures Less(Category(j), Category(k))
    {
      LeqAfterPrefix("category_", [Digit(j)], [Digit(k)]);
      CategoryInjective(j, k);
    }
  }

  lemma OneMoreRow(c: Config, n: nat, k: string)
    requires c.dimensions > 0 && n > 0
    ensures GroupAmount(JoinedRows(c, n), k) ==
      GroupAmount(JoinedRows(c, n - 1), k) + if k == Category(GroupOf(c, n)) then n % 17 else 0
    ensures GroupRows(JoinedRows(c, n), k) ==
      GroupRows(JoinedRows(c, n - 1), k) + if k == Category(GroupOf(c, n)) then 1 else 0
  {
    assert JoinedRows(c, n)[..n - 1] == JoinedRows(c, n - 1);
  }

  lemma TenCategoriesMember(k: nat)
    requires k < 10
    ensures Category(k) in TenCategories()
  {
    assert TenCategories()[k] == Category(k);
  }

  /** The accumulating loop of the oracle over a dict pre-filled with the ten categories, read out in sorted order. */
  method ExpectedAggregates(c: Config) returns (expected: seq<Aggregate>)
    requires c.dimensions > 0
    ensures expected == GroupsOver(JoinedRows(c, c.facts), TenCategories())
  {
    var totals: map<string, (int, nat)> := map k | k in TenCategories() :: (0, 0);
    StartTallies(totals, c);
    for identifier := 1 to c.facts + 1
      invariant Tallies(totals, c, identifier - 1)
    {
      TallyStep(totals, c, identifier);
      totals := Tallied(totals, Category(identifier % c.dimensions % 10), identifier % 17);
    }
    ReadOutTallies(totals, c, c.facts);
    expected := ReadOut(totals, Sorted(totals.Keys));
  }

  lemma ReadOutTallies(totals: map<string, (int, nat)>, c: Config, n: nat)
    requires c.dimensions > 0 && Tallies(totals, c, n)
    ensures ReadOut(totals, Sorted(totals.Keys)) == GroupsOver(JoinedRows(c, n), TenCategories())
  {
    TenCategoriesSorted();
    SortedUnique(Sorted(totals.Keys), TenCategories());
  }

  lemma StartTallies(totals: map<string, (int, nat)>, c: Config)
    requires c.dimensions > 0 && totals == map k | k in TenCategories() :: (0, 0)
    ensures Tallies(totals, c, 0)
  {
    assert JoinedRows(c, 0) == [];
  }

  function CategorySet(): set<string> {
    set k | k in TenCategories()
  }

  /** The dict holds the amount and the row count of each category over the first n facts. */
  ghost predicate Tallies(totals: map<string, (int, nat)>, c: Config, n: nat)
    requires c.dimensions > 0
  {
    totals.Keys == CategorySet() &&
    forall k :: k in totals ==> totals[k] == (GroupAmount(JoinedRows(c, n), k), GroupRows(JoinedRows(c, n), k))
  }

  /** One fact added to its category: the amount to its total, one to its count. */
  function Tallied(totals: map<string, (int, nat)>, category: string, amount: int): map<string, (int, nat)>
    requires category in totals
  {
    totals[category := (totals[category].0 + amount, totals[category].1 + 1)]
  }

  lemma TallyStep(totals: map<string, (int, nat)>, c: Config, n: nat)
    requires c.dimensions > 0 && n > 0 && Tallies(totals, c, n - 1)
    ensures Category(GroupOf(c, n)) in totals
    ensures Tallies(Tallied(totals, Category(GroupOf(c, n)), n % 17), c, n)
  {
    TenCategoriesMember(GroupOf(c, n));
    var category := Category(GroupOf(c, n));
    forall k | k in totals
      ensures Tallied(totals, category, n % 17)[k] ==
        (GroupAmount(JoinedRows(c, n), k), GroupRows(JoinedRows(c, n), k))
    {
      OneMoreRow(c, n, k);
    }
    assert Tallied(totals, category, n % 17).Keys == totals.Keys;
  }

  function ReadOut(totals: map<string, (int, nat)>, names: seq<string>): (r: seq<Aggregate>)
    requires forall k :: k in names ==> k in totals
    ensures |r| == |names|
    ensures forall i :: 0 <= i < |names| ==> r[i] == (names[i], totals[names[i]].0, totals[names[i]].1)
  {
    seq(|names|, i requires 0 <= i < |names| => (names[i], totals[names[i]].0, totals[names[i]].1))
  }

  lemma CategoriesAmongTen(c: Config)
    requires c.dimensions > 0
    ensures forall k :: k in Categories(JoinedRows(c, c.facts)) ==> k in TenCategories()
  {
    var rows := JoinedRows(c, c.facts);
    forall i | 0 <= i < c.facts
      ensures rows[i].category in TenCategories()
    {
      TenCategoriesMember(GroupOf(c, i + 1));
    }
  }

  lemma AllTenReached(c: Config)
    requires c.dimensions >= 10 && c.facts >= 10
    ensures forall k :: k in TenCategories() ==> k in Categories(JoinedRows(c, c.facts))
  {
    var rows := JoinedRows(c, c.facts);
    forall k: nat | k < 10
      ensures Category(k) in Categories(rows)
    {
      var id := if k == 0 then 10 else k;
      Reaches(c, k);
      assert rows[id - 1] in rows;
    }
  }

  /** A category that occurs comes from a fact of its group. */
  lemma CategoryHasFact(c: Config, k: nat) returns (id: nat)
    requires c.dimensions > 0 && k < 10 && Category(k) in Categories(JoinedRows(c, c.facts))
    ensures 1 <= id <= c.facts && GroupOf(c, id) == k
  {
    var rows := JoinedRows(c, c.facts);
    var r :| r in rows && r.category == Category(k);
    var i: nat :| i < |rows| && rows[i] == r;
    id := i + 1;
    CategoryInjective(GroupOf(c, id), k);
  }

  /** All ten categories occur exactly when there are ten dimensions and ten facts to reach them. */
  lemma TenCategoriesIff(c: Config)
    requires c.dimensions > 0
    ensures Categories(JoinedRows(c, c.facts)) == (set k | k in TenCategories()) <==>
      c.dimensions >= 10 && c.facts >= 10
  {
    CategoriesAmongTen(c);
    if c.dimensions >= 10 && c.facts >= 10 {
      AllTenReached(c);
    }
    if Categories(JoinedRows(c, c.facts)) == (set k | k in TenCategories()) {
      TenCategoriesMember(9);
      TenCategoriesMember(0);
      var nine := CategoryHasFact(c, 9);
      ReachingNine(c, nine);
      var zero := CategoryHasFact(c, 0);
      ReachingZero(c, zero);
    }
  }

  lemma Reaches(c: Config, k: nat)
    requires c.dimensions >= 10 && k < 10
    ensures GroupOf(c, if k == 0 then 10 else k) == k
  {
    if k == 0 {
      if c.dimensions == 10 {
        assert 10 % c.dimensions == 0;
      } else {
        assert 10 % c.dimensions == 10;
      }
    } else {
      assert k % c.dimensions == k;
    }
  }

  lemma ReachingNine(c: Config, id: nat)
    requires c.dimensions > 0 && GroupOf(c, id) == 9
    ensures c.dimensions >= 10
  {
    assert id % c.dimensions < c.dimensions;
  }

  lemma SmallModulus(id: nat, d: nat)
    requires d > 0
    ensures id < d ==> id % d == id
  {
  }

  lemma ReachingZero(c: Config, id: nat)
    requires c.dimensions >= 10 && id > 0 && GroupOf(c, id) == 0
    ensures id >= 10
  {
    SmallModulus(id, c.dimensions);
  }

  function GroupsOver(rows: seq<Joined>, names: seq<string>): (r: seq<Aggregate>)
    ensures |r| == |names|
  {
    Map(k => (k, GroupAmount(rows, k), GroupRows(rows, k)), names)
  }

  /** The query's grouping equals the oracle's list exactly when all ten categories can occur. */
  lemma GroupByMatchesOracleIff(c: Config)
    requires c.dimensions > 0
    ensures var rows := JoinedRows(c, c.facts);
      Aggregates(rows) == GroupsOver(rows, TenCategories()) <==> c.dimensions >= 10 && c.facts >= 10
  {
    var rows := JoinedRows(c, c.facts);
    TenCategoriesIff(c);
    TenCategoriesSorted();
    var names := Sorted(Categories(rows));
    if c.dimensions >= 10 && c.facts >= 10 {
      SortedUnique(names, TenCategories());
    }
    if GroupsOver(rows, names) == GroupsOver(rows, TenCategories()) {
      SameNames(rows, names, TenCategories());
      assert Categories(rows) == set k | k in names;
    }
  }

  lemma SameNames(rows: seq<Joined>, a: seq<string>, b: seq<string>)
    requires GroupsOver(rows, a) == GroupsOver(rows, b)
    ensures a == b
  {
    forall i | 0 <= i < |a|
      ensures a[i] == b[i]
    {
      assert GroupsOver(rows, a)[i].0 == GroupsOver(rows, b)[i].0;
    }
  }

  // ---------------------------------------------------------------- totals

  /** The total of the generated amounts of the first n facts. */
  function AmountUpTo(n: nat): int {
    if n == 0 then 0 else AmountUpTo(n - 1) + n % 17
  }

  function SumAmounts(aggregates: seq<Aggregate>): int {
    if aggregates == [] then 0 else aggregates[0].1 + SumAmounts(aggregates[1..])
  }

  function SumRows(aggregates: seq<Aggregate>): int {
    if aggregates == [] then 0 else aggregates[0].2 + SumRows(aggregates[1..])
  }

  /** One more row adds to exactly one group. */
  lemma {:induction false} GroupsGrow(rows: seq<Joined>, r: Joined, names: seq<string>)
    requires StrictlySorted(names)
    ensures SumAmounts(GroupsOver(rows + [r], names)) ==
      SumAmounts(GroupsOver(rows, names)) + if r.category in names then r.amount else 0
    ensures SumRows(GroupsOver(rows + [r], names)) ==
      SumRows(GroupsOver(rows, names)) + if r.category in names then 1 else 0
  {
    if names != [] {
      GroupsGrow(rows, r, names[1..]);
      assert (rows + [r])[..|rows|] == rows;
      assert GroupsOver(rows + [r], names)[1..] == GroupsOver(rows + [r], names[1..]);
      assert GroupsOver(rows, names)[1..] == GroupsOver(rows, names[1..]);
      assert r.category in names <==> r.category == names[0] || r.category in names[1..];
      assert forall i :: 1 <= i < |names| ==> Less(names[0], names[i]);
    }
  }

  lemma {:induction false} NoGroups(names: seq<string>)
    ensures SumAmounts(GroupsOver([], names)) == 0 && SumRows(GroupsOver([], names)) == 0
  {
    if names != [] {
      NoGroups(names[1..]);
      assert GroupsOver([], names)[1..] == GroupsOver([], names[1..]);
    }
  }

  /** Per-category totals and counts add up to the sum of i mod 17 and to the number of facts. */
  lemma {:induction false} TotalsConserved(c: Config, n: nat)
    requires c.dimensions > 0
    ensures SumAmounts(GroupsOver(JoinedRows(c, n), TenCategories())) == AmountUpTo(n)
    ensures SumRows(GroupsOver(JoinedRows(c, n), TenCategories())) == n
  {
    TenCategoriesSorted();
    if n == 0 {
      NoGroups(TenCategories());
      assert JoinedRows(c, 0) == [];
    } else {
      TotalsConserved(c, n - 1);
      var r := JoinedOf(FactOf(c, n));
      assert JoinedRows(c, n) == JoinedRows(c, n - 1) + [r];
      assert TenCategories()[GroupOf(c, n)] == r.category;
      GroupsGrow(JoinedRows(c, n - 1), r, TenCategories());
    }
  }

  // ---------------------------------------------------------------- mutation and incremental merge

  /** The facts after the mutation: the first one updated, one more inserted under the next id. */
  function MutatedFacts(c: Config): seq<Fact>
    requires c.dimensions > 0 && c.facts > 0
  {
    Facts(c)[0 := Fact(1, 1 % c.dimensions, 999, 2)] + [Fact(c.facts + 1, 1, 5, 2)]
  }

  /** The mutated facts whose dimension exists; the inserted one refers to a second dimension. */
  function KeptFacts(c: Config): seq<Fact>
    requires c.dimensions > 0 && c.facts > 0
  {
    if c.dimensions >= 2 then MutatedFacts(c) else MutatedFacts(c)[..c.facts]
  }

  lemma {:induction false} JoinSnoc(fs: seq<Fact>, f: Fact, ds: seq<Dimension>)
    ensures Join(fs + [f], ds) == Join(fs, ds) + Matching(f, ds)
  {
    if fs == [] {
      assert [] + [f] == [f] && [f][1..] == [];
    } else {
      JoinSnoc(fs[1..], f, ds);
      assert (fs + [f])[1..] == fs[1..] + [f];
    }
  }

  /** After the mutation too, facts with a dimension join once each, and the others are lost. */
  lemma JoinMutated(c: Config)
    requires c.dimensions > 0 && c.facts > 0
    ensures Join(MutatedFacts(c), Dimensions(c)) == Map((f: Fact) => JoinedOf(f), KeptFacts(c))
  {
    hide Join, Matching, Dimensions;
    var all := MutatedFacts(c);
    forall f | f in KeptFacts(c)
      ensures f.dimensionId < c.dimensions
    {
      var i :| 0 <= i < |KeptFacts(c)| && KeptFacts(c)[i] == f;
    }
    JoinOneToOne(c, KeptFacts(c));
    if c.dimensions == 1 {
      assert all == KeptFacts(c) + [all[c.facts]];
      JoinSnoc(KeptFacts(c), all[c.facts], Dimensions(c));
      MatchingOne(c, all[c.facts], 0);
      assert Dimensions(c)[0..] == Dimensions(c);
    }
  }

  type Table = map<nat, Joined>

  /** Merging rows into the incremental model by id. */
  function MergeById(table: Table, rows: seq<Joined>): Table {
    if rows == [] then table else
      MergeById(table, rows[..|rows| - 1])[rows[|rows| - 1].id := rows[|rows| - 1]]
  }

  /** The rows whose cursor is at least the watermark. */
  function Since(rows: seq<Joined>, watermark: int): seq<Joined> {
    if rows == [] then [] else
      Since(rows[..|rows| - 1], watermark) +
      (if rows[|rows| - 1].updatedAt >= watermark then [rows[|rows| - 1]] else [])
  }

  /** Ids count up from 1, row by row. */
  predicate Numbered(rows: seq<Joined>) {
    forall i :: 0 <= i < |rows| ==> rows[i].id == i + 1
  }

  function At(table: Table, id: nat): Option<Joined> {
    if id in table then Some(table[id]) else None
  }

  lemma MergeSnoc(table: Table, rows: seq<Joined>, r: Joined)
    ensures MergeById(table, rows + [r]) == MergeById(table, rows)[r.id := r]
  {
    assert (rows + [r])[..|rows|] == rows;
  }

  /** Merging the re-read rows replaces exactly their ids. */
  lemma {:induction false} MergedAt(table: Table, rows: seq<Joined>, watermark: int, id: nat)
    requires Numbered(rows)
    ensures At(MergeById(table, Since(rows, watermark)), id) ==
      if 1 <= id <= |rows| && rows[id - 1].updatedAt >= watermark then Some(rows[id - 1]) else At(table, id)
  {
    if rows != [] {
      var n := |rows| - 1;
      assert forall i :: 0 <= i < n ==> rows[..n][i] == rows[i];
      MergedAt(table, rows[..n], watermark, id);
      assert rows[n].id == n + 1;
      if rows[n].updatedAt >= watermark {
        MergeSnoc(table, Since(rows[..n], watermark), rows[n]);
      } else {
        assert Since(rows, watermark) == Since(rows[..n], watermark);
      }
    }
  }

  lemma {:induction false} SeededAt(rows: seq<Joined>, id: nat)
    requires Numbered(rows)
    ensures At(MergeById(map[], rows), id) == if 1 <= id <= |rows| then Some(rows[id - 1]) else None
  {
    if rows != [] {
      var n := |rows| - 1;
      assert forall i :: 0 <= i < n ==> rows[..n][i] == rows[i];
      SeededAt(rows[..n], id);
      assert rows[n].id == n + 1;
      assert MergeById(map[], rows) == MergeById(map[], rows[..n])[rows[n].id := rows[n]];
    }
  }

  /** A table with exactly these numbered rows. */
  ghost predicate Tabulates(table: Table, rows: seq<Joined>) {
    forall id: nat :: At(table, id) == if 1 <= id <= |rows| then Some(rows[id - 1]) else None
  }

  lemma SeededTable(rows: seq<Joined>)
    requires Numbered(rows)
    ensures Tabulates(MergeById(map[], rows), rows)
  {
    forall id: nat
      ensures At(MergeById(map[], rows), id) == if 1 <= id <= |rows| then Some(rows[id - 1]) else None
    {
      SeededAt(rows, id);
    }
  }

  /** Merging any cursor-filtered part that includes every changed row turns the old table into the new one. */
  lemma IncrementalMergeExact(table: Table, before: seq<Joined>, after: seq<Joined>, watermark: int)
    requires Numbered(after) && Tabulates(table, before) && |before| <= |after|
    requires forall i :: 0 <= i < |after| && after[i].updatedAt < watermark ==> i < |before| && before[i] == after[i]
    ensures Tabulates(MergeById(table, Since(after, watermark)), after)
  {
    forall id: nat
      ensures At(MergeById(table, Since(after, watermark)), id) ==
        if 1 <= id <= |after| then Some(after[id - 1]) else None
    {
      MergedAt(table, after, watermark, id);
      assert At(table, id) == if 1 <= id <= |before| then Some(before[id - 1]) else None;
    }
  }

  /** The sum of the amounts of a table over the ids from 1 to n. */
  function TableAmount(table: Table, n: nat): int
    requires forall id :: 1 <= id <= n ==> id in table
  {
    if n == 0 then 0 else TableAmount(table, n - 1) + table[n].amount
  }

  lemma {:induction false} GeneratedAmount(c: Config, table: Table, n: nat)
    requires c.dimensions > 0 && forall id :: 1 <= id <= n ==> id in table && table[id] == JoinedOf(FactOf(c, id))
    ensures TableAmount(table, n) == AmountUpTo(n)
  {
    if n > 0 {
      GeneratedAmount(c, table, n - 1);
    }
  }

  lemma {:induction false} MutatedAmount(c: Config, table: Table, n: nat)
    requires c.dimensions > 0 && n > 0 && forall id :: 1 <= id <= n ==> id in table
    requires forall id :: 2 <= id <= n ==> table[id] == JoinedOf(FactOf(c, id))
    ensures TableAmount(table, n) == AmountUpTo(n) - 1 % 17 + table[1].amount
  {
    if n == 1 {
      assert TableAmount(table, 0) == 0 && AmountUpTo(1) == AmountUpTo(0) + 1 % 17;
    } else {
      MutatedAmount(c, table, n - 1);
    }
  }

  /** The incremental model: seeded from the generated facts, then merged with what the cursor filter re-reads. */
  function MergedModel(c: Config, watermark: int): Table
    requires c.dimensions > 0 && c.facts > 0
  {
    MergeById(MergeById(map[], Join(Facts(c), Dimensions(c))), Since(Join(MutatedFacts(c), Dimensions(c)), watermark))
  }

  /** After the mutation it is exactly the newly joined rows, whichever the cursor filter re-reads. */
  lemma MutationMerged(c: Config, watermark: int)
    requires c.dimensions > 0 && c.facts > 0 && watermark <= 2
    ensures Join(MutatedFacts(c), Dimensions(c)) == Map((f: Fact) => JoinedOf(f), KeptFacts(c))
    ensures Tabulates(MergedModel(c, watermark), Join(MutatedFacts(c), Dimensions(c)))
  {
    JoinGenerated(c);
    JoinMutated(c);
    SeededTable(JoinedRows(c, c.facts));
    MutationChanges(c, watermark);
    IncrementalMergeExact(
      MergeById(map[], JoinedRows(c, c.facts)), JoinedRows(c, c.facts), Map((f: Fact) => JoinedOf(f), KeptFacts(c)),
      watermark);
  }

  lemma MutationChanges(c: Config, watermark: int)
    requires c.dimensions > 0 && c.facts > 0 && watermark <= 2
    ensures var before, after := JoinedRows(c, c.facts), Map((f: Fact) => JoinedOf(f), KeptFacts(c));
      Numbered(after) && |before| <= |after| && forall i :: 0 <= i < |after| && after[i].updatedAt < watermark ==>
        i < |before| && before[i] == after[i]
  {
    var before, after := JoinedRows(c, c.facts), Map((f: Fact) => JoinedOf(f), KeptFacts(c));
    forall i | 0 <= i < |after| && after[i].updatedAt < watermark
      ensures i < |before| && before[i] == after[i]
    {
      assert after[i] == JoinedOf(KeptFacts(c)[i]);
    }
  }

  /** What a table of those rows holds: the update, the other generated rows, and the insert if its dimension exists. */
  lemma MutatedTable(c: Config, merged: Table)
    requires c.dimensions > 0 && c.facts > 0
    requires Tabulates(merged, Map((f: Fact) => JoinedOf(f), KeptFacts(c)))
    ensures forall id :: id in merged <==> 1 <= id <= |KeptFacts(c)|
    ensures merged[1] == JoinedOf(Fact(1, 1 % c.dimensions, 999, 2))
    ensures forall id :: 2 <= id <= c.facts ==> merged[id] == JoinedOf(FactOf(c, id))
    ensures c.facts + 1 in merged ==> merged[c.facts + 1] == JoinedOf(Fact(c.facts + 1, 1, 5, 2))
    ensures TableAmount(merged, c.facts) == AmountUpTo(c.facts) - 1 % 17 + 999
  {
    TabulatedIds(merged, KeptFacts(c));
    forall id: nat | 2 <= id <= c.facts
      ensures merged[id] == JoinedOf(FactOf(c, id))
    {
      assert KeptFacts(c)[id - 1] == FactOf(c, id);
    }
    MutatedAmount(c, merged, c.facts);
  }

  lemma TabulatedIds(merged: Table, fs: seq<Fact>)
    requires Tabulates(merged, Map((f: Fact) => JoinedOf(f), fs))
    ensures forall id: nat :: id in merged <==> 1 <= id <= |fs|
    ensures forall id: nat :: 1 <= id <= |fs| ==> merged[id] == JoinedOf(fs[id - 1])
  {
    var rows := Map((f: Fact) => JoinedOf(f), fs);
    forall id: nat | 1 <= id <= |fs|
      ensures id in merged && merged[id] == JoinedOf(fs[id - 1])
    {
      assert At(merged, id) == Some(rows[id - 1]);
    }
    forall id: nat | id in merged
      ensures 1 <= id <= |fs|
    {
      assert At(merged, id).Some?;
    }
  }
}
