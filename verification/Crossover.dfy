/** The COPY/DIRECT crossover benchmark: its schedule, its medians and its recommendation. */
module Crossover {
  import opened Wrappers
  import opened Bags

  datatype Transport = Copy | Direct

  datatype Sample = Sample(transport: Transport, rows: nat, repetition: nat, durationMs: nat)

  /** What measuring one sample yields: its duration, and a digest of the rows read back. */
  type Duration = (Transport, nat, nat) -> nat

  type Digest = (Transport, nat, nat) -> string

  // ---------------------------------------------------------------- the schedule

  predicate CopyFirst(repetition: nat, rowIndex: nat) {
    (repetition + rowIndex) % 2 == 0
  }

  function Measured(d: Duration, t: Transport, rows: nat, repetition: nat): Sample {
    Sample(t, rows, repetition, d(t, rows, repetition))
  }

  /** The two samples of one size in one repetition, in their alternating order. */
  function Paired(d: Duration, rows: nat, repetition: nat, rowIndex: nat): seq<Sample> {
    var copy, direct := Measured(d, Copy, rows, repetition), Measured(d, Direct, rows, repetition);
    if CopyFirst(repetition, rowIndex) then [copy, direct] else [direct, copy]
  }

  /** The first n sizes of one repetition. */
  function Round(d: Duration, rowCounts: seq<nat>, repetition: nat, n: nat): seq<Sample>
    requires n <= |rowCounts|
  {
    if n == 0 then [] else
      Round(d, rowCounts, repetition, n - 1) + Paired(d, rowCounts[n - 1], repetition, n - 1)
  }

  function Schedule(d: Duration, rowCounts: seq<nat>, repetitions: nat): seq<Sample> {
    if repetitions == 0 then [] else
      Schedule(d, rowCounts, repetitions - 1) + Round(d, rowCounts, repetitions - 1, |rowCounts|)
  }

  /** Both transports read back the same rows. */
  predicate Equal(g: Digest, rows: nat, repetition: nat) {
    g(Copy, rows, repetition) == g(Direct, rows, repetition)
  }

  /** In this repetition the transports agree on each of the first n sizes. */
  ghost predicate RoundEqual(g: Digest, rowCounts: seq<nat>, repetition: nat, n: nat)
    requires n <= |rowCounts|
  {
    forall i :: 0 <= i < n ==> Equal(g, rowCounts[i], repetition)
  }

  lemma RoundGrows(d: Duration, rowCounts: seq<nat>, repetition: nat, n: nat, before: seq<Sample>)
    requires n < |rowCounts|
    ensures before + Round(d, rowCounts, repetition, n + 1) ==
      before + Round(d, rowCounts, repetition, n) + Paired(d, rowCounts[n], repetition, n)
  {
    assert Round(d, rowCounts, repetition, n + 1) ==
      Round(d, rowCounts, repetition, n) + Paired(d, rowCounts[n], repetition, n);
  }

  /** The innermost loop, over the two transports in this pair's order. */
  method MeasurePair(d: Duration, samples: seq<Sample>, rows: nat, repetition: nat, rowIndex: nat)
    returns (more: seq<Sample>)
    ensures more == samples + Paired(d, rows, repetition, rowIndex)
  {
    more := samples;
    var order := if (repetition + rowIndex) % 2 == 0 then [Copy, Direct] else [Direct, Copy];
    ghost var pair := Paired(d, rows, repetition, rowIndex);
    for j := 0 to 2
      invariant more == samples + pair[..j]
    {
      more := more + [Measured(d, order[j], rows, repetition)];
    }
    assert pair[..2] == pair;
  }

  /** One repetition over all sizes. */
  method MeasureRound(d: Duration, g: Digest, rowCounts: seq<nat>, repetition: nat, samples: seq<Sample>)
    returns (r: Option<seq<Sample>>)
    ensures r.Some? <==> RoundEqual(g, rowCounts, repetition, |rowCounts|)
    ensures r.Some? ==> r.value == samples + Round(d, rowCounts, repetition, |rowCounts|)
  {
    var more := samples;
    for rowIndex := 0 to |rowCounts|
      invariant more == samples + Round(d, rowCounts, repetition, rowIndex)
      invariant RoundEqual(g, rowCounts, repetition, rowIndex)
    {
      var rows := rowCounts[rowIndex];
      RoundGrows(d, rowCounts, repetition, rowIndex, samples);
      more := MeasurePair(d, more, rows, repetition, rowIndex);
      if g(Copy, rows, repetition) != g(Direct, rows, repetition) {
        assert !Equal(g, rowCounts[rowIndex], repetition);
        return None;
      }
    }
    return Some(more);
  }

  /** The nested measuring loops; a digest mismatch stops the run with an error. */
  method RunCrossover(d: Duration, g: Digest, rowCounts: seq<nat>, repetitions: nat)
    returns (r: Option<seq<Sample>>)
    ensures r.Some? <==> forall k :: 0 <= k < repetitions ==> RoundEqual(g, rowCounts, k, |rowCounts|)
    ensures r.Some? ==> r.value == Schedule(d, rowCounts, repetitions)
  {
    var samples: seq<Sample> := [];
    for repetition := 0 to repetitions
      invariant samples == Schedule(d, rowCounts, repetition)
      invariant forall k :: 0 <= k < repetition ==> RoundEqual(g, rowCounts, k, |rowCounts|)
    {
      var more := MeasureRound(d, g, rowCounts, repetition, samples);
      if more.None? {
        return None;
      }
      samples := more.value;
    }
    return Some(samples);
  }

  // ---------------------------------------------------------------- one sample per combination

  /** The durations kept for one transport and size, in measuring order. */
  function Durations(samples: seq<Sample>, t: Transport, rows: nat): seq<nat> {
    if samples == [] then [] else
      Durations(samples[..|samples| - 1], t, rows) +
      (if samples[|samples| - 1].transport == t && samples[|samples| - 1].rows == rows
       then [samples[|samples| - 1].durationMs] else [])
  }

  lemma {:induction false} DurationsAppend(a: seq<Sample>, b: seq<Sample>, t: Transport, rows: nat)
    ensures Durations(a + b, t, rows) == Durations(a, t, rows) + Durations(b, t, rows)
    decreases |b|
  {
    if b == [] {
      assert a + b == a;
    } else {
      var last := b[|b| - 1];
      DurationsAppend(a, b[..|b| - 1], t, rows);
      assert (a + b)[..|a + b| - 1] == a + b[..|b| - 1] && (a + b)[|a + b| - 1] == last;
    }
  }

  lemma PairedDurations(d: Duration, size: nat, repetition: nat, rowIndex: nat, t: Transport, rows: nat)
    ensures Durations(Paired(d, size, repetition, rowIndex), t, rows) ==
      Once(d, t, rows, repetition, size == rows)
  {
    var p := Paired(d, size, repetition, rowIndex);
    assert p[..1] == [p[0]];
    assert [p[0]][..0] == [];
    assert Durations([p[0]], t, rows) ==
      if p[0].transport == t && p[0].rows == rows then [p[0].durationMs] else [];
  }

  predicate Ascending(rowCounts: seq<nat>) {
    forall i, j :: 0 <= i < j < |rowCounts| ==> rowCounts[i] < rowCounts[j]
  }

  /** The duration of one repetition, if it was measured. */
  function Once(d: Duration, t: Transport, rows: nat, repetition: nat, measured: bool): seq<nat> {
    if measured then [d(t, rows, repetition)] else []
  }

  lemma RoundStep(d: Duration, rowCounts: seq<nat>, repetition: nat, n: nat, t: Transport, rows: nat)
    requires 0 < n <= |rowCounts|
    ensures Durations(Round(d, rowCounts, repetition, n), t, rows) ==
      Durations(Round(d, rowCounts, repetition, n - 1), t, rows) +
      Once(d, t, rows, repetition, rows == rowCounts[n - 1])
  {
    var earlier, pair := Round(d, rowCounts, repetition, n - 1), Paired(d, rowCounts[n - 1], repetition, n - 1);
    assert Round(d, rowCounts, repetition, n) == earlier + pair;
    DurationsAppend(earlier, pair, t, rows);
    PairedDurations(d, rowCounts[n - 1], repetition, n - 1, t, rows);
  }

  /** The size is one of the first n. */
  predicate Among(rowCounts: seq<nat>, n: nat, rows: nat)
    requires n <= |rowCounts|
  {
    n > 0 && (rows == rowCounts[n - 1] || Among(rowCounts, n - 1, rows))
  }

  lemma {:induction false} AmongMeans(rowCounts: seq<nat>, n: nat, rows: nat)
    requires n <= |rowCounts|
    ensures Among(rowCounts, n, rows) <==> exists i :: 0 <= i < n && rowCounts[i] == rows
  {
    if n > 0 {
      AmongMeans(rowCounts, n - 1, rows);
    }
  }

  lemma {:induction false} RoundDurations(
    d: Duration, rowCounts: seq<nat>, repetition: nat, n: nat, t: Transport, rows: nat)
    requires Ascending(rowCounts) && n <= |rowCounts|
    ensures Durations(Round(d, rowCounts, repetition, n), t, rows) ==
      Once(d, t, rows, repetition, Among(rowCounts, n, rows))
  {
    if n > 0 {
      RoundDurations(d, rowCounts, repetition, n - 1, t, rows);
      RoundStep(d, rowCounts, repetition, n, t, rows);
      AmongMeans(rowCounts, n - 1, rows);
      OnceEither(d, t, rows, repetition, Among(rowCounts, n - 1, rows), rows == rowCounts[n - 1]);
    }
  }

  lemma OnceEither(d: Duration, t: Transport, rows: nat, repetition: nat, p: bool, q: bool)
    requires !(p && q)
    ensures Once(d, t, rows, repetition, p) + Once(d, t, rows, repetition, q) == Once(d, t, rows, repetition, p || q)
  {
  }

  /** The durations of repetitions 0 to n - 1. */
  function Table(d: Duration, t: Transport, rows: nat, n: nat): (s: seq<nat>)
    ensures |s| == n && forall k :: 0 <= k < n ==> s[k] == d(t, rows, k)
  {
    if n == 0 then [] else Table(d, t, rows, n - 1) + [d(t, rows, n - 1)]
  }

  /** The durations of n repetitions, if they were measured. */
  function Repeated(d: Duration, t: Transport, rows: nat, n: nat, measured: bool): seq<nat> {
    if measured then Table(d, t, rows, n) else []
  }

  lemma RepeatedGrows(d: Duration, t: Transport, rows: nat, n: nat, measured: bool)
    ensures Repeated(d, t, rows, n + 1, measured) == Repeated(d, t, rows, n, measured) + Once(d, t, rows, n, measured)
  {
  }

  lemma ScheduleStep(d: Duration, rowCounts: seq<nat>, repetitions: nat, t: Transport, rows: nat)
    requires Ascending(rowCounts)
    ensures Durations(Schedule(d, rowCounts, repetitions + 1), t, rows) ==
      Durations(Schedule(d, rowCounts, repetitions), t, rows) + Once(d, t, rows, repetitions, rows in rowCounts)
  {
    var earlier, round := Schedule(d, rowCounts, repetitions), Round(d, rowCounts, repetitions, |rowCounts|);
    assert Schedule(d, rowCounts, repetitions + 1) == earlier + round;
    DurationsAppend(earlier, round, t, rows);
    RoundDurations(d, rowCounts, repetitions, |rowCounts|, t, rows);
    AmongMeans(rowCounts, |rowCounts|, rows);
  }

  /** One sample per transport, size and repetition: a size's durations are its repetitions', each once. */
  lemma {:induction false} OneSampleEach(d: Duration, rowCounts: seq<nat>, repetitions: nat, t: Transport, rows: nat)
    requires Ascending(rowCounts)
    ensures Durations(Schedule(d, rowCounts, repetitions), t, rows) ==
      Repeated(d, t, rows, repetitions, rows in rowCounts)
  {
    if repetitions > 0 {
      var n: nat := repetitions - 1;
      OneSampleEach(d, rowCounts, n, t, rows);
      ScheduleStep(d, rowCounts, n, t, rows);
      RepeatedGrows(d, t, rows, n, rows in rowCounts);
    }
  }

  // ---------------------------------------------------------------- balance

  /** In how many of the consecutive pairs of samples a transport goes first at this size. */
  function Leads(samples: seq<Sample>, t: Transport, rows: nat): nat {
    if |samples| < 2 then 0 else
      var n := |samples| - 2;
      Leads(samples[..n], t, rows) + if samples[n].transport == t && samples[n].rows == rows then 1 else 0
  }

  lemma {:induction false} LeadsAppend(a: seq<Sample>, b: seq<Sample>, t: Transport, rows: nat)
    requires |b| % 2 == 0
    ensures Leads(a + b, t, rows) == Leads(a, t, rows) + Leads(b, t, rows)
    decreases |b|
  {
    if b == [] {
      assert a + b == a;
    } else {
      var n := |b| - 2;
      var all := a + b;
      assert all[..|all| - 2] == a + b[..n] && all[|all| - 2] == b[n];
      LeadsAppend(a, b[..n], t, rows);
    }
  }

  lemma PairLeads(d: Duration, size: nat, repetition: nat, rowIndex: nat, t: Transport, rows: nat)
    ensures Leads(Paired(d, size, repetition, rowIndex), t, rows) ==
      if size == rows && (t == Copy <==> CopyFirst(repetition, rowIndex)) then 1 else 0
  {
    var pair := Paired(d, size, repetition, rowIndex);
    assert Leads(pair[..0], t, rows) == 0;
  }

  lemma {:induction false} RoundLength(d: Duration, rowCounts: seq<nat>, repetition: nat, n: nat)
    requires n <= |rowCounts|
    ensures |Round(d, rowCounts, repetition, n)| == 2 * n
  {
    if n > 0 {
      RoundLength(d, rowCounts, repetition, n - 1);
    }
  }

  lemma {:induction false} RoundLeads(
    d: Duration, rowCounts: seq<nat>, repetition: nat, n: nat, t: Transport, rowIndex: nat)
    requires Ascending(rowCounts) && n <= |rowCounts| && rowIndex < |rowCounts|
    ensures Leads(Round(d, rowCounts, repetition, n), t, rowCounts[rowIndex]) ==
      if rowIndex < n && (t == Copy <==> CopyFirst(repetition, rowIndex)) then 1 else 0
  {
    hide CopyFirst, Paired, Leads;
    if n > 0 {
      var rows := rowCounts[rowIndex];
      var earlier, pair := Round(d, rowCounts, repetition, n - 1), Paired(d, rowCounts[n - 1], repetition, n - 1);
      RoundLeads(d, rowCounts, repetition, n - 1, t, rowIndex);
      PairLength(d, rowCounts[n - 1], repetition, n - 1);
      LeadsAppend(earlier, pair, t, rows);
      PairLeads(d, rowCounts[n - 1], repetition, n - 1, t, rows);
    } else {
      NoLeads(t, rowCounts[rowIndex]);
    }
  }

  lemma NoLeads(t: Transport, rows: nat)
    ensures Leads([], t, rows) == 0
  {
  }

  lemma PairLength(d: Duration, size: nat, repetition: nat, rowIndex: nat)
    ensures |Paired(d, size, repetition, rowIndex)| == 2
  {
  }

  /** Over the schedule the two orders of a size occur equally often, up to the one an odd repetition count forces. */
  lemma {:induction false} OrdersBalanced(d: Duration, rowCounts: seq<nat>, repetitions: nat, rowIndex: nat)
    requires Ascending(rowCounts) && rowIndex < |rowCounts|
    ensures var samples, rows := Schedule(d, rowCounts, repetitions), rowCounts[rowIndex];
      Leads(samples, Copy, rows) + Leads(samples, Direct, rows) == repetitions &&
      Leads(samples, Copy, rows) - Leads(samples, Direct, rows) ==
        if repetitions % 2 == 0 then 0 else if rowIndex % 2 == 0 then 1 else -1
  {
    hide Leads, Round;
    var rows := rowCounts[rowIndex];
    if repetitions == 0 {
      NoLeads(Copy, rows);
      NoLeads(Direct, rows);
    } else {
      var n: nat := repetitions - 1;
      var earlier, round := Schedule(d, rowCounts, n), Round(d, rowCounts, n, |rowCounts|);
      OrdersBalanced(d, rowCounts, n, rowIndex);
      RoundLength(d, rowCounts, n, |rowCounts|);
      LeadsAppend(earlier, round, Copy, rows);
      LeadsAppend(earlier, round, Direct, rows);
      RoundLeads(d, rowCounts, n, |rowCounts|, Copy, rowIndex);
      RoundLeads(d, rowCounts, n, |rowCounts|, Direct, rowIndex);
    }
  }

  // ---------------------------------------------------------------- medians

  function Insert(x: nat, s: seq<nat>): seq<nat> {
    if s == [] || x <= s[0] then [x] + s else [s[0]] + Insert(x, s[1..])
  }

  function Sort(s: seq<nat>): seq<nat> {
    if s == [] then [] else Insert(s[0], Sort(s[1..]))
  }

  predicate Ordered(s: seq<nat>) {
    forall i, j :: 0 <= i < j < |s| ==> s[i] <= s[j]
  }

  lemma {:induction false} InsertCorrect(x: nat, s: seq<nat>)
    requires Ordered(s)
    ensures Ordered(Insert(x, s))
  {
    if s != [] && x > s[0] {
      InsertCorrect(x, s[1..]);
      var rest := Insert(x, s[1..]);
      forall i | 0 <= i < |rest|
        ensures s[0] <= rest[i]
      {
        InsertMember(x, s[1..], rest[i]);
      }
    }
  }

  lemma {:induction false} InsertMember(x: nat, s: seq<nat>, y: nat)
    requires y in Insert(x, s)
    ensures y == x || y in s
  {
    if s != [] && x > s[0] && y != s[0] {
      assert y in Insert(x, s[1..]);
      InsertMember(x, s[1..], y);
    }
  }

  lemma {:induction false} InsertKeeps(x: nat, s: seq<nat>)
    ensures multiset(Insert(x, s)) == multiset(s) + multiset{x} && |Insert(x, s)| == |s| + 1
  {
    if s != [] && x > s[0] {
      InsertKeeps(x, s[1..]);
      assert s == [s[0]] + s[1..];
    }
  }

  lemma {:induction false} SortCorrect(s: seq<nat>)
    ensures Ordered(Sort(s)) && multiset(Sort(s)) == multiset(s) && |Sort(s)| == |s|
  {
    if s != [] {
      SortCorrect(s[1..]);
      InsertCorrect(s[0], Sort(s[1..]));
      InsertKeeps(s[0], Sort(s[1..]));
      assert s == [s[0]] + s[1..];
    }
  }

  /** statistics.median of an odd number of values: the middle one. */
  function Median(s: seq<nat>): nat
    requires |s| % 2 == 1
  {
    SortCorrect(s);
    Sort(s)[|s| / 2]
  }

  function AtMost(s: seq<nat>, m: nat): nat {
    if s == [] then 0 else (if s[0] <= m then 1 else 0) + AtMost(s[1..], m)
  }

  function AtLeast(s: seq<nat>, m: nat): nat {
    if s == [] then 0 else (if s[0] >= m then 1 else 0) + AtLeast(s[1..], m)
  }

  lemma {:induction false} CountsPermuted(a: seq<nat>, b: seq<nat>, m: nat)
    requires multiset(a) == multiset(b)
    ensures AtMost(a, m) == AtMost(b, m) && AtLeast(a, m) == AtLeast(b, m)
    decreases |a|
  {
    SameMembers(a, b);
    if a != [] {
      var k := RemoveHead(a, b);
      CountsPermuted(a[1..], b[..k] + b[k + 1..], m);
      CountsSplit(b[..k], b[k + 1..], m);
      CountsSplit(b[..k], [a[0]] + b[k + 1..], m);
      assert b == b[..k] + ([a[0]] + b[k + 1..]);
      assert ([a[0]] + b[k + 1..])[1..] == b[k + 1..];
    }
  }

  lemma {:induction false} CountsSplit(a: seq<nat>, b: seq<nat>, m: nat)
    ensures AtMost(a + b, m) == AtMost(a, m) + AtMost(b, m)
    ensures AtLeast(a + b, m) == AtLeast(a, m) + AtLeast(b, m)
  {
    if a == [] {
      assert a + b == b;
    } else {
      CountsSplit(a[1..], b, m);
      assert (a + b)[1..] == a[1..] + b;
    }
  }

  lemma {:induction false} CountsOfOrdered(s: seq<nat>, k: nat)
    requires Ordered(s) && k < |s|
    ensures AtMost(s, s[k]) >= k + 1 && AtLeast(s, s[k]) >= |s| - k
  {
    CountsSplit(s[..k + 1], s[k + 1..], s[k]);
    assert s == s[..k + 1] + s[k + 1..];
    AllAtMost(s[..k + 1], s[k]);
    CountsSplit(s[..k], s[k..], s[k]);
    assert s == s[..k] + s[k..];
    AllAtLeast(s[k..], s[k]);
  }

  lemma {:induction false} AllAtMost(s: seq<nat>, m: nat)
    requires forall i :: 0 <= i < |s| ==> s[i] <= m
    ensures AtMost(s, m) == |s|
  {
    if s != [] {
      AllAtMost(s[1..], m);
    }
  }

  lemma {:induction false} AllAtLeast(s: seq<nat>, m: nat)
    requires forall i :: 0 <= i < |s| ==> s[i] >= m
    ensures AtLeast(s, m) == |s|
  {
    if s != [] {
      AllAtLeast(s[1..], m);
    }
  }

  /** The median is a measured value with more than half the values on each side of it, itself included. */
  lemma MedianCentral(s: seq<nat>)
    requires |s| % 2 == 1
    ensures Median(s) in s && 2 * AtMost(s, Median(s)) > |s| && 2 * AtLeast(s, Median(s)) > |s|
  {
    SortCorrect(s);
    SameMembers(Sort(s), s);
    CountsOfOrdered(Sort(s), |s| / 2);
    CountsPermuted(Sort(s), s, Median(s));
  }

  lemma {:induction false} CountsComplement(s: seq<nat>, low: nat, high: nat)
    requires low < high
    ensures AtMost(s, low) + AtLeast(s, high) <= |s|
  {
    if s != [] {
      CountsComplement(s[1..], low, high);
    }
  }

  /** No other value is central: the two counts determine the median. */
  lemma MedianUnique(s: seq<nat>, m: nat)
    requires |s| % 2 == 1 && 2 * AtMost(s, m) > |s| && 2 * AtLeast(s, m) > |s|
    ensures m == Median(s)
  {
    MedianCentral(s);
    if m < Median(s) {
      CountsComplement(s, m, Median(s));
    } else if Median(s) < m {
      CountsComplement(s, Median(s), m);
    }
  }

  /** With an odd number of repetitions every median of the schedule is the middle of exactly that many durations. */
  lemma ScheduleMedian(d: Duration, rowCounts: seq<nat>, repetitions: nat, t: Transport, rows: nat)
    requires Ascending(rowCounts) && repetitions % 2 == 1 && rows in rowCounts
    ensures var s := Durations(Schedule(d, rowCounts, repetitions), t, rows);
      |s| == repetitions && 2 * AtMost(s, Median(s)) > repetitions && 2 * AtLeast(s, Median(s)) > repetitions
  {
    OneSampleEach(d, rowCounts, repetitions, t, rows);
    MedianCentral(Durations(Schedule(d, rowCounts, repetitions), t, rows));
  }

  // ---------------------------------------------------------------- recommendation

  /** DIRECT is no slower than COPY at this size. */
  predicate DirectWins(medians: map<Transport, map<nat, nat>>, rows: nat)
    requires Direct in medians && Copy in medians && rows in medians[Direct] && rows in medians[Copy]
  {
    medians[Direct][rows] <= medians[Copy][rows]
  }

  ghost predicate Complete(medians: map<Transport, map<nat, nat>>, rowCounts: seq<nat>) {
    Direct in medians && Copy in medians &&
    forall rows :: rows in rowCounts ==> rows in medians[Direct] && rows in medians[Copy]
  }

  /** The last size of the longest prefix on which DIRECT wins throughout; 0 when it loses at once. */
  method RecommendedDirectMaxRows(medians: map<Transport, map<nat, nat>>, rowCounts: seq<nat>)
    returns (recommended: nat, ghost prefix: nat)
    requires Complete(medians, rowCounts)
    ensures prefix <= |rowCounts|
    ensures forall i :: 0 <= i < prefix ==> DirectWins(medians, rowCounts[i])
    ensures prefix < |rowCounts| ==> !DirectWins(medians, rowCounts[prefix])
    ensures recommended == if prefix == 0 then 0 else rowCounts[prefix - 1]
  {
    recommended, prefix := 0, 0;
    for i := 0 to |rowCounts|
      invariant prefix == i
      invariant forall j :: 0 <= j < i ==> DirectWins(medians, rowCounts[j])
      invariant recommended == if i == 0 then 0 else rowCounts[i - 1]
    {
      var rows := rowCounts[i];
      if medians[Direct][rows] > medians[Copy][rows] {
        break;
      }
      recommended, prefix := rows, i + 1;
    }
  }

  /** With ascending sizes: up to the recommendation DIRECT never loses, and the next size, if any, it loses. */
  lemma RecommendationMeans(medians: map<Transport, map<nat, nat>>, rowCounts: seq<nat>, recommended: nat, prefix: nat)
    requires Complete(medians, rowCounts) && Ascending(rowCounts) && prefix <= |rowCounts|
    requires forall rows :: rows in rowCounts ==> rows > 0
    requires forall i :: 0 <= i < prefix ==> DirectWins(medians, rowCounts[i])
    requires prefix < |rowCounts| ==> !DirectWins(medians, rowCounts[prefix])
    requires recommended == if prefix == 0 then 0 else rowCounts[prefix - 1]
    ensures forall rows :: rows in rowCounts ==>
      (rows <= recommended <==>
        forall smaller :: smaller in rowCounts && smaller <= rows ==> DirectWins(medians, smaller))
  {
    forall rows | rows in rowCounts
      ensures rows <= recommended <==>
        forall smaller :: smaller in rowCounts && smaller <= rows ==> DirectWins(medians, smaller)
    {
      var i :| 0 <= i < |rowCounts| && rowCounts[i] == rows;
      assert rows <= recommended <==> i < prefix by {
        if prefix > 0 {
          assert i < prefix - 1 ==> rowCounts[i] < rowCounts[prefix - 1];
          assert i > prefix - 1 ==> rowCounts[prefix - 1] < rowCounts[i];
        }
      }
      if i >= prefix {
        assert rowCounts[prefix] in rowCounts && rowCounts[prefix] <= rows;
      }
    }
  }

  // ---------------------------------------------------------------- the whole measurement

  /** The admissible configurations: positive ascending sizes and an odd number, at least three, of repetitions. */
  ghost predicate ValidConfig(rowCounts: seq<nat>, repetitions: nat) {
    rowCounts != [] && Ascending(rowCounts) && (forall rows :: rows in rowCounts ==> rows > 0) &&
    repetitions >= 3 && repetitions % 2 == 1
  }

  function MedianTable(samples: seq<Sample>, rowCounts: seq<nat>, t: Transport): map<nat, nat>
    requires forall rows :: rows in rowCounts ==> |Durations(samples, t, rows)| % 2 == 1
  {
    map rows | rows in rowCounts :: Median(Durations(samples, t, rows))
  }

  /** The middle duration of one transport at one size. */
  ghost function Typical(d: Duration, t: Transport, rows: nat, repetitions: nat): nat
    requires repetitions % 2 == 1
  {
    Median(Table(d, t, rows, repetitions))
  }

  ghost predicate TypicallyDirect(d: Duration, rows: nat, repetitions: nat)
    requires repetitions % 2 == 1
  {
    Typical(d, Direct, rows, repetitions) <= Typical(d, Copy, rows, repetitions)
  }

  /** DIRECT is typically no slower at this size and at every smaller one. */
  ghost predicate DirectUpTo(d: Duration, rowCounts: seq<nat>, rows: nat, repetitions: nat)
    requires repetitions % 2 == 1
  {
    forall smaller :: smaller in rowCounts && smaller <= rows ==> TypicallyDirect(d, smaller, repetitions)
  }

  /** Measure, take medians, recommend: a tested size is within the recommendation iff DIRECT holds up to it. */
  method Recommend(d: Duration, g: Digest, rowCounts: seq<nat>, repetitions: nat) returns (r: Option<nat>)
    requires ValidConfig(rowCounts, repetitions)
    ensures r.Some? <==> forall k :: 0 <= k < repetitions ==> RoundEqual(g, rowCounts, k, |rowCounts|)
    ensures r.Some? ==> r.value == 0 || r.value in rowCounts
    ensures r.Some? ==> forall rows :: rows in rowCounts ==>
      (rows <= r.value <==> DirectUpTo(d, rowCounts, rows, repetitions))
  {
    var measured := RunCrossover(d, g, rowCounts, repetitions);
    if measured.None? {
      return None;
    }
    var samples := measured.value;
    forall t: Transport, rows | rows in rowCounts
      ensures Durations(samples, t, rows) == Table(d, t, rows, repetitions)
    {
      OneSampleEach(d, rowCounts, repetitions, t, rows);
    }
    var medians := map t: Transport | t in {Copy, Direct} :: MedianTable(samples, rowCounts, t);
    var recommended, prefix := RecommendedDirectMaxRows(medians, rowCounts);
    RecommendationMeans(medians, rowCounts, recommended, prefix);
    forall rows | rows in rowCounts
      ensures DirectWins(medians, rows) == TypicallyDirect(d, rows, repetitions)
    {
    }
    return Some(recommended);
  }
}
