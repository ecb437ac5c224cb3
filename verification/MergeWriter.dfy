/** The keyed merge of the PostgreSQL writer, and writing a record stream to it in batches. */
module MergeWriter {
  import opened Wrappers
  import opened Bags

  /** A row, incoming or stored; its cursor may be NULL. */
  datatype Record = Record(id: string, payload: string, cursor: Option<int>)

  type Table = map<string, Record>

  /** With a cursor field, a row is replaced when its cursor is NULL or not larger than the incoming one. */
  predicate Replaces(incoming: Record, current: Record, guarded: bool) {
    guarded ==>
      current.cursor.None? || (incoming.cursor.Some? && incoming.cursor.value >= current.cursor.value)
  }

  /** With a cursor field, no record may come without a cursor. */
  predicate Admitted(records: seq<Record>, guarded: bool) {
    guarded ==> forall r :: r in records ==> r.cursor.Some?
  }

  // ---------------------------------------------------------------- one statement

  /** Deduplication by id, largest cursor first when guarded, then latest first: the record kept for an id. */
  function Winner(batch: seq<Record>, id: string, guarded: bool): Option<Record> {
    if batch == [] then None
    else
      var last := batch[|batch| - 1];
      var w := Winner(batch[..|batch| - 1], id, guarded);
      if last.id == id && (w.None? || Replaces(last, w.value, guarded)) then Some(last) else w
  }

  function Ids(batch: seq<Record>): set<string> {
    set r | r in batch :: r.id
  }

  predicate Accepts(table: Table, r: Record, guarded: bool) {
    r.id !in table || Replaces(r, table[r.id], guarded)
  }

  /** Whether the merge inserts or updates this id. */
  predicate Touches(table: Table, batch: seq<Record>, id: string, guarded: bool) {
    var w := Winner(batch, id, guarded);
    w.Some? && (id !in table || Replaces(w.value, table[id], guarded))
  }

  /** The deduplicated insert-or-update: the table after one batch. */
  function Merged(table: Table, batch: seq<Record>, guarded: bool): Table {
    table + map id | id in Ids(batch) && Touches(table, batch, id, guarded) :: Winner(batch, id, guarded).value
  }

  /** The number of rows the merge reports as affected. */
  function Affected(table: Table, batch: seq<Record>, guarded: bool): nat {
    |set id | id in Ids(batch) && Touches(table, batch, id, guarded)|
  }

  lemma {:induction false} WinnerExists(batch: seq<Record>, id: string, guarded: bool)
    ensures Winner(batch, id, guarded).Some? <==> id in Ids(batch)
    ensures Winner(batch, id, guarded).Some? ==>
      Winner(batch, id, guarded).value in batch && Winner(batch, id, guarded).value.id == id
  {
    if batch != [] {
      var n := |batch| - 1;
      WinnerExists(batch[..n], id, guarded);
      assert batch == batch[..n] + [batch[n]];
      assert Ids(batch) == Ids(batch[..n]) + {batch[n].id};
    }
  }

  /** The winner is the latest of its id's records with the largest cursor (with no cursor: simply the latest). */
  lemma {:induction false} WinnerIsGreatest(batch: seq<Record>, id: string, guarded: bool) returns (i: nat)
    requires Winner(batch, id, guarded).Some? && Admitted(batch, guarded)
    ensures i < |batch| && batch[i] == Winner(batch, id, guarded).value && batch[i].id == id
    ensures forall j :: 0 <= j < |batch| && batch[j].id == id ==>
      if guarded then
        batch[j].cursor.value < batch[i].cursor.value || (batch[j].cursor == batch[i].cursor && j <= i)
      else j <= i
    decreases |batch|
  {
    var n := |batch| - 1;
    var w := Winner(batch[..n], id, guarded);
    if w.Some? {
      i := WinnerIsGreatest(batch[..n], id, guarded);
    } else {
      WinnerExists(batch[..n], id, guarded);
      assert forall j :: 0 <= j < n ==> batch[..n][j] in batch[..n];
    }
    if batch[n].id == id && (w.None? || Replaces(batch[n], w.value, guarded)) {
      assert forall j :: 0 <= j < n ==> batch[..n][j] == batch[j];
      i := n;
    } else {
      assert forall j :: 0 <= j < n ==> batch[..n][j] == batch[j];
    }
  }

  // ---------------------------------------------------------------- one record at a time

  /** The simplest writer: one guarded upsert per record. */
  function Upserted(table: Table, r: Record, guarded: bool): Table {
    if Accepts(table, r, guarded) then table[r.id := r] else table
  }

  function UpsertedAll(table: Table, records: seq<Record>, guarded: bool): Table {
    if records == [] then table
    else Upserted(UpsertedAll(table, records[..|records| - 1], guarded), records[|records| - 1], guarded)
  }

  /** Deduplicating a batch and merging it once is the same as upserting its records one by one. */
  lemma {:induction false} MergeIsUpsertFold(table: Table, batch: seq<Record>, guarded: bool)
    ensures Merged(table, batch, guarded) == UpsertedAll(table, batch, guarded)
  {
    if batch != [] {
      var n := |batch| - 1;
      MergeIsUpsertFold(table, batch[..n], guarded);
      MergeOneMore(table, batch, guarded);
    }
  }

  function At(table: Table, id: string): Option<Record> {
    if id in table then Some(table[id]) else None
  }

  lemma MergedAt(table: Table, batch: seq<Record>, id: string, guarded: bool)
    ensures At(Merged(table, batch, guarded), id) ==
      if Touches(table, batch, id, guarded) then Winner(batch, id, guarded) else At(table, id)
  {
    WinnerExists(batch, id, guarded);
  }

  lemma SameTable(a: Table, b: Table)
    requires forall id :: At(a, id) == At(b, id)
    ensures a == b
  {
    forall id
      ensures id in a <==> id in b
      ensures id in a && id in b ==> a[id] == b[id]
    {
      assert At(a, id) == At(b, id);
    }
  }

  lemma MergeOneMore(table: Table, batch: seq<Record>, guarded: bool)
    requires batch != []
    ensures Merged(table, batch, guarded) ==
      Upserted(Merged(table, batch[..|batch| - 1], guarded), batch[|batch| - 1], guarded)
  {
    var n := |batch| - 1;
    var last, before := batch[n], Merged(table, batch[..n], guarded);
    forall id
      ensures At(Merged(table, batch, guarded), id) == At(Upserted(before, last, guarded), id)
    {
      MergedAt(table, batch, id, guarded);
      MergedAt(table, batch[..n], id, guarded);
      WinnerExists(batch[..n], id, guarded);
    }
    SameTable(Merged(table, batch, guarded), Upserted(before, last, guarded));
  }

  lemma {:induction false} UpsertedAllAppend(table: Table, a: seq<Record>, b: seq<Record>, guarded: bool)
    ensures UpsertedAll(table, a + b, guarded) == UpsertedAll(UpsertedAll(table, a, guarded), b, guarded)
    decreases |b|
  {
    if b == [] {
      assert a + b == a;
    } else {
      var n := |b| - 1;
      UpsertedAllAppend(table, a, b[..n], guarded);
      assert (a + b)[..|a + b| - 1] == a + b[..n];
    }
  }

  /** Writing the same records again changes nothing. */
  lemma ReplayIsNoOp(table: Table, records: seq<Record>, guarded: bool)
    ensures var once := UpsertedAll(table, records, guarded); UpsertedAll(once, records, guarded) == once
  {
    var once := UpsertedAll(table, records, guarded);
    MergeIsUpsertFold(table, records, guarded);
    MergeIsUpsertFold(once, records, guarded);
    forall id | id in once.Keys + Ids(records)
      ensures id in once && Merged(once, records, guarded)[id] == once[id]
    {
      WinnerExists(records, id, guarded);
    }
    assert Merged(once, records, guarded) == once;
  }

  /** One record affects its row, and then replaces it, unless the stored cursor is known and larger. */
  lemma RegressionRejected(table: Table, r: Record)
    requires r.cursor.Some?
    ensures var regresses :=
        r.id in table && table[r.id].cursor.Some? && r.cursor.value < table[r.id].cursor.value;
      Affected(table, [r], true) == (if regresses then 0 else 1) &&
      Merged(table, [r], true) == if regresses then table else table[r.id := r]
  {
    MergeIsUpsertFold(table, [r], true);
    assert [r][..0] == [];
    assert UpsertedAll(table, [], true) == table;
    assert Ids([r]) == {r.id};
    WinnerExists([r], r.id, true);
    assert (set id | id in Ids([r]) && Touches(table, [r], id, true)) ==
      if Touches(table, [r], r.id, true) then {r.id} else {};
  }

  // ---------------------------------------------------------------- batches

  class Writer {
    const guarded: bool
    var table: Table
    var batches: seq<seq<Record>>

    constructor (guarded: bool)
      ensures this.guarded == guarded && table == map[] && batches == []
    {
      this.guarded, table, batches := guarded, map[], [];
    }

    /** A batch that lacks a cursor is refused and leaves no trace; any other is merged. */
    method Write(batch: seq<Record>) returns (affected: Option<nat>)
      modifies this
      ensures affected.Some? <==> Admitted(batch, guarded)
      ensures affected.None? ==> table == old(table) && batches == old(batches)
      ensures affected.Some? ==> table == Merged(old(table), batch, guarded)
      ensures affected.Some? ==> affected.value == Affected(old(table), batch, guarded)
      ensures affected.Some? ==> batches == old(batches) + [batch]
    {
      if guarded && exists r :: r in batch && r.cursor.None? {
        return None;
      }
      affected := Some(Affected(table, batch, guarded));
      table := Merged(table, batch, guarded);
      batches := batches + [batch];
    }
  }

  /** The sum of the counts the writer returns for these batches in turn. */
  function TotalAffected(table: Table, batches: seq<seq<Record>>, guarded: bool): nat {
    if batches == [] then 0 else
      var n := |batches| - 1;
      TotalAffected(table, batches[..n], guarded) +
      Affected(UpsertedAll(table, Flatten(batches[..n]), guarded), batches[n], guarded)
  }

  ghost predicate FullBatches(batches: seq<seq<Record>>, size: nat) {
    forall i :: 0 <= i < |batches| ==> 0 < |batches[i]| <= size && (i < |batches| - 1 ==> |batches[i]| == size)
  }

  ghost predicate AllFull(batches: seq<seq<Record>>, size: nat) {
    forall i :: 0 <= i < |batches| ==> |batches[i]| == size
  }

  lemma FullStep(batches: seq<seq<Record>>, batch: seq<Record>, size: nat)
    requires AllFull(batches, size) && 0 < |batch| <= size
    ensures FullBatches(batches + [batch], size)
    ensures |batch| == size ==> AllFull(batches + [batch], size)
  {
  }

  lemma Regrouped<T>(a: seq<T>, b: seq<T>, c: seq<T>)
    ensures a + (b + c) == a + b + c
  {
  }

  /** The next records of a stream, up to this many. */
  function NextSlice(records: seq<Record>, size: nat): seq<Record> {
    records[..if size <= |records| then size else |records|]
  }

  /** Taking the next records from the stream: what is taken, and what the stream has left. */
  method TakeSlice(records: seq<Record>, size: nat) returns (batch: seq<Record>, rest: seq<Record>)
    ensures records == batch + rest && batch == NextSlice(records, size)
    ensures |batch| == size || rest == []
  {
    var n := if size <= |records| then size else |records|;
    return records[..n], records[n..];
  }

  lemma AdmittedParts(a: seq<Record>, b: seq<Record>, guarded: bool)
    ensures Admitted(a + b, guarded) <==> Admitted(a, guarded) && Admitted(b, guarded)
  {
  }

  /**
   Batches are written in order, all full except possibly the last, up to the first that lacks a cursor; the table is
   the batch-size-free fold of what was written.
  */
  method WriteBatches(writer: Writer, records: seq<Record>, batchRows: nat)
    returns (affected: Option<nat>, ghost written: seq<Record>)
    requires batchRows > 0
    modifies writer
    ensures affected.Some? <==> Admitted(records, writer.guarded)
    ensures written <= records && Admitted(written, writer.guarded)
    ensures writer.table == UpsertedAll(old(writer.table), written, writer.guarded)
    ensures old(writer.batches) <= writer.batches
    ensures Flatten(writer.batches[|old(writer.batches)|..]) == written
    ensures affected.Some? ==>
      var batches := writer.batches[|old(writer.batches)|..];
      written == records && FullBatches(batches, batchRows) &&
      affected.value == TotalAffected(old(writer.table), batches, writer.guarded)
    ensures affected.None? ==>
      AllFull(writer.batches[|old(writer.batches)|..], batchRows) &&
      !Admitted(NextSlice(records[|written|..], batchRows), writer.guarded)
  {
    var total := 0;
    ghost var batches: seq<seq<Record>> := [];
    written := [];
    var remaining := records;
    while true
      invariant records == written + remaining && Flatten(batches) == written && Admitted(written, writer.guarded)
      invariant writer.batches == old(writer.batches) + batches
      invariant remaining != [] ==> AllFull(batches, batchRows)
      invariant FullBatches(batches, batchRows)
      invariant writer.table == UpsertedAll(old(writer.table), written, writer.guarded)
      invariant total == TotalAffected(old(writer.table), batches, writer.guarded)
      decreases |remaining|
    {
      var batch, rest := TakeSlice(remaining, batchRows);
      if batch == [] {
        break;
      }
      BatchStep(old(writer.table), batches, batch, written, writer.guarded);
      FullStep(batches, batch, batchRows);
      Regrouped(written, batch, rest);
      Regrouped(old(writer.batches), batches, [batch]);
      AdmittedParts(written, batch, writer.guarded);
      AdmittedParts(written + batch, rest, writer.guarded);
      assert records[|written|..] == remaining;
      var count := writer.Write(batch);
      if count.None? {
        return None, written;
      }
      total := total + count.value;
      batches, written := batches + [batch], written + batch;
      remaining := rest;
    }
    assert written == records;
    return Some(total), written;
  }

  lemma BatchStep(table: Table, batches: seq<seq<Record>>, batch: seq<Record>, done: seq<Record>, guarded: bool)
    requires Flatten(batches) == done
    ensures Flatten(batches + [batch]) == done + batch
    ensures UpsertedAll(table, done + batch, guarded) == Merged(UpsertedAll(table, done, guarded), batch, guarded)
    ensures TotalAffected(table, batches + [batch], guarded) ==
      TotalAffected(table, batches, guarded) + Affected(UpsertedAll(table, done, guarded), batch, guarded)
  {
    FlattenAppend(batches, batch);
    UpsertedAllAppend(table, done, batch, guarded);
    MergeIsUpsertFold(UpsertedAll(table, done, guarded), batch, guarded);
    assert (batches + [batch])[..|batches|] == batches;
  }

  // ---------------------------------------------------------------- streams without repeated ids

  predicate DistinctIds(records: seq<Record>) {
    forall i, j :: 0 <= i < j < |records| ==> records[i].id != records[j].id
  }

  /** The table holds r under its id. */
  predicate Stores(table: Table, r: Record) {
    At(table, r.id) == Some(r)
  }

  /** A stream of distinct, accepted records ends with exactly those records stored over the old table. */
  lemma {:induction false} DistinctUpserts(table: Table, records: seq<Record>, guarded: bool)
    requires DistinctIds(records) && forall r :: r in records ==> Accepts(table, r, guarded)
    ensures forall r :: r in records ==> Stores(UpsertedAll(table, records, guarded), r)
    ensures forall id :: id !in Ids(records) ==> At(UpsertedAll(table, records, guarded), id) == At(table, id)
  {
    if records != [] {
      var n := |records| - 1;
      assert records == records[..n] + [records[n]];
      assert Ids(records) == Ids(records[..n]) + {records[n].id};
      DistinctUpserts(table, records[..n], guarded);
      assert forall r :: r in records[..n] ==> r.id != records[n].id;
      assert At(UpsertedAll(table, records[..n], guarded), records[n].id) == At(table, records[n].id);
    }
  }

  /** Distinct accepted records are each counted once, whatever the batching. */
  lemma {:induction false} DistinctAffected(table: Table, batches: seq<seq<Record>>, guarded: bool)
    requires DistinctIds(Flatten(batches)) && forall r :: r in Flatten(batches) ==> Accepts(table, r, guarded)
    ensures TotalAffected(table, batches, guarded) == |Flatten(batches)|
    decreases |batches|
  {
    if batches != [] {
      var n := |batches| - 1;
      var done, last := Flatten(batches[..n]), batches[n];
      assert batches == batches[..n] + [last];
      FlattenAppend(batches[..n], last);
      var all := done + last;
      assert forall i :: 0 <= i < |done| ==> all[i] == done[i];
      assert forall i :: 0 <= i < |last| ==> all[|done| + i] == last[i];
      assert forall r :: r in done ==> r in all;
      DistinctAffected(table, batches[..n], guarded);
      DistinctUpserts(table, done, guarded);
      forall r | r in last
        ensures Accepts(UpsertedAll(table, done, guarded), r, guarded)
      {
        assert r in all;
        var j :| 0 <= j < |last| && last[j] == r;
        forall i | 0 <= i < |done|
          ensures done[i].id != r.id
        {
          assert all[i].id != all[|done| + j].id;
        }
        assert At(UpsertedAll(table, done, guarded), r.id) == At(table, r.id);
        assert Accepts(table, r, guarded);
      }
      AllAffected(UpsertedAll(table, done, guarded), last, guarded);
    }
  }

  lemma AllAffected(table: Table, batch: seq<Record>, guarded: bool)
    requires DistinctIds(batch) && forall r :: r in batch ==> Accepts(table, r, guarded)
    ensures Affected(table, batch, guarded) == |batch|
  {
    forall id | id in Ids(batch)
      ensures Touches(table, batch, id, guarded)
    {
      WinnerExists(batch, id, guarded);
    }
    assert (set id | id in Ids(batch) && Touches(table, batch, id, guarded)) == Ids(batch);
    IdsSize(batch);
  }

  lemma {:induction false} IdsSize(batch: seq<Record>)
    requires DistinctIds(batch)
    ensures |Ids(batch)| == |batch|
  {
    if batch == [] {
      assert Ids(batch) == {};
    } else {
      var n := |batch| - 1;
      IdsSize(batch[..n]);
      assert batch == batch[..n] + [batch[n]];
      assert Ids(batch) == Ids(batch[..n]) + {batch[n].id};
      assert forall r :: r in batch[..n] ==> r.id != batch[n].id;
    }
  }

  // ---------------------------------------------------------------- when the count depends on the batch size

  /** The ids of the records a one-by-one writer accepts, in order. */
  function AcceptedIds(table: Table, records: seq<Record>, guarded: bool): seq<string> {
    if records == [] then [] else
      var n := |records| - 1;
      AcceptedIds(table, records[..n], guarded) +
      if Accepts(UpsertedAll(table, records[..n], guarded), records[n], guarded) then [records[n].id] else []
  }

  predicate NoRepeats(ids: seq<string>) {
    forall i, j :: 0 <= i < j < |ids| ==> ids[i] != ids[j]
  }

  function Members(ids: seq<string>): set<string> {
    set id | id in ids
  }

  lemma {:induction false} MembersSize(ids: seq<string>)
    ensures |Members(ids)| <= |ids|
    ensures |Members(ids)| == |ids| <==> NoRepeats(ids)
  {
    if ids == [] {
      assert Members(ids) == {};
    } else {
      var n := |ids| - 1;
      MembersSize(ids[..n]);
      assert ids == ids[..n] + [ids[n]];
      assert Members(ids) == Members(ids[..n]) + {ids[n]};
      assert forall i :: 0 <= i < n ==> ids[..n][i] == ids[i];
      assert ids[n] in Members(ids[..n]) <==> exists i :: 0 <= i < n && ids[i] == ids[n];
    }
  }

  lemma {:induction false} AcceptedIdsAppend(table: Table, a: seq<Record>, b: seq<Record>, guarded: bool)
    ensures AcceptedIds(table, a + b, guarded) ==
      AcceptedIds(table, a, guarded) + AcceptedIds(UpsertedAll(table, a, guarded), b, guarded)
    decreases |b|
  {
    hide Accepts, Upserted;
    if b == [] {
      assert a + b == a;
    } else {
      var n := |b| - 1;
      var all := a + b;
      assert all[..|all| - 1] == a + b[..n] && all[|all| - 1] == b[n];
      AcceptedIdsAppend(table, a, b[..n], guarded);
      UpsertedAllAppend(table, a, b[..n], guarded);
    }
  }

  /** A merge touches exactly the ids of which the one-by-one writer accepts a record. */
  lemma {:induction false} TouchesAccepted(table: Table, batch: seq<Record>, id: string, guarded: bool)
    ensures Touches(table, batch, id, guarded) <==> id in AcceptedIds(table, batch, guarded)
  {
    if batch != [] {
      var n := |batch| - 1;
      TouchesAccepted(table, batch[..n], id, guarded);
      MergedAt(table, batch[..n], batch[n].id, guarded);
      MergeIsUpsertFold(table, batch[..n], guarded);
      WinnerExists(batch[..n], id, guarded);
      AcceptsByRecord(UpsertedAll(table, batch[..n], guarded), batch[n], guarded);
    }
  }

  lemma AcceptsByRecord(table: Table, r: Record, guarded: bool)
    ensures Accepts(table, r, guarded) <==>
      At(table, r.id).None? || Replaces(r, At(table, r.id).value, guarded)
  {
  }

  lemma AffectedIds(table: Table, batch: seq<Record>, guarded: bool)
    ensures Affected(table, batch, guarded) == |Members(AcceptedIds(table, batch, guarded))|
  {
    hide Touches, AcceptedIds;
    forall id
      ensures id in Ids(batch) && Touches(table, batch, id, guarded) <==> id in AcceptedIds(table, batch, guarded)
    {
      TouchesAccepted(table, batch, id, guarded);
      TouchedIsListed(table, batch, id, guarded);
    }
    assert (set id | id in Ids(batch) && Touches(table, batch, id, guarded)) ==
      Members(AcceptedIds(table, batch, guarded));
  }

  lemma TouchedIsListed(table: Table, batch: seq<Record>, id: string, guarded: bool)
    ensures Touches(table, batch, id, guarded) ==> id in Ids(batch)
  {
    WinnerExists(batch, id, guarded);
  }

  /** No batching counts more than the accepted records, and any counts them all when none repeats an id. */
  lemma {:induction false} TotalOfAccepted(table: Table, batches: seq<seq<Record>>, guarded: bool)
    ensures var accepted := AcceptedIds(table, Flatten(batches), guarded);
      TotalAffected(table, batches, guarded) <= |accepted| &&
      (NoRepeats(accepted) ==> TotalAffected(table, batches, guarded) == |accepted|)
    decreases |batches|
  {
    hide AcceptedIds, Affected, UpsertedAll;
    if batches == [] {
      NoneAccepted(table, guarded);
    } else {
      var n := |batches| - 1;
      var done, last := Flatten(batches[..n]), batches[n];
      assert batches == batches[..n] + [last];
      FlattenAppend(batches[..n], last);
      TotalOfAccepted(table, batches[..n], guarded);
      AcceptedIdsAppend(table, done, last, guarded);
      var before := AcceptedIds(table, done, guarded);
      var now := AcceptedIds(UpsertedAll(table, done, guarded), last, guarded);
      AffectedIds(UpsertedAll(table, done, guarded), last, guarded);
      MembersSize(now);
      if NoRepeats(before + now) {
        PartsDistinct(before, now);
      }
    }
  }

  lemma NoneAccepted(table: Table, guarded: bool)
    ensures AcceptedIds(table, [], guarded) == []
  {
  }

  lemma PartsDistinct(a: seq<string>, b: seq<string>)
    requires NoRepeats(a + b)
    ensures NoRepeats(a) && NoRepeats(b)
  {
    var all := a + b;
    assert forall i :: 0 <= i < |a| ==> all[i] == a[i];
    assert forall i :: 0 <= i < |b| ==> all[|a| + i] == b[i];
  }

  /** One record per batch. */
  function Singles(records: seq<Record>): (batches: seq<seq<Record>>)
    ensures |batches| == |records| && forall i :: 0 <= i < |records| ==> batches[i] == [records[i]]
  {
    seq(|records|, i requires 0 <= i < |records| => [records[i]])
  }

  lemma OneRecord(table: Table, r: Record, guarded: bool)
    ensures Affected(table, [r], guarded) == |AcceptedIds(table, [r], guarded)|
  {
    AffectedIds(table, [r], guarded);
    MembersSize(AcceptedIds(table, [r], guarded));
    assert |AcceptedIds(table, [r], guarded)| <= 1 by {
      assert [r][..0] == [];
      assert AcceptedIds(table, [], guarded) == [];
    }
  }

  /** Written one by one, every accepted record is counted. */
  lemma {:induction false} SinglesCountAll(table: Table, records: seq<Record>, guarded: bool)
    ensures Flatten(Singles(records)) == records
    ensures TotalAffected(table, Singles(records), guarded) == |AcceptedIds(table, records, guarded)|
  {
    hide AcceptedIds, Affected, UpsertedAll;
    if records == [] {
      NoneAccepted(table, guarded);
    } else {
      var n := |records| - 1;
      SinglesCountAll(table, records[..n], guarded);
      assert Singles(records) == Singles(records[..n]) + [[records[n]]];
      FlattenAppend(Singles(records[..n]), [records[n]]);
      assert records == records[..n] + [records[n]];
      AcceptedIdsAppend(table, records[..n], [records[n]], guarded);
      OneRecord(UpsertedAll(table, records[..n], guarded), records[n], guarded);
      assert Singles(records)[..n] == Singles(records[..n]);
    }
  }

  /** The batches of this size that a stream is written in. */
  ghost predicate Batching(batches: seq<seq<Record>>, records: seq<Record>, size: nat) {
    size > 0 && Flatten(batches) == records && FullBatches(batches, size)
  }

  /** The sum of affected rows is the same for every two batch sizes. */
  ghost predicate SizeFree(table: Table, records: seq<Record>, guarded: bool) {
    forall a, b, m: nat, n: nat :: Batching(a, records, m) && Batching(b, records, n) ==>
      TotalAffected(table, a, guarded) == TotalAffected(table, b, guarded)
  }

  /** The count does not depend on the batch size exactly when no two accepted records share an id. */
  lemma CountSizeFreeIff(table: Table, records: seq<Record>, guarded: bool)
    ensures SizeFree(table, records, guarded) <==> NoRepeats(AcceptedIds(table, records, guarded))
  {
    var accepted := AcceptedIds(table, records, guarded);
    if NoRepeats(accepted) {
      forall batches, size: nat | Batching(batches, records, size)
        ensures TotalAffected(table, batches, guarded) == |accepted|
      {
        TotalOfAccepted(table, batches, guarded);
      }
    } else {
      assert records != [];
      SinglesCountAll(table, records, guarded);
      assert Batching(Singles(records), records, 1);
      WholeCount(table, records, guarded);
      assert Batching([records], records, |records|);
      MembersSize(accepted);
      assert TotalAffected(table, [records], guarded) != TotalAffected(table, Singles(records), guarded);
    }
  }

  /** Written as one batch, every id that is accepted at all is counted once. */
  lemma WholeCount(table: Table, records: seq<Record>, guarded: bool)
    ensures Flatten([records]) == records
    ensures TotalAffected(table, [records], guarded) == |Members(AcceptedIds(table, records, guarded))|
  {
    assert [records][1..] == [] && [records][..0] == [];
    assert Flatten<Record>([]) == [];
    AffectedIds(table, records, guarded);
    assert TotalAffected(table, [], guarded) == 0;
  }

  lemma {:induction false} UnguardedAcceptsAll(table: Table, records: seq<Record>)
    ensures |AcceptedIds(table, records, false)| == |records|
    ensures forall i :: 0 <= i < |records| ==> AcceptedIds(table, records, false)[i] == records[i].id
  {
    if records != [] {
      var n := |records| - 1;
      UnguardedAcceptsAll(table, records[..n]);
      assert forall i :: 0 <= i < n ==> records[..n][i] == records[i];
    }
  }

  /** Without a cursor that is exactly when the stream repeats no id. */
  lemma UnguardedCountIff(table: Table, records: seq<Record>)
    ensures SizeFree(table, records, false) <==> DistinctIds(records)
  {
    hide SizeFree, AcceptedIds;
    CountSizeFreeIff(table, records, false);
    UnguardedAcceptsAll(table, records);
  }

  lemma NextRecord(table: Table, records: seq<Record>, r: Record, guarded: bool)
    ensures var before := UpsertedAll(table, records, guarded);
      UpsertedAll(table, records + [r], guarded) == Upserted(before, r, guarded) &&
      AcceptedIds(table, records + [r], guarded) ==
        AcceptedIds(table, records, guarded) + if Accepts(before, r, guarded) then [r.id] else []
  {
    assert (records + [r])[..|records|] == records;
  }

  lemma RepeatedRowAccepted(a: Record, b: Record, guarded: bool)
    requires a.id == b.id
    ensures AcceptedIds(map[], [a, b], guarded) == if Replaces(b, a, guarded) then [a.id, a.id] else [a.id]
  {
    hide Replaces;
    NextRecord(map[], [], a, guarded);
    NextRecord(map[], [a], b, guarded);
    assert [] + [a] == [a] && [a] + [b] == [a, b];
    NoneAccepted(map[], guarded);
  }

  /**
   Two versions of one row on an empty table: one by one they count twice, unless a guarded writer refuses the second;
   in one batch they count once.
  */
  lemma RepeatedRowCounts(a: Record, b: Record, guarded: bool)
    requires a.id == b.id
    ensures TotalAffected(map[], [[a], [b]], guarded) == if Replaces(b, a, guarded) then 2 else 1
    ensures TotalAffected(map[], [[a, b]], guarded) == 1
  {
    hide TotalAffected, AcceptedIds, Replaces;
    RepeatedRowAccepted(a, b, guarded);
    SinglesCountAll(map[], [a, b], guarded);
    assert Singles([a, b]) == [[a], [b]];
    WholeCount(map[], [a, b], guarded);
    assert Members(AcceptedIds(map[], [a, b], guarded)) == {a.id};
  }
}
