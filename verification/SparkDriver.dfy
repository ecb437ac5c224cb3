/**
 One run and the command around it: one bounded graph executed, published, read back and cleaned up, with a fault
 possible at every call.
*/
module SparkDriver {
  import opened Text
  import opened Wrappers
  import opened Bags
  import opened GraphConfiguration
  import opened Frames
  import opened Meaning
  import opened ExchangePaths
  import opened RuntimeConfiguration
  import opened Cluster

  const SPARK_RUNTIME_CONTRACT := "io.dander.spark-linear-runtime/v1"
  const MULTISTAGE_LINEAR_SPARK_RUNTIME_CONTRACT := "io.dander.spark-multistage-linear-runtime/v1"
  const KEYED_JOIN_SPARK_RUNTIME_CONTRACT := "io.dander.spark-keyed-join-runtime/v1"

  const RUNTIME_FAILED := "spark_linear_runtime_failed"
  const RUNTIME_UNAVAILABLE := "spark_runtime_unavailable"
  const SESSION_START_FAILED := "spark_session_start_failed"
  const CONFIGURATION_READ_FAILED := "spark_configuration_read_failed"
  const PLANNED_SHAPE_MISMATCH := "spark_planned_shape_mismatch"
  const READBACK_MISMATCH := "spark_readback_mismatch"
  const CLEANUP_INCOMPLETE := "spark_exchange_cleanup_incomplete"
  const CLEANUP_FAILED := "spark_exchange_cleanup_failed"

  datatype RuntimeContext = RuntimeContext(runId: string, attempt: nat, configurationStem: string)

  /** What a run reports, with the row count its readback was required to match; a join also counts each source. */
  datatype SparkResult = SparkResult(
    targetId: string, outputTable: string, sourceRows: nat, sourceResults: seq<(string, nat)>, expectedRows: nat,
    affectedRows: nat, contract: string, exchanges: seq<Path>)

  /** What leaves the body of a run: a driver error with its code, or any other exception at some stage. */
  datatype Raised = DriverError(code: string) | OtherError(stage: string)

  function FailureCode(e: Raised): string {
    match e
    case DriverError(code) => code
    case OtherError(stage) => "spark_" + stage + "_failed"
  }

  predicate IsCleanupCode(code: string) {
    code == CLEANUP_INCOMPLETE || code == CLEANUP_FAILED
  }

  // ---------------------------------------------------------------- what a run owns and means

  function ExchangeNames(g: Graph): seq<string> {
    match g
    case Linear(_) => [EXTRACT_TRANSFORM]
    case Multistage(_) => [EXTRACT_TRANSFORM_A, TRANSFORM_A_TRANSFORM_B]
    case KeyedJoin(_) => [LEFT_JOIN, RIGHT_JOIN]
  }

  function OwnedPaths(g: Graph, invocation: Invocation, context: RuntimeContext): seq<Path> {
    var names := ExchangeNames(g);
    seq(|names|, i requires 0 <= i < |names| =>
      ExchangePath(invocation.stagingBucket, context.runId, context.attempt, names[i]))
  }

  function Contract(g: Graph): string {
    match g
    case Linear(_) => SPARK_RUNTIME_CONTRACT
    case Multistage(_) => MULTISTAGE_LINEAR_SPARK_RUNTIME_CONTRACT
    case KeyedJoin(_) => KEYED_JOIN_SPARK_RUNTIME_CONTRACT
  }

  function TargetId(g: Graph): string {
    match g
    case Linear(l) => l.targetId
    case Multistage(m) => m.targetId
    case KeyedJoin(j) => j.targetId
  }

  function OutputTable(g: Graph): string {
    match g
    case Linear(l) => l.outputTable
    case Multistage(m) => m.outputTable
    case KeyedJoin(j) => j.outputTable
  }

  ghost predicate SourcesReadable(g: Graph, tables: map<string, Frame>) {
    match g
    case Linear(l) => Readable(tables, l.sourceTable, l.sourceFields)
    case Multistage(m) => Readable(tables, m.sourceTable, m.sourceFields)
    case KeyedJoin(j) =>
      Readable(tables, j.left.sourceTable, j.left.fields) && Readable(tables, j.right.sourceTable, j.right.fields)
  }

  /** The rows a graph denotes over the given tables. */
  ghost function GraphMeaning(g: Graph, tables: map<string, Frame>): seq<Row>
    requires SourcesReadable(g, tables)
  {
    match g
    case Linear(l) => LinearMeaning(l, Rows(tables[l.sourceTable]))
    case Multistage(m) => MultistageMeaning(m, Rows(tables[m.sourceTable]))
    case KeyedJoin(j) => JoinMeaning(j, Rows(tables[j.left.sourceTable]), Rows(tables[j.right.sourceTable]))
  }

  /** How many rows the sources hold together. */
  ghost function SourceSize(g: Graph, tables: map<string, Frame>): nat
    requires SourcesReadable(g, tables)
  {
    match g
    case Linear(l) => |Rows(tables[l.sourceTable])|
    case Multistage(m) => |Rows(tables[m.sourceTable])|
    case KeyedJoin(j) => |Rows(tables[j.left.sourceTable])| + |Rows(tables[j.right.sourceTable])|
  }

  /** The rows each source of a join holds; other graphs report no such list. */
  ghost function SourceSizes(g: Graph, tables: map<string, Frame>): seq<(string, nat)>
    requires SourcesReadable(g, tables)
  {
    match g
    case KeyedJoin(j) =>
      [(j.left.sourceId, |Rows(tables[j.left.sourceTable])|), (j.right.sourceId, |Rows(tables[j.right.sourceTable])|)]
    case _ => []
  }

  /** Reported counts belong together: a chain expects what it read, a join names its sources and adds them up. */
  predicate CountsAgree(g: Graph, expectedRows: nat, sourceRows: nat, sourceResults: seq<(string, nat)>) {
    match g
    case KeyedJoin(j) =>
      |sourceResults| == 2 && sourceResults[0].0 == j.left.sourceId && sourceResults[1].0 == j.right.sourceId &&
      sourceRows == sourceResults[0].1 + sourceResults[1].1
    case _ => sourceResults == [] && sourceRows == expectedRows
  }

  ghost predicate PathsFree(paths: seq<Path>, objects: map<Path, Frame>) {
    forall u :: u in paths ==> !Holds(objects, u)
  }

  lemma OwnedPathsApart(g: Graph, invocation: Invocation, context: RuntimeContext)
    ensures |OwnedPaths(g, invocation, context)| == |ExchangeNames(g)|
    ensures var paths := OwnedPaths(g, invocation, context);
      forall i, j :: 0 <= i < |paths| && 0 <= j < |paths| && i != j ==> !Under(paths[i], paths[j])
  {
    var paths := OwnedPaths(g, invocation, context);
    assert EXTRACT_TRANSFORM_A[0] != TRANSFORM_A_TRANSFORM_B[0] && LEFT_JOIN[0] != RIGHT_JOIN[0];
    forall i, j | 0 <= i < |paths| && 0 <= j < |paths| && i != j
      ensures !Under(paths[i], paths[j])
    {
      assert paths[i][7] == ExchangeNames(g)[i] && paths[j][7] == ExchangeNames(g)[j];
    }
  }

  // ---------------------------------------------------------------- exchange cleanup

  function Attempts(observations: seq<Observation>): seq<Path> {
    if observations == [] then [] else
      var last := observations[|observations| - 1];
      Attempts(observations[..|observations| - 1]) + (if last.DeleteAttempt? then [last.path] else [])
  }

  lemma AttemptsOne(observations: seq<Observation>, o: Observation)
    ensures Attempts(observations + [o]) == Attempts(observations) + if o.DeleteAttempt? then [o.path] else []
  {
    assert (observations + [o])[..|observations|] == observations;
  }

  /** Since the earlier observations, each of these exchanges was seen absent. */
  ghost predicate AbsentSince(before: seq<Observation>, after: seq<Observation>, paths: seq<Path>) {
    before <= after && forall u :: u in paths ==> Seen(u, false) in after[|before|..]
  }

  /** What was observed recently enough stays so as more is observed, or as one looks further back. */
  lemma RecentGrows(before: seq<Observation>, between: seq<Observation>, after: seq<Observation>, o: Observation)
    requires before <= between <= after
    ensures o in between[|before|..] ==> o in after[|before|..]
    ensures o in after[|between|..] ==> o in after[|before|..]
  {
    assert after[|before|..] == between[|before|..] + after[|between|..];
  }

  lemma AbsentEarlier(before: seq<Observation>, between: seq<Observation>, after: seq<Observation>, paths: seq<Path>)
    requires before <= between && AbsentSince(between, after, paths)
    ensures AbsentSince(before, after, paths)
  {
    forall u | u in paths
      ensures Seen(u, false) in after[|before|..]
    {
      RecentGrows(before, between, after, Seen(u, false));
    }
  }

  lemma AbsentStill(before: seq<Observation>, between: seq<Observation>, after: seq<Observation>, paths: seq<Path>)
    requires AbsentSince(before, between, paths) && between <= after
    ensures AbsentSince(before, after, paths)
  {
    forall u | u in paths
      ensures Seen(u, false) in after[|before|..]
    {
      RecentGrows(before, between, after, Seen(u, false));
    }
  }

  /** One existence check, seen as one more observation that is not a delete attempt. */
  method Check(session: Session, path: Path) returns (present: Option<bool>)
    modifies session`observations, session`faults
    ensures session.faults >= old(session.faults)
    ensures present.None? ==> session.faults > old(session.faults)
    ensures present.Some? ==> (present.value <==> Holds(session.objects, path))
    ensures present == Some(false) ==> AbsentSince(old(session.observations), session.observations, [path])
    ensures Attempts(session.observations) == Attempts(old(session.observations))
    ensures old(session.observations) <= session.observations
  {
    present := session.Exists(path);
    if present.Some? {
      AttemptsOne(old(session.observations), Seen(path, present.value));
    }
  }

  /** Delete one exchange and require it observed absent; a delete error is forgiven when absence is then observed. */
  method DeleteExchange(session: Session, path: Path) returns (error: Option<string>)
    modifies session`objects, session`observations, session`faults
    ensures session.faults >= old(session.faults)
    ensures Remains(session.objects, old(session.objects)) && SameOutside(old(session.objects), session.objects, [path])
    ensures error.None? ==> !Holds(session.objects, path)
    ensures error.None? ==> AbsentSince(old(session.observations), session.observations, [path])
    ensures error.Some? ==> session.faults > old(session.faults) && IsCleanupCode(error.value)
    ensures Attempts(session.observations) == Attempts(old(session.observations)) + [path]
    ensures old(session.observations) <= session.observations
  {
    assert path in [path];
    AttemptsOne(session.observations, DeleteAttempt(path));
    session.observations := session.observations + [DeleteAttempt(path)];
    ghost var attempted := session.observations;
    var resolved := session.Call();
    if !resolved {
      return Some(CLEANUP_FAILED);
    }
    var raised := session.Delete(path);
    if !raised {
      var present := Check(session, path);
      if present.Some? {
        if !present.value {
          AbsentEarlier(old(session.observations), attempted, session.observations, [path]);
        }
        return if present.value then Some(CLEANUP_INCOMPLETE) else None;
      }
    }
    ghost var checked := session.observations;
    var present := Check(session, path);
    if present == Some(false) {
      AbsentEarlier(old(session.observations), checked, session.observations, [path]);
    }
    return if present == Some(false) then None else Some(CLEANUP_FAILED);
  }

  lemma RemainsHolds(after: map<Path, Frame>, before: map<Path, Frame>, path: Path)
    requires Remains(after, before) && Holds(after, path)
    ensures Holds(before, path)
  {
    var p :| p in after && Under(path, p);
    assert p in before;
  }

  /** Every exchange is attempted; the first error is kept; without one, each was observed absent and is gone. */
  method CleanupExchanges(session: Session, paths: seq<Path>) returns (firstError: Option<string>)
    modifies session`objects, session`observations, session`faults
    ensures session.faults >= old(session.faults)
    ensures Remains(session.objects, old(session.objects)) && SameOutside(old(session.objects), session.objects, paths)
    ensures firstError.None? ==> PathsFree(paths, session.objects)
    ensures firstError.None? ==> AbsentSince(old(session.observations), session.observations, paths)
    ensures firstError.Some? ==> session.faults > old(session.faults) && IsCleanupCode(firstError.value)
    ensures Attempts(session.observations) == Attempts(old(session.observations)) + paths
    ensures old(session.observations) <= session.observations
  {
    firstError := None;
    for i := 0 to |paths|
      invariant session.faults >= old(session.faults)
      invariant Remains(session.objects, old(session.objects))
      invariant SameOutside(old(session.objects), session.objects, paths)
      invariant firstError.None? ==> PathsFree(paths[..i], session.objects)
      invariant old(session.observations) <= session.observations
      invariant firstError.None? ==> AbsentSince(old(session.observations), session.observations, paths[..i])
      invariant firstError.Some? ==> session.faults > old(session.faults) && IsCleanupCode(firstError.value)
      invariant Attempts(session.observations) == Attempts(old(session.observations)) + paths[..i]
    {
      ghost var before, seen := session.objects, session.observations;
      var error := DeleteExchange(session, paths[i]);
      SameOutsideWider(before, session.objects, [paths[i]], paths);
      SameOutsideTransitive(old(session.objects), before, session.objects, paths);
      forall u | u in paths[..i] && Holds(session.objects, u)
        ensures Holds(before, u)
      {
        RemainsHolds(session.objects, before, u);
      }
      assert paths[..i + 1] == paths[..i] + [paths[i]];
      assert forall u :: u in paths[..i + 1] <==> u in paths[..i] || u == paths[i];
      if firstError.None? {
        if error.None? {
          AbsentEarlier(old(session.observations), seen, session.observations, [paths[i]]);
          AbsentStill(old(session.observations), seen, session.observations, paths[..i]);
          assert paths[i] in [paths[i]];
        }
        firstError := error;
      }
    }
    assert paths[..|paths|] == paths;
  }

  // ---------------------------------------------------------------- the three stage chains

  datatype Produced =
    Produced(frame: Frame, expectedRows: nat, sourceRows: nat, sourceResults: seq<(string, nat)>)

  /** What a fault-free stage chain has produced from the given tables. */
  ghost predicate Faithful(g: Graph, tables: map<string, Frame>, p: Produced) {
    SourcesReadable(g, tables) && Bag(p.frame) == multiset(GraphMeaning(g, tables)) &&
    p.expectedRows == |GraphMeaning(g, tables)| && p.sourceRows == SourceSize(g, tables) &&
    p.sourceResults == SourceSizes(g, tables)
  }

  /** The stage at which a fault-free chain that does not succeed has stopped. */
  ghost function BlockedStage(g: Graph, tables: map<string, Frame>): string {
    if SourcesReadable(g, tables) then "exchange_write" else "source_read"
  }

  lemma LinearFaithful(g: LinearGraph, rows: seq<Row>, exchanged: Frame)
    requires TotalLinear(g) && exchanged.columns == g.sourceFields
    requires Bag(exchanged) == multiset(Selected(rows, g.sourceFields))
    ensures var one := ProjectFrame(exchanged, g.sourceToTransform, g.transformFields);
      one.Some? &&
      var two := ProjectFrame(one.value, g.transformToTarget, g.targetFields);
      two.Some? && Bag(two.value) == multiset(LinearMeaning(g, rows))
  {
    ProjectTotal(exchanged, g.sourceToTransform, g.sourceFields, g.transformFields);
    ProjectFrameRows(exchanged, g.sourceToTransform, g.transformFields);
    var one := ProjectFrame(exchanged, g.sourceToTransform, g.transformFields).value;
    ProjectTotal(one, g.transformToTarget, g.transformFields, g.targetFields);
    ProjectFrameRows(one, g.transformToTarget, g.targetFields);
    LinearStages(g, rows, Rows(exchanged));
  }

  lemma SelectedSize(f: Frame, rows: seq<Row>, fields: seq<string>)
    requires Bag(f) == multiset(Selected(rows, fields))
    ensures |Rows(f)| == |rows|
  {
    SameMembers(Rows(f), Selected(rows, fields));
  }

  lemma HoldsAfterAdd(objects: map<Path, Frame>, path: Path, f: Frame, other: Path)
    requires !Under(other, path)
    ensures Holds(objects[path := f], other) <==> Holds(objects, other)
  {
    if Holds(objects[path := f], other) {
      var p :| p in objects[path := f] && Under(other, p);
      assert p in objects;
    }
    if Holds(objects, other) {
      var p :| p in objects && Under(other, p);
      assert p in objects[path := f];
    }
  }

  /** Read and count a source, write it to its exchange, and read the exchange back. */
  method Extract(session: Session, table: string, fields: seq<string>, path: Path, readStage: string)
    returns (r: Result<(Frame, nat), string>)
    modifies session`objects, session`faults
    ensures session.faults >= old(session.faults)
    ensures SameOutside(old(session.objects), session.objects, [path])
    ensures session.faults == old(session.faults) ==>
      (r.Success? <==> Readable(session.tables, table, fields) && !old(Holds(session.objects, path)))
    ensures session.faults == old(session.faults) && r.Failure? ==>
      r.error == if Readable(session.tables, table, fields) then "exchange_write" else "source_read"
    ensures session.faults == old(session.faults) && r.Success? ==>
      r.value.0.columns == fields && Bag(r.value.0) == multiset(Selected(Rows(session.tables[table]), fields)) &&
      r.value.1 == |Rows(session.tables[table])|
    ensures session.faults == old(session.faults) && r.Success? ==>
      path in session.objects && session.objects == old(session.objects)[path := session.objects[path]]
  {
    ghost var faults := session.faults;
    var source := session.ReadTable(table, fields);
    if source.None? { return Failure("source_read"); }
    var sourceRows := session.Count(source.value);
    if sourceRows.None? { return Failure("source_read"); }
    var written := session.WriteExchange(source.value, path);
    if !written { return Failure("exchange_write"); }
    var exchanged := session.ReadExchange(path);
    if exchanged.None? { return Failure(readStage); }
    if session.faults == faults {
      SelectedSize(source.value, Rows(session.tables[table]), fields);
    }
    return Success((exchanged.value, sourceRows.value));
  }

  method RunLinear(session: Session, g: LinearGraph, path: Path) returns (r: Result<Produced, string>)
    requires TotalLinear(g)
    modifies session`objects, session`faults
    ensures session.faults >= old(session.faults)
    ensures SameOutside(old(session.objects), session.objects, [path])
    ensures session.faults == old(session.faults) ==>
      (r.Success? <==> SourcesReadable(Linear(g), session.tables) && !old(Holds(session.objects, path)))
    ensures session.faults == old(session.faults) && r.Failure? ==> r.error == BlockedStage(Linear(g), session.tables)
    ensures session.faults == old(session.faults) && r.Success? ==> Faithful(Linear(g), session.tables, r.value)
    ensures r.Success? ==> CountsAgree(Linear(g), r.value.expectedRows, r.value.sourceRows, r.value.sourceResults)
  {
    ghost var faults := session.faults;
    var extracted :- Extract(session, g.sourceTable, g.sourceFields, path, "transform");
    var (exchanged, sourceRows) := extracted;
    if session.faults == faults {
      LinearFaithful(g, Rows(session.tables[g.sourceTable]), exchanged);
    }
    var transformed := session.Project(exchanged, g.sourceToTransform, g.transformFields);
    if transformed.None? { return Failure("transform"); }
    var published := session.Project(transformed.value, g.transformToTarget, g.targetFields);
    if published.None? { return Failure("transform"); }
    return Success(Produced(published.value, sourceRows, sourceRows, []));
  }

  lemma MultistageFaithful(g: MultistageLinearGraph, rows: seq<Row>, one: Frame, two: Frame)
    requires TotalMultistage(g) && one.columns == g.sourceFields
    requires Bag(one) == multiset(Selected(rows, g.sourceFields))
    requires var first := ProjectFrame(one, g.sourceToFirst, g.firstTransformFields);
      first.Some? && two.columns == first.value.columns && Bag(two) == Bag(first.value)
    ensures var three := ProjectFrame(two, g.firstToSecond, g.secondTransformFields);
      three.Some? &&
      var four := ProjectFrame(three.value, g.secondToTarget, g.targetFields);
      four.Some? && Bag(four.value) == multiset(MultistageMeaning(g, rows))
  {
    ProjectFrameRows(one, g.sourceToFirst, g.firstTransformFields);
    ProjectTotal(two, g.firstToSecond, g.firstTransformFields, g.secondTransformFields);
    ProjectFrameRows(two, g.firstToSecond, g.secondTransformFields);
    var three := ProjectFrame(two, g.firstToSecond, g.secondTransformFields).value;
    ProjectTotal(three, g.secondToTarget, g.secondTransformFields, g.targetFields);
    ProjectFrameRows(three, g.secondToTarget, g.targetFields);
    MultistageStages(g, rows, Rows(one), Rows(two));
  }

  method RunMultistage(session: Session, g: MultistageLinearGraph, first: Path, second: Path)
    returns (r: Result<Produced, string>)
    requires TotalMultistage(g) && !Under(first, second) && !Under(second, first)
    modifies session`objects, session`faults
    ensures session.faults >= old(session.faults)
    ensures SameOutside(old(session.objects), session.objects, [first, second])
    ensures session.faults == old(session.faults) ==>
      (r.Success? <==>
        SourcesReadable(Multistage(g), session.tables) && PathsFree([first, second], old(session.objects)))
    ensures session.faults == old(session.faults) && r.Failure? ==>
      r.error == BlockedStage(Multistage(g), session.tables)
    ensures session.faults == old(session.faults) && r.Success? ==> Faithful(Multistage(g), session.tables, r.value)
    ensures r.Success? ==> CountsAgree(Multistage(g), r.value.expectedRows, r.value.sourceRows, r.value.sourceResults)
  {
    hide ProjectFrame, SameOutside, Selected, Bag, Total;
    ghost var faults, before := session.faults, session.objects;
    assert first in [first, second] && second in [first, second];
    var extracted := Extract(session, g.sourceTable, g.sourceFields, first, "transform_a");
    SameOutsideWider(before, session.objects, [first], [first, second]);
    if extracted.Failure? { return Failure(extracted.error); }
    var (one, sourceRows) := extracted.value;
    if session.faults == faults {
      HoldsAfterAdd(before, first, session.objects[first], second);
      ProjectTotal(one, g.sourceToFirst, g.sourceFields, g.firstTransformFields);
    }
    ghost var between := session.objects;
    var firstOutput := session.Project(one, g.sourceToFirst, g.firstTransformFields);
    if firstOutput.None? { return Failure("transform_a"); }
    var written := session.WriteExchange(firstOutput.value, second);
    SameOutsideWider(between, session.objects, [second], [first, second]);
    SameOutsideTransitive(before, between, session.objects, [first, second]);
    if !written { return Failure("exchange_write"); }
    var two := session.ReadExchange(second);
    if two.None? { return Failure("transform_b"); }
    if session.faults == faults {
      MultistageFaithful(g, Rows(session.tables[g.sourceTable]), one, two.value);
    }
    var secondOutput := session.Project(two.value, g.firstToSecond, g.secondTransformFields);
    if secondOutput.None? { return Failure("transform_b"); }
    var published := session.Project(secondOutput.value, g.secondToTarget, g.targetFields);
    if published.None? { return Failure("transform_b"); }
    return Success(Produced(published.value, sourceRows, sourceRows, []));
  }

  /** Everything a fault-free join chain needs to be defined and faithful, once both sources are exchanged. */
  lemma JoinFaithful(g: KeyedJoinGraph, left: seq<Row>, right: seq<Row>, leftIn: Frame, rightIn: Frame)
    requires TotalJoin(g) && leftIn.columns == g.left.fields && rightIn.columns == g.right.fields
    requires Bag(leftIn) == multiset(Selected(left, g.left.fields))
    requires Bag(rightIn) == multiset(Selected(right, g.right.fields))
    ensures JoinDefined(leftIn, rightIn, g)
  {
    JoinLookup(g);
  }

  lemma JoinPublished(
    g: KeyedJoinGraph, left: seq<Row>, right: seq<Row>, leftIn: Frame, rightIn: Frame, joined: seq<(Row, Row)>,
    f: Frame)
    requires TotalJoin(g) && f.columns == g.transformFields
    requires Bag(leftIn) == multiset(Selected(left, g.left.fields))
    requires Bag(rightIn) == multiset(Selected(right, g.right.fields))
    requires multiset(joined) == multiset(JoinRows(Rows(leftIn), Rows(rightIn), g.left.joinKey, g.right.joinKey))
    requires Rows(f) == Map(PickPair(ByTarget(g.left.mappings), ByTarget(g.right.mappings), g.transformFields), joined)
    ensures var last := ProjectFrame(f, g.transformToTarget, g.targetFields);
      last.Some? && Bag(last.value) == multiset(JoinMeaning(g, left, right)) &&
      |Rows(last.value)| == |JoinMeaning(g, left, right)|
  {
    ProjectTotal(f, g.transformToTarget, g.transformFields, g.targetFields);
    ProjectFrameRows(f, g.transformToTarget, g.targetFields);
    JoinStages(g, left, right, Rows(leftIn), Rows(rightIn), joined);
    SameMembers(Rows(ProjectFrame(f, g.transformToTarget, g.targetFields).value), JoinMeaning(g, left, right));
  }

  /** Both sources read and counted, both written, then both read back. */
  method ExtractBoth(session: Session, g: KeyedJoinGraph, left: Path, right: Path)
    returns (r: Result<(Frame, Frame, nat, nat), string>)
    requires !Under(left, right) && !Under(right, left)
    modifies session`objects, session`faults
    ensures session.faults >= old(session.faults)
    ensures SameOutside(old(session.objects), session.objects, [left, right])
    ensures session.faults == old(session.faults) ==>
      (r.Success? <==>
        SourcesReadable(KeyedJoin(g), session.tables) && PathsFree([left, right], old(session.objects)))
    ensures session.faults == old(session.faults) && r.Failure? ==>
      r.error == BlockedStage(KeyedJoin(g), session.tables)
    ensures session.faults == old(session.faults) && r.Success? ==>
      r.value.0.columns == g.left.fields && r.value.1.columns == g.right.fields &&
      Bag(r.value.0) == multiset(Selected(Rows(session.tables[g.left.sourceTable]), g.left.fields)) &&
      Bag(r.value.1) == multiset(Selected(Rows(session.tables[g.right.sourceTable]), g.right.fields)) &&
      r.value.2 == |Rows(session.tables[g.left.sourceTable])| &&
      r.value.3 == |Rows(session.tables[g.right.sourceTable])|
  {
    ghost var faults, before := session.faults, session.objects;
    assert left in [left, right] && right in [left, right];
    var leftSource := session.ReadTable(g.left.sourceTable, g.left.fields);
    if leftSource.None? { return Failure("source_read"); }
    var rightSource := session.ReadTable(g.right.sourceTable, g.right.fields);
    if rightSource.None? { return Failure("source_read"); }
    var leftRows := session.Count(leftSource.value);
    if leftRows.None? { return Failure("source_read"); }
    var rightRows := session.Count(rightSource.value);
    if rightRows.None? { return Failure("source_read"); }
    var ok := WriteBoth(session, leftSource.value, rightSource.value, left, right);
    if !ok { return Failure("exchange_write"); }
    var leftIn := session.ReadExchange(left);
    if leftIn.None? { return Failure("transform"); }
    var rightIn := session.ReadExchange(right);
    if rightIn.None? { return Failure("transform"); }
    if session.faults == faults {
      SelectedSize(leftSource.value, Rows(session.tables[g.left.sourceTable]), g.left.fields);
      SelectedSize(rightSource.value, Rows(session.tables[g.right.sourceTable]), g.right.fields);
    }
    return Success((leftIn.value, rightIn.value, leftRows.value, rightRows.value));
  }

  method WriteBoth(session: Session, l: Frame, r: Frame, left: Path, right: Path) returns (ok: bool)
    requires !Under(left, right) && !Under(right, left)
    modifies session`objects, session`faults
    ensures session.faults >= old(session.faults)
    ensures SameOutside(old(session.objects), session.objects, [left, right])
    ensures session.faults == old(session.faults) ==> (ok <==> PathsFree([left, right], old(session.objects)))
    ensures session.faults == old(session.faults) && ok ==>
      left in session.objects && session.objects[left].columns == l.columns && Bag(session.objects[left]) == Bag(l) &&
      right in session.objects && session.objects[right].columns == r.columns && Bag(session.objects[right]) == Bag(r)
  {
    ghost var faults, before := session.faults, session.objects;
    assert left in [left, right] && right in [left, right];
    var written := session.WriteExchange(l, left);
    SameOutsideWider(before, session.objects, [left], [left, right]);
    if !written { return false; }
    if session.faults == faults {
      HoldsAfterAdd(before, left, session.objects[left], right);
    }
    ghost var between := session.objects;
    ok := session.WriteExchange(r, right);
    SameOutsideWider(between, session.objects, [right], [left, right]);
    SameOutsideTransitive(before, between, session.objects, [left, right]);
  }

  method RunKeyedJoin(session: Session, g: KeyedJoinGraph, left: Path, right: Path)
    returns (r: Result<Produced, string>)
    requires TotalJoin(g) && !Under(left, right) && !Under(right, left)
    modifies session`objects, session`faults
    ensures session.faults >= old(session.faults)
    ensures SameOutside(old(session.objects), session.objects, [left, right])
    ensures session.faults == old(session.faults) ==>
      (r.Success? <==>
        SourcesReadable(KeyedJoin(g), session.tables) && PathsFree([left, right], old(session.objects)))
    ensures session.faults == old(session.faults) && r.Failure? ==>
      r.error == BlockedStage(KeyedJoin(g), session.tables)
    ensures session.faults == old(session.faults) && r.Success? ==> Faithful(KeyedJoin(g), session.tables, r.value)
    ensures r.Success? ==> CountsAgree(KeyedJoin(g), r.value.expectedRows, r.value.sourceRows, r.value.sourceResults)
  {
    ghost var faults := session.faults;
    var extracted :- ExtractBoth(session, g, left, right);
    var (leftIn, rightIn, leftRows, rightRows) := extracted;
    if session.faults == faults {
      JoinFaithful(
        g, Rows(session.tables[g.left.sourceTable]), Rows(session.tables[g.right.sourceTable]), leftIn, rightIn);
    }
    var transformed := session.Join(leftIn, rightIn, g);
    if transformed.None? { return Failure("transform"); }
    if session.faults == faults {
      var joined :|
        multiset(joined) == multiset(JoinRows(Rows(leftIn), Rows(rightIn), g.left.joinKey, g.right.joinKey)) &&
        Rows(transformed.value) ==
          Map(PickPair(ByTarget(g.left.mappings), ByTarget(g.right.mappings), g.transformFields), joined);
      JoinPublished(
        g, Rows(session.tables[g.left.sourceTable]), Rows(session.tables[g.right.sourceTable]), leftIn, rightIn,
        joined, transformed.value);
    }
    var published := session.Project(transformed.value, g.transformToTarget, g.targetFields);
    if published.None? { return Failure("transform"); }
    var expectedRows := session.Count(published.value);
    if expectedRows.None? { return Failure("transform"); }
    return
      Success(
        Produced(
          published.value, expectedRows.value, leftRows + rightRows,
          [(g.left.sourceId, leftRows), (g.right.sourceId, rightRows)]));
  }

  method RunGraph(session: Session, g: Graph, paths: seq<Path>) returns (r: Result<Produced, string>)
    requires TotalGraph(g) && |paths| == |ExchangeNames(g)|
    requires forall i, j :: 0 <= i < |paths| && 0 <= j < |paths| && i != j ==> !Under(paths[i], paths[j])
    modifies session`objects, session`faults
    ensures session.faults >= old(session.faults)
    ensures SameOutside(old(session.objects), session.objects, paths)
    ensures session.faults == old(session.faults) ==>
      (r.Success? <==> SourcesReadable(g, session.tables) && PathsFree(paths, old(session.objects)))
    ensures session.faults == old(session.faults) && r.Failure? ==> r.error == BlockedStage(g, session.tables)
    ensures session.faults == old(session.faults) && r.Success? ==> Faithful(g, session.tables, r.value)
    ensures r.Success? ==> CountsAgree(g, r.value.expectedRows, r.value.sourceRows, r.value.sourceResults)
  {
    match g {
      case Linear(l) =>
        assert paths == [paths[0]];
        r := RunLinear(session, l, paths[0]);
      case Multistage(m) =>
        assert paths == [paths[0], paths[1]];
        r := RunMultistage(session, m, paths[0], paths[1]);
      case KeyedJoin(j) =>
        assert paths == [paths[0], paths[1]];
        r := RunKeyedJoin(session, j, paths[0], paths[1]);
    }
  }

  // ---------------------------------------------------------------- configuration and executors

  /** What one configuration object, read as at most two text rows, amounts to. */
  function LoadedConfiguration(
    rows: seq<Option<string>>, invocation: Invocation, context: RuntimeContext, sha256: string -> string):
    Result<Configuration, Raised>
  {
    if |rows| != 1 || rows[0].None? then Failure(DriverError(RUNTIME_FAILED)) else
    match ConfigurationOf(rows[0].value, invocation, sha256)
    case Failure(Rejected) => Failure(DriverError(RUNTIME_FAILED))
    case Failure(Crashed) => Failure(OtherError("configuration"))
    case Success(c) =>
      if c.contentSha256 != context.configurationStem then Failure(DriverError(RUNTIME_FAILED)) else Success(c)
  }

  function FirstTwo(rows: seq<Option<string>>): seq<Option<string>> {
    rows[..if |rows| < 2 then |rows| else 2]
  }

  lemma LoadedTotal(
    rows: seq<Option<string>>, invocation: Invocation, context: RuntimeContext, sha256: string -> string)
    requires LoadedConfiguration(rows, invocation, context, sha256).Success?
    ensures TotalGraph(LoadedConfiguration(rows, invocation, context, sha256).value.graph)
  {
    AcceptedConfigurationTotal(
      rows[0].value, invocation, sha256, LoadedConfiguration(rows, invocation, context, sha256).value);
  }

  method ReadRuntimeConfiguration(
    session: Session, invocation: Invocation, context: RuntimeContext, sha256: string -> string)
    returns (r: Result<Configuration, Raised>)
    modifies session`faults
    ensures session.faults >= old(session.faults)
    ensures session.faults == old(session.faults) || r.Success? ==>
      r == LoadedConfiguration(FirstTwo(session.configuration), invocation, context, sha256)
  {
    var rows := session.ReadConfiguration();
    if rows.None? { return Failure(DriverError(CONFIGURATION_READ_FAILED)); }
    if |rows.value| != 1 || rows.value[0].None? { return Failure(DriverError(RUNTIME_FAILED)); }
    match ConfigurationOf(rows.value[0].value, invocation, sha256) {
      case Failure(Rejected) => return Failure(DriverError(RUNTIME_FAILED));
      case Failure(Crashed) => return Failure(OtherError("configuration"));
      case Success(c) =>
        if c.contentSha256 != context.configurationStem { return Failure(DriverError(RUNTIME_FAILED)); }
        return Success(c);
    }
  }

  /** str.casefold on ASCII. */
  function Lower(s: string): string {
    seq(|s|, i requires 0 <= i < |s| => if 'A' <= s[i] <= 'Z' then ((s[i] as int) + 32) as char else s[i])
  }

  /** Static executors, exactly one per partition. */
  predicate ExecutorsPlanned(dynamicAllocation: string, executorInstances: int, partitions: int) {
    Lower(dynamicAllocation) == "false" && executorInstances == partitions
  }

  // ---------------------------------------------------------------- publication

  /** No table but this one changed. */
  ghost predicate OnlyTable(before: map<string, Frame>, after: map<string, Frame>, table: string) {
    forall t :: t != table ==> (t in after <==> t in before) && (t in after ==> after[t] == before[t])
  }

  /** Overwrite the target, read its row count back, and require it to match. */
  method Publish(session: Session, table: string, p: Produced) returns (r: Result<nat, Raised>)
    modifies session`tables, session`observations, session`faults
    ensures session.faults >= old(session.faults)
    ensures r.Success? ==>
      r.value == p.expectedRows && session.observations == old(session.observations) + [ReadBack(table, p.expectedRows)]
    ensures old(session.observations) <= session.observations
    ensures Attempts(session.observations) == Attempts(old(session.observations))
    ensures session.faults == old(session.faults) ==> (r.Success? <==> |Rows(p.frame)| == p.expectedRows)
    ensures session.faults == old(session.faults) ==>
      table in session.tables && Bag(session.tables[table]) == Bag(p.frame)
    ensures OnlyTable(old(session.tables), session.tables, table)
  {
    var saved := session.Overwrite(table, p.frame);
    if !saved { return Failure(OtherError("bigquery_write")); }
    var affected := session.CountTable(table);
    assert old(session.observations) + [] == old(session.observations);
    if affected.None? { return Failure(OtherError("bigquery_readback")); }
    AttemptsOne(old(session.observations), ReadBack(table, affected.value));
    if session.faults == old(session.faults) {
      SameMembers(Rows(session.tables[table]), Rows(p.frame));
    }
    if affected.value != p.expectedRows { return Failure(DriverError(READBACK_MISMATCH)); }
    return Success(affected.value);
  }

  // ---------------------------------------------------------------- one run

  /** The configuration is accepted and the executors have the planned shape. */
  ghost predicate Admitted(
    session: Session, invocation: Invocation, context: RuntimeContext, sha256: string -> string)
  {
    var c := LoadedConfiguration(FirstTwo(session.configuration), invocation, context, sha256);
    c.Success? && ExecutorsPlanned(session.dynamicAllocation, session.executorInstances, c.value.partitions)
  }

  /** Everything a run needs from its surroundings to succeed without faults. */
  ghost predicate Ready(
    session: Session, invocation: Invocation, context: RuntimeContext, sha256: string -> string)
    reads session
  {
    Admitted(session, invocation, context, sha256) &&
    var g := LoadedGraph(session, invocation, context, sha256);
    SourcesReadable(g, session.tables) && PathsFree(OwnedPaths(g, invocation, context), session.objects)
  }

  /** How a fault-free run that is not ready fails. */
  ghost function Refusal(
    session: Session, invocation: Invocation, context: RuntimeContext, sha256: string -> string): Raised
    reads session
  {
    var c := LoadedConfiguration(FirstTwo(session.configuration), invocation, context, sha256);
    if c.Failure? then c.error
    else if !Admitted(session, invocation, context, sha256) then DriverError(PLANNED_SHAPE_MISMATCH)
    else OtherError(BlockedStage(c.value.graph, session.tables))
  }

  /** The target now holds exactly the rows the graph denotes over the tables as they were before the run. */
  ghost predicate Published(
    session: Session, invocation: Invocation, context: RuntimeContext, sha256: string -> string,
    tables: map<string, Frame>)
    reads session
  {
    Admitted(session, invocation, context, sha256) &&
    var g := LoadedGraph(session, invocation, context, sha256);
    SourcesReadable(g, tables) && OutputTable(g) in session.tables &&
    Bag(session.tables[OutputTable(g)]) == multiset(GraphMeaning(g, tables))
  }

  /** The counts reported are those of the sources as they were and of the rows published. */
  ghost predicate Counted(
    session: Session, invocation: Invocation, context: RuntimeContext, sha256: string -> string, s: SparkResult,
    tables: map<string, Frame>)
  {
    Admitted(session, invocation, context, sha256) &&
    var g := LoadedGraph(session, invocation, context, sha256);
    SourcesReadable(g, tables) && s.affectedRows == |GraphMeaning(g, tables)| &&
    s.sourceRows == SourceSize(g, tables) && s.sourceResults == SourceSizes(g, tables)
  }

  /** The graph a run executes once its configuration is accepted. */
  ghost function LoadedGraph(
    session: Session, invocation: Invocation, context: RuntimeContext, sha256: string -> string): Graph
    requires LoadedConfiguration(FirstTwo(session.configuration), invocation, context, sha256).Success?
  {
    LoadedConfiguration(FirstTwo(session.configuration), invocation, context, sha256).value.graph
  }

  /** Before the graph is known nothing is owned; afterwards exactly its exchanges are. */
  ghost predicate Owns(
    session: Session, invocation: Invocation, context: RuntimeContext, sha256: string -> string, owned: seq<Path>)
  {
    owned == [] ||
    (LoadedConfiguration(FirstTwo(session.configuration), invocation, context, sha256).Success? &&
     owned == OwnedPaths(LoadedGraph(session, invocation, context, sha256), invocation, context))
  }

  /** A run changes no table, or only the output table of the graph it has loaded. */
  ghost predicate TablesKept(
    session: Session, invocation: Invocation, context: RuntimeContext, sha256: string -> string,
    before: map<string, Frame>)
    reads session
  {
    session.tables == before ||
    (LoadedConfiguration(FirstTwo(session.configuration), invocation, context, sha256).Success? &&
     OnlyTable(before, session.tables, OutputTable(LoadedGraph(session, invocation, context, sha256))))
  }

  /** A success reports the graph's own exchanges and output, and a recent readback of the expected row count. */
  ghost predicate Complete(
    session: Session, invocation: Invocation, context: RuntimeContext, sha256: string -> string, s: SparkResult,
    recent: seq<Observation>)
  {
    LoadedConfiguration(FirstTwo(session.configuration), invocation, context, sha256).Success? &&
    var g := LoadedGraph(session, invocation, context, sha256);
    s.exchanges == OwnedPaths(g, invocation, context) && s.outputTable == OutputTable(g) && s.targetId == TargetId(g) &&
    s.affectedRows == s.expectedRows && CountsAgree(g, s.expectedRows, s.sourceRows, s.sourceResults) &&
    ReadBack(s.outputTable, s.expectedRows) in recent
  }

  /** The try block of a run. */
  method Execute(session: Session, invocation: Invocation, context: RuntimeContext, sha256: string -> string)
    returns (r: Result<SparkResult, Raised>, owned: seq<Path>, contract: string)
    modifies session`objects, session`tables, session`observations, session`faults
    ensures session.faults >= old(session.faults)
    ensures old(session.observations) <= session.observations
    ensures Attempts(session.observations) == Attempts(old(session.observations))
    ensures Owns(session, invocation, context, sha256, owned)
    ensures session.faults == old(session.faults) && Admitted(session, invocation, context, sha256) ==>
      owned == OwnedPaths(LoadedGraph(session, invocation, context, sha256), invocation, context)
    ensures SameOutside(old(session.objects), session.objects, owned)
    ensures TablesKept(session, invocation, context, sha256, old(session.tables))
    ensures owned == [] ==> session.tables == old(session.tables)
    ensures r.Success? ==>
      r.value.exchanges == owned && r.value.contract == contract &&
      Complete(
        session, invocation, context, sha256, r.value, session.observations[|old(session.observations)|..])
    ensures session.faults == old(session.faults) ==> (r.Success? <==> old(Ready(session, invocation, context, sha256)))
    ensures session.faults == old(session.faults) && r.Failure? ==>
      r.error == old(Refusal(session, invocation, context, sha256)) && session.tables == old(session.tables)
    ensures session.faults == old(session.faults) && r.Success? ==>
      Published(session, invocation, context, sha256, old(session.tables)) &&
      Counted(session, invocation, context, sha256, r.value, old(session.tables))
  {
    hide LoadedConfiguration, OwnedPaths, Contract, TargetId, OutputTable, SourcesReadable, GraphMeaning, PathsFree;
    owned, contract := [], SPARK_RUNTIME_CONTRACT;
    ghost var faults := session.faults;
    var configured := session.Call();
    if !configured { return Failure(OtherError("configuration")), owned, contract; }
    var loaded := ReadRuntimeConfiguration(session, invocation, context, sha256);
    if loaded.Failure? { return Failure(loaded.error), owned, contract; }
    var configuration := loaded.value;
    var plan := session.ReadExecutorPlan();
    if plan.None? || !ExecutorsPlanned(plan.value.0, plan.value.1, configuration.partitions) {
      return Failure(DriverError(PLANNED_SHAPE_MISMATCH)), owned, contract;
    }
    var graph := configuration.graph;
    LoadedTotal(FirstTwo(session.configuration), invocation, context, sha256);
    OwnedPathsApart(graph, invocation, context);
    contract, owned := Contract(graph), OwnedPaths(graph, invocation, context);
    var produced := RunGraph(session, graph, owned);
    if produced.Failure? { return Failure(OtherError(produced.error)), owned, contract; }
    if session.faults == faults {
      SameMembers(Rows(produced.value.frame), GraphMeaning(graph, session.tables));
    }
    var affected := Publish(session, OutputTable(graph), produced.value);
    if affected.Failure? { return Failure(affected.error), owned, contract; }
    return
      Success(SparkResult(
        TargetId(graph), OutputTable(graph), produced.value.sourceRows, produced.value.sourceResults,
        produced.value.expectedRows, affected.value, contract, owned)),
      owned, contract;
  }

  /** What main prints. */
  datatype Event =
    | RuntimeStarted
    | SessionStopDeferred(contract: string)
    | SparkCompleted(result: SparkResult)
    | RuntimeSucceeded(sourceRows: nat, affectedRows: nat)
    | RuntimeFailed(failureCode: string)

  class Console {
    var events: seq<Event>

    constructor ()
      ensures events == []
    {
      events := [];
    }

    method Print(e: Event)
      modifies this
      ensures events == old(events) + [e]
    {
      events := events + [e];
    }
  }

  /** Nothing, or one note that stopping the session is left to the platform. */
  predicate AtMostDeferred(events: seq<Event>) {
    events == [] || (|events| == 1 && events[0].SessionStopDeferred?)
  }

  /** The finally block: attempt every exchange, then stop the session, noting a stop that fails. */
  method Finish(session: Session, console: Console, paths: seq<Path>, contract: string)
    returns (cleanupError: Option<string>)
    modifies session`objects, session`observations, session`faults, console
    ensures session.faults >= old(session.faults)
    ensures old(console.events) <= console.events && AtMostDeferred(console.events[|old(console.events)|..])
    ensures SameOutside(old(session.objects), session.objects, paths)
    ensures cleanupError.None? ==> PathsFree(paths, session.objects)
    ensures cleanupError.None? ==> AbsentSince(old(session.observations), session.observations, paths)
    ensures cleanupError.Some? ==> session.faults > old(session.faults) && IsCleanupCode(cleanupError.value)
    ensures Attempts(session.observations) == Attempts(old(session.observations)) + paths
    ensures old(session.observations) <= session.observations
  {
    cleanupError := CleanupExchanges(session, paths);
    var stopped := session.Call();
    if !stopped {
      console.Print(SessionStopDeferred(contract));
    }
  }

  /** A cleanup error replaces both a success and an earlier failure. */
  function Outcome(executed: Result<SparkResult, Raised>, cleanupError: Option<string>): Result<SparkResult, string> {
    if cleanupError.Some? then Failure(cleanupError.value)
    else
      match executed
      case Success(result) => Success(result)
      case Failure(e) => Failure(FailureCode(e))
  }

  /** Unless a cleanup error is reported, every owned exchange is gone and was seen absent during this run. */
  ghost predicate CleanedUp(
    session: Session, outcome: Result<SparkResult, string>, owned: seq<Path>, before: seq<Observation>)
    reads session
  {
    outcome.Success? || !IsCleanupCode(outcome.error) ==>
      PathsFree(owned, session.objects) && AbsentSince(before, session.observations, owned)
  }

  /** One run: whatever happened, every owned exchange is attempted, and a cleanup error replaces any other outcome. */
  method RunSpark(
    session: Session, console: Console, invocation: Invocation, context: RuntimeContext, sha256: string -> string)
    returns (r: Result<SparkResult, string>, ghost owned: seq<Path>)
    modifies session, console
    ensures session.faults >= old(session.faults)
    ensures old(console.events) <= console.events && AtMostDeferred(console.events[|old(console.events)|..])
    // Ownership, frame and cleanup, whatever faults occurred.
    ensures Owns(session, invocation, context, sha256, owned)
    ensures session.faults == old(session.faults) && Admitted(session, invocation, context, sha256) ==>
      owned == OwnedPaths(LoadedGraph(session, invocation, context, sha256), invocation, context)
    ensures old(session.observations) <= session.observations
    ensures Attempts(session.observations) == Attempts(old(session.observations)) + owned
    ensures SameOutside(old(session.objects), session.objects, owned)
    ensures TablesKept(session, invocation, context, sha256, old(session.tables))
    ensures owned == [] ==> session.tables == old(session.tables)
    ensures CleanedUp(session, r, owned, old(session.observations))
    // A success is a complete one.
    ensures r.Success? ==>
      r.value.exchanges == owned &&
      Complete(
        session, invocation, context, sha256, r.value, session.observations[|old(session.observations)|..])
    // Without faults: success exactly when ready, and then the target holds the meaning of the graph.
    ensures session.faults == old(session.faults) ==> (r.Success? <==> old(Ready(session, invocation, context, sha256)))
    ensures session.faults == old(session.faults) && r.Failure? ==>
      r.error == FailureCode(old(Refusal(session, invocation, context, sha256))) &&
      session.tables == old(session.tables)
    ensures session.faults == old(session.faults) && r.Success? ==>
      Published(session, invocation, context, sha256, old(session.tables)) &&
      Counted(session, invocation, context, sha256, r.value, old(session.tables))
    ensures session.faults == old(session.faults) ==> PathsFree(owned, session.objects)
  {
    hide LoadedConfiguration, OwnedPaths, OutputTable, TargetId, SourcesReadable, GraphMeaning, FailureCode;
    owned := [];
    var imported := session.Call();
    if !imported { return Failure(RUNTIME_UNAVAILABLE), []; }
    var started := session.Call();
    if !started { return Failure(SESSION_START_FAILED), []; }
    var executed, paths, contract := Execute(session, invocation, context, sha256);
    owned := paths;
    ghost var before, executedAt := session.objects, session.observations;
    var cleanupError := Finish(session, console, paths, contract);
    SameOutsideTransitive(old(session.objects), before, session.objects, paths);
    if cleanupError.None? {
      AbsentEarlier(old(session.observations), executedAt, session.observations, paths);
    }
    if executed.Success? {
      RecentGrows(
        old(session.observations), executedAt, session.observations,
        ReadBack(executed.value.outputTable, executed.value.expectedRows));
    }
    r := Outcome(executed, cleanupError);
  }

  /** The command: nothing is printed before validation passes; afterwards the events tell the outcome of one run. */
  method RunMain(
    validated: Option<(Invocation, RuntimeContext)>, session: Session, console: Console, sha256: string -> string)
    returns (exitCode: int, ghost owned: seq<Path>, ghost outcome: Result<SparkResult, string>)
    modifies session, console
    ensures validated.None? <==> exitCode == 2
    ensures exitCode == 2 ==>
      console.events == old(console.events) && session.objects == old(session.objects) &&
      session.tables == old(session.tables) && owned == []
    ensures exitCode in {0, 1, 2} && old(console.events) <= console.events
    ensures validated.Some? ==>
      (exitCode == 0 <==> outcome.Success?) && Run(console.events[|old(console.events)|..], outcome)
    // Whatever faults occurred: what the reported outcome stands for.
    ensures old(session.observations) <= session.observations
    ensures Attempts(session.observations) == Attempts(old(session.observations)) + owned
    ensures SameOutside(old(session.objects), session.objects, owned)
    ensures validated.Some? ==>
      Owns(session, validated.value.0, validated.value.1, sha256, owned) &&
      TablesKept(session, validated.value.0, validated.value.1, sha256, old(session.tables)) &&
      CleanedUp(session, outcome, owned, old(session.observations))
    ensures owned == [] ==> session.tables == old(session.tables)
    ensures exitCode == 0 ==>
      outcome.value.exchanges == owned &&
      Complete(
        session, validated.value.0, validated.value.1, sha256, outcome.value,
        session.observations[|old(session.observations)|..])
    // Without faults.
    ensures session.faults == old(session.faults) && validated.Some? ==>
      (exitCode == 0 <==> old(Ready(session, validated.value.0, validated.value.1, sha256)))
    ensures session.faults == old(session.faults) && exitCode == 1 ==>
      outcome.error == FailureCode(old(Refusal(session, validated.value.0, validated.value.1, sha256))) &&
      session.tables == old(session.tables)
    ensures session.faults == old(session.faults) && exitCode == 0 ==>
      Published(session, validated.value.0, validated.value.1, sha256, old(session.tables)) &&
      Counted(session, validated.value.0, validated.value.1, sha256, outcome.value, old(session.tables))
    ensures session.faults == old(session.faults) && validated.Some? ==>
      Admitted(session, validated.value.0, validated.value.1, sha256) ==>
      var g := LoadedGraph(session, validated.value.0, validated.value.1, sha256);
      owned == OwnedPaths(g, validated.value.0, validated.value.1)
    ensures session.faults == old(session.faults) ==> PathsFree(owned, session.objects)
  {
    hide LoadedConfiguration, Refusal, Ready, Admitted, Published, Complete, CleanedUp, TablesKept, FailureCode;
    owned, outcome := [], Failure("");
    if validated.None? { return 2, [], outcome; }
    ghost var before := console.events;
    console.Print(RuntimeStarted);
    var result;
    result, owned := RunSpark(session, console, validated.value.0, validated.value.1, sha256);
    outcome := result;
    ghost var deferred := console.events[|before| + 1..];
    assert console.events == before + [RuntimeStarted] + deferred;
    exitCode := Report(console, result, before, deferred);
  }

  /** The terminal events and the exit code of one outcome. */
  method Report(
    console: Console, result: Result<SparkResult, string>, ghost before: seq<Event>, ghost deferred: seq<Event>)
    returns (exitCode: int)
    requires console.events == before + [RuntimeStarted] + deferred && AtMostDeferred(deferred)
    modifies console
    ensures exitCode == if result.Success? then 0 else 1
    ensures before <= console.events && Run(console.events[|before|..], result)
  {
    match result {
      case Failure(code) =>
        console.Print(RuntimeFailed(code));
        exitCode := 1;
      case Success(spark) =>
        console.Print(SparkCompleted(spark));
        console.Print(RuntimeSucceeded(spark.sourceRows, spark.affectedRows));
        exitCode := 0;
    }
    assert console.events[|before|..] == [RuntimeStarted] + deferred + Ending(result);
    assert Told(console.events[|before|..], deferred, result);
  }

  /** The events that report an outcome. */
  function Ending(outcome: Result<SparkResult, string>): seq<Event> {
    match outcome
    case Failure(code) => [RuntimeFailed(code)]
    case Success(s) => [SparkCompleted(s), RuntimeSucceeded(s.sourceRows, s.affectedRows)]
  }

  predicate Told(events: seq<Event>, deferred: seq<Event>, outcome: Result<SparkResult, string>) {
    AtMostDeferred(deferred) && events == [RuntimeStarted] + deferred + Ending(outcome)
  }

  /** The event grammar of one validated run. */
  ghost predicate Run(events: seq<Event>, outcome: Result<SparkResult, string>) {
    exists deferred :: Told(events, deferred, outcome)
  }

  predicate Terminal(e: Event) {
    e.RuntimeSucceeded? || e.RuntimeFailed?
  }

  /** Reading the grammar back: one started event, first; one terminal event, last; both are those of the outcome. */
  lemma RunShape(events: seq<Event>, outcome: Result<SparkResult, string>)
    requires Run(events, outcome)
    ensures |events| >= 2
    ensures forall i :: 0 <= i < |events| ==> (events[i].RuntimeStarted? <==> i == 0)
    ensures forall i :: 0 <= i < |events| ==> (Terminal(events[i]) <==> i == |events| - 1)
    ensures forall i :: 0 <= i < |events| ==>
      (events[i].SparkCompleted? <==> outcome.Success? && i == |events| - 2)
    ensures match outcome
      case Failure(code) => events[|events| - 1] == RuntimeFailed(code)
      case Success(s) =>
        events[|events| - 2] == SparkCompleted(s) &&
        events[|events| - 1] == RuntimeSucceeded(s.sourceRows, s.affectedRows)
  {
    var deferred :| Told(events, deferred, outcome);
  }

  /** So two different outcomes are never told by the same events. */
  lemma RunTellsOutcome(events: seq<Event>, a: Result<SparkResult, string>, b: Result<SparkResult, string>)
    requires Run(events, a) && Run(events, b)
    ensures a == b
  {
    RunShape(events, a);
    RunShape(events, b);
    var last := events[|events| - 1];
    assert last.RuntimeSucceeded? <==> a.Success?;
    assert last.RuntimeSucceeded? <==> b.Success?;
  }

  // ---------------------------------------------------------------- other runs

  lemma UnderSameLength(u: Path, v: Path, p: Path)
    requires Under(u, p) && Under(v, p) && |u| == |v|
    ensures u == v
  {
    assert p[..|u|] == u && p[..|v|] == v;
  }

  /** Another run, or another attempt of the same run, keeps everything stored under its exchanges. */
  lemma OtherRunsUntouched(
    session: Session, invocation: Invocation, context: RuntimeContext, sha256: string -> string, owned: seq<Path>,
    before: map<Path, Frame>, after: map<Path, Frame>, other: Graph, otherContext: RuntimeContext, u: Path, p: Path)
    requires Owns(session, invocation, context, sha256, owned) && SameOutside(before, after, owned)
    requires context.runId != otherContext.runId || context.attempt != otherContext.attempt
    requires u in OwnedPaths(other, invocation, otherContext) && Under(u, p)
    ensures p in after <==> p in before
    ensures p in after ==> after[p] == before[p]
  {
    hide LoadedConfiguration;
    var j :| 0 <= j < |ExchangeNames(other)| &&
      u == ExchangePath(invocation.stagingBucket, otherContext.runId, otherContext.attempt, ExchangeNames(other)[j]);
    forall v | v in owned
      ensures !Under(v, p)
    {
      var g := LoadedGraph(session, invocation, context, sha256);
      var i :| 0 <= i < |ExchangeNames(g)| && v == OwnedPaths(g, invocation, context)[i];
      if Under(v, p) {
        UnderSameLength(v, u, p);
        ExchangesDisjoint(
          invocation.stagingBucket, context.runId, context.attempt, ExchangeNames(g)[i],
          invocation.stagingBucket, otherContext.runId, otherContext.attempt, ExchangeNames(other)[j]);
        assert false;
      }
    }
    assert !Covered(owned, p);
  }
}
