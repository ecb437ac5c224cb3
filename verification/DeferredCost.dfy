/**
 Deferred cost attribution of the Redshift benchmarks: a cleanup-verified workload is written out as an interim
 document, and costed later. Decimals are exact rationals, held as `real`.
*/
module DeferredCost {
  import opened Wrappers
  import opened CanonicalJson
  import opened CanonicalIdentity

  // ---------------------------------------------------------------- data

  /** The four fields that only a later superuser measurement can fill. */
  datatype External = External(charged: real, compute: real, capacity: real, cost: real)

  const UNATTRIBUTED := External(0.0, 0.0, 0.0, 0.0)

  /** A benchmark result record; the names of its integer measurements are the keys of `measurements`. */
  datatype Workload = Workload(
    measurements: map<string, int>, queryIds: seq<string>, cleanupVerified: bool, external: External)

  const QUERY_IDS := "query_ids"
  const CLEANUP := "cleanup_verified"

  datatype Identity = Identity(
    releaseVersion: string, gitCommit: string, imageDigest: string, approvalReference: string, benchmarkDate: string,
    launcher: string, secretProvider: string, serviceShapes: seq<string>, providerJobIds: seq<string>)

  /** What an interim is bound to; the ceiling is the text of its Decimal. */
  datatype Execution = Execution(
    schema: string, configurationSha256: string, identity: Identity, approvalReference: string, costCeiling: string)

  datatype CostError =
    | CleanupNotVerified
    | NotJson
    | IncompatibleSchema
    | OtherExecution
    | MalformedWorkload
    | IncompleteFields
    | MalformedQueryIds
    | MalformedMeasurements
    | InvalidProviderMeasurement
    | NoChargedUsage

  // ---------------------------------------------------------------- writing the interim

  function Strings(ss: seq<string>): Json {
    Arr(seq(|ss|, i requires 0 <= i < |ss| => Str(ss[i])))
  }

  function IdentityPayload(i: Identity): Json {
    Obj(map[
      "release_version" := Str(i.releaseVersion), "git_commit" := Str(i.gitCommit),
      "image_digest" := Str(i.imageDigest), "approval_reference" := Str(i.approvalReference),
      "benchmark_date" := Str(i.benchmarkDate), "launcher" := Str(i.launcher),
      "secret_provider" := Str(i.secretProvider), "service_shapes" := Strings(i.serviceShapes),
      "provider_job_ids" := Strings(i.providerJobIds)])
  }

  /** The record without its external fields. */
  function WorkloadPayload(w: Workload): map<string, Json> {
    (map name | name in w.measurements :: Int(w.measurements[name]))
      [QUERY_IDS := Strings(w.queryIds)][CLEANUP := Bool(w.cleanupVerified)]
  }

  function InterimPayload(e: Execution, w: Workload): Result<Json, CostError> {
    if !w.cleanupVerified then Failure(CleanupNotVerified) else
      Success(Obj(map[
        "schema" := Str(e.schema), "configuration_sha256" := Str(e.configurationSha256),
        "identity" := IdentityPayload(e.identity), "approval_reference" := Str(e.approvalReference),
        "cost_ceiling_usd" := Str(e.costCeiling), "workload" := Obj(WorkloadPayload(w))]))
  }

  // ---------------------------------------------------------------- loading it back

  /** The payload has this value under this key. */
  predicate Carries(payload: map<string, Json>, key: string, value: Json) {
    key in payload && payload[key] == value
  }

  predicate Matches(payload: map<string, Json>, e: Execution) {
    Carries(payload, "configuration_sha256", Str(e.configurationSha256)) &&
    Carries(payload, "identity", IdentityPayload(e.identity)) &&
    Carries(payload, "approval_reference", Str(e.approvalReference)) &&
    Carries(payload, "cost_ceiling_usd", Str(e.costCeiling))
  }

  /** The names besides the two special fields are measurements. */
  predicate FieldNames(names: set<string>) {
    QUERY_IDS !in names && CLEANUP !in names
  }

  predicate AllStrings(v: Json) {
    v.Arr? && forall i :: 0 <= i < |v.items| ==> v.items[i].Str?
  }

  function Texts(v: Json): seq<string>
    requires AllStrings(v)
  {
    seq(|v.items|, i requires 0 <= i < |v.items| => v.items[i].text)
  }

  predicate IsMeasurement(v: Json) {
    v.Int? && v.number >= 0
  }

  /** Every one of these fields is a non-negative integer. */
  ghost predicate Measured(workload: map<string, Json>, names: set<string>) {
    forall name :: name in names ==> name in workload && IsMeasurement(workload[name])
  }

  ghost function Numbers(workload: map<string, Json>, names: set<string>): map<string, int>
    requires Measured(workload, names)
  {
    map name | name in names :: workload[name].number
  }

  lemma NumbersGrow(workload: map<string, Json>, names: set<string>, name: string)
    requires Measured(workload, names) && name in workload && IsMeasurement(workload[name])
    ensures Measured(workload, names + {name})
    ensures Numbers(workload, names + {name}) == Numbers(workload, names)[name := workload[name].number]
  {
  }

  /** The loop over the expected fields, in whatever order the set yields them. */
  method LoadFields(workload: map<string, Json>, names: set<string>) returns (r: Result<Workload, CostError>)
    requires FieldNames(names) && workload.Keys == names + {QUERY_IDS, CLEANUP}
    ensures r.Success? <==> AllStrings(workload[QUERY_IDS]) && Measured(workload, names)
    ensures r.Success? ==>
      r.value == Workload(Numbers(workload, names), Texts(workload[QUERY_IDS]), true, UNATTRIBUTED)
    ensures r.Failure? ==> r.error == MalformedQueryIds || r.error == MalformedMeasurements
    ensures r == Failure(MalformedQueryIds) ==> !AllStrings(workload[QUERY_IDS])
    ensures r == Failure(MalformedMeasurements) ==> !Measured(workload, names)
  {
    ghost var loaded: set<string> := {};
    var remaining := workload.Keys;
    var measurements: map<string, int> := map[];
    var queryIds: seq<string> := [];
    while remaining != {}
      invariant remaining <= workload.Keys
      invariant QUERY_IDS !in remaining ==> AllStrings(workload[QUERY_IDS]) && queryIds == Texts(workload[QUERY_IDS])
      invariant loaded == names - remaining
      invariant Measured(workload, loaded) && measurements == Numbers(workload, loaded)
      decreases |remaining|
    {
      var name :| name in remaining;
      var value := workload[name];
      if name == QUERY_IDS {
        if !AllStrings(value) {
          return Failure(MalformedQueryIds);
        }
        queryIds := Texts(value);
      } else if name != CLEANUP {
        if !IsMeasurement(value) {
          assert name in names;
          return Failure(MalformedMeasurements);
        }
        NumbersGrow(workload, loaded, name);
        measurements := measurements[name := value.number];
        loaded := loaded + {name};
      }
      remaining := remaining - {name};
    }
    assert loaded == names;
    return Success(Workload(measurements, queryIds, true, UNATTRIBUTED));
  }

  /** A complete, well-formed workload whose cleanup was verified. */
  ghost predicate WellFormed(workload: map<string, Json>, names: set<string>) {
    workload.Keys == names + {QUERY_IDS, CLEANUP} && workload[CLEANUP] == Bool(true) &&
    AllStrings(workload[QUERY_IDS]) && Measured(workload, names)
  }

  /** A document that carries this execution's coordinates and a well-formed workload. */
  ghost predicate Loadable(payload: Json, e: Execution, names: set<string>) {
    payload.Obj? && Carries(payload.members, "schema", Str(e.schema)) && Matches(payload.members, e) &&
    "workload" in payload.members && payload.members["workload"].Obj? &&
    WellFormed(payload.members["workload"].members, names)
  }

  ghost function Loaded(payload: Json, e: Execution, names: set<string>): Workload
    requires Loadable(payload, e, names)
  {
    var workload := payload.members["workload"].members;
    Workload(Numbers(workload, names), Texts(workload[QUERY_IDS]), true, UNATTRIBUTED)
  }

  method LoadWorkload(payload: Json, e: Execution, names: set<string>) returns (r: Result<Workload, CostError>)
    requires FieldNames(names)
    ensures r.Success? <==> Loadable(payload, e, names)
    ensures r.Success? ==> r.value == Loaded(payload, e, names)
    ensures r == Failure(IncompatibleSchema) <==>
      !(payload.Obj? && Carries(payload.members, "schema", Str(e.schema)))
    ensures r == Failure(OtherExecution) <==>
      payload.Obj? && Carries(payload.members, "schema", Str(e.schema)) && !Matches(payload.members, e)
  {
    if !payload.Obj? || !Carries(payload.members, "schema", Str(e.schema)) {
      return Failure(IncompatibleSchema);
    }
    var members := payload.members;
    if !Matches(members, e) {
      return Failure(OtherExecution);
    }
    if "workload" !in members || !members["workload"].Obj? {
      return Failure(MalformedWorkload);
    }
    var workload := members["workload"].members;
    if workload.Keys != names + {QUERY_IDS, CLEANUP} || workload[CLEANUP] != Bool(true) {
      return Failure(IncompleteFields);
    }
    r := LoadFields(workload, names);
  }

  // ---------------------------------------------------------------- what loading accepts

  /** A finished workload before costing: verified cleanup and no negative measurement. */
  ghost predicate Finished(w: Workload, names: set<string>) {
    w.cleanupVerified && w.measurements.Keys == names && forall name :: name in names ==> w.measurements[name] >= 0
  }

  lemma TextsOfStrings(ss: seq<string>)
    ensures AllStrings(Strings(ss)) && Texts(Strings(ss)) == ss
  {
  }

  lemma StringsOfTexts(v: Json)
    requires AllStrings(v)
    ensures Strings(Texts(v)) == v
  {
    assert Strings(Texts(v)).items == v.items;
  }

  /** The identity payload determines every coordinate of the identity. */
  lemma IdentityBinding(a: Identity, b: Identity)
    requires IdentityPayload(a) == IdentityPayload(b)
    ensures a == b
  {
    var p, q := IdentityPayload(a).members, IdentityPayload(b).members;
    assert p["release_version"] == q["release_version"] && p["git_commit"] == q["git_commit"];
    assert p["image_digest"] == q["image_digest"] && p["approval_reference"] == q["approval_reference"];
    assert p["benchmark_date"] == q["benchmark_date"] && p["launcher"] == q["launcher"];
    assert p["secret_provider"] == q["secret_provider"];
    assert p["service_shapes"] == q["service_shapes"] && p["provider_job_ids"] == q["provider_job_ids"];
    TextsOfStrings(a.serviceShapes);
    TextsOfStrings(b.serviceShapes);
    TextsOfStrings(a.providerJobIds);
    TextsOfStrings(b.providerJobIds);
  }

  lemma WrittenWorkload(w: Workload, names: set<string>)
    requires FieldNames(names) && Finished(w, names)
    ensures WellFormed(WorkloadPayload(w), names)
    ensures Numbers(WorkloadPayload(w), names) == w.measurements
    ensures Texts(WorkloadPayload(w)[QUERY_IDS]) == w.queryIds
  {
    TextsOfStrings(w.queryIds);
  }

  lemma MatchesBinding(written: Execution, expected: Execution, w: Workload)
    requires InterimPayload(written, w).Success?
    ensures var payload := InterimPayload(written, w).value.members;
      Carries(payload, "schema", Str(expected.schema)) && Matches(payload, expected) <==> written == expected
  {
    if IdentityPayload(written.identity) == IdentityPayload(expected.identity) {
      IdentityBinding(written.identity, expected.identity);
    }
  }

  /** Loading an interim under any execution: it succeeds exactly for the execution that wrote it. */
  lemma LoadsOnlyItsExecution(written: Execution, expected: Execution, w: Workload, names: set<string>)
    requires FieldNames(names) && Finished(w, names)
    ensures InterimPayload(written, w).Success?
    ensures Loadable(InterimPayload(written, w).value, expected, names) <==> written == expected
    ensures written == expected ==>
      Loaded(InterimPayload(written, w).value, expected, names) == w.(external := UNATTRIBUTED)
  {
    MatchesBinding(written, expected, w);
    WrittenWorkload(w, names);
    assert InterimPayload(written, w).value.members["workload"] == Obj(WorkloadPayload(w));
  }

  ghost predicate CarriesAll(payload: map<string, Json>, expected: map<string, Json>) {
    forall key :: key in expected ==> Carries(payload, key, expected[key])
  }

  /** Whatever is accepted carries, under every key looked at, the interim of this execution for a finished workload. */
  lemma AcceptedIsInterim(payload: Json, e: Execution, names: set<string>)
    requires FieldNames(names) && Loadable(payload, e, names)
    ensures var w := Loaded(payload, e, names);
      Finished(w, names) && InterimPayload(e, w).Success? &&
      CarriesAll(payload.members, InterimPayload(e, w).value.members)
  {
    var w := Loaded(payload, e, names);
    var workload := payload.members["workload"].members;
    StringsOfTexts(workload[QUERY_IDS]);
    assert WorkloadPayload(w) == workload;
  }

  // ---------------------------------------------------------------- cost

  const PICO: real := 1000000000000.0

  /** Rounding to twelve decimal places, half up: ties move away from zero. */
  function Quantize(x: real): real {
    if x >= 0.0 then ((x * PICO + 0.5).Floor as real) / PICO else -(((-x * PICO + 0.5).Floor as real) / PICO)
  }

  function ExactCost(charged: real, rate: real): real {
    charged * rate / 3600.0
  }

  /** A multiple of 10^-12. */
  ghost predicate TwelvePlaces(x: real) {
    (x * PICO).Floor as real == x * PICO
  }

  lemma QuantizeError(x: real)
    ensures TwelvePlaces(Quantize(x))
    ensures -0.0000000000005 <= Quantize(x) - x <= 0.0000000000005
    ensures x >= 0.0 ==> Quantize(x) >= 0.0
    ensures TwelvePlaces(x) ==> Quantize(x) == x
  {
    var magnitude := if x >= 0.0 then x else -x;
    var steps := (magnitude * PICO + 0.5).Floor;
    assert (steps as real) / PICO * PICO == steps as real;
    assert (steps as real).Floor == steps;
    if x >= 0.0 {
      assert Quantize(x) * PICO == steps as real;
    } else {
      assert Quantize(x) * PICO == -(steps as real);
      assert -(steps as real) == (-steps) as real;
      assert ((-steps) as real).Floor == -steps;
    }
    if TwelvePlaces(x) {
      var n := (x * PICO).Floor;
      assert x * PICO == n as real;
      if x >= 0.0 {
        assert (n as real + 0.5).Floor == n;
      } else {
        assert -x * PICO == (-n) as real;
        assert ((-n) as real + 0.5).Floor == -n;
      }
    }
  }

  lemma FloorMonotone(x: real, y: real)
    requires x <= y
    ensures x.Floor <= y.Floor
  {
  }

  lemma StepsMonotone(x: real, y: real)
    requires 0.0 <= x <= y
    ensures Quantize(x) <= Quantize(y)
  {
    FloorMonotone(x * PICO + 0.5, y * PICO + 0.5);
    assert Quantize(x) * PICO <= Quantize(y) * PICO;
  }

  lemma QuantizeMonotone(x: real, y: real)
    requires x <= y
    ensures Quantize(x) <= Quantize(y)
  {
    if 0.0 <= x {
      StepsMonotone(x, y);
    } else if y < 0.0 {
      StepsMonotone(-y, -x);
    } else {
      QuantizeSign(x);
      QuantizeSign(y);
    }
  }

  lemma QuantizeSign(x: real)
    ensures x >= 0.0 ==> Quantize(x) >= 0.0
    ensures x <= 0.0 ==> Quantize(x) <= 0.0
  {
    QuantizeError(x);
    if x < 0.0 {
      assert (-x * PICO + 0.5).Floor >= 0;
    } else if x == 0.0 {
      assert (0.5).Floor == 0;
    }
  }

  /** The ceiling test on the rounded cost, as a test on the exact cost. */
  lemma CeilingIff(x: real, ceiling: real)
    requires x >= 0.0 && ceiling >= 0.0
    ensures Quantize(x) <= ceiling <==> x * PICO + 0.5 < (ceiling * PICO).Floor as real + 1.0
    ensures TwelvePlaces(ceiling) ==> (Quantize(x) <= ceiling <==> x < ceiling + 0.0000000000005)
  {
    var steps := (x * PICO + 0.5).Floor;
    assert Quantize(x) * PICO == steps as real;
    assert Quantize(x) <= ceiling <==> Quantize(x) * PICO <= ceiling * PICO;
    assert steps as real <= ceiling * PICO <==> steps <= (ceiling * PICO).Floor;
    assert steps <= (ceiling * PICO).Floor <==> x * PICO + 0.5 < (ceiling * PICO).Floor as real + 1.0;
  }

  // ---------------------------------------------------------------- the two paths

  /** A provider measurement given on the command line. */
  datatype Provided = Absent | NotFinite | Amount(value: real)

  predicate Acceptable(p: Provided, allowZero: bool) {
    p.Amount? && p.value >= 0.0 && (allowZero || p.value != 0.0)
  }

  function Attributed(w: Workload, charged: real, compute: real, capacity: real, rate: real): Workload {
    w.(external := External(charged, compute, capacity, Quantize(ExactCost(charged, rate))))
  }

  function WithExternalCost(w: Workload, charged: Provided, compute: Provided, capacity: Provided, rate: real)
    : Result<Workload, CostError>
  {
    if Acceptable(charged, false) && Acceptable(compute, true) && Acceptable(capacity, false) then
      Success(Attributed(w, charged.value, compute.value, capacity.value, rate))
    else
      Failure(InvalidProviderMeasurement)
  }

  /** What finalizing the text of an interim file yields, when it yields anything. */
  ghost function Finalized(
      text: string, e: Execution, names: set<string>, charged: Provided, compute: Provided, capacity: Provided,
      rate: real): Option<Workload>
  {
    if Loads(text).Some? && Loadable(Loads(text).value, e, names) &&
       WithExternalCost(Loaded(Loads(text).value, e, names), charged, compute, capacity, rate).Success?
    then Some(WithExternalCost(Loaded(Loads(text).value, e, names), charged, compute, capacity, rate).value)
    else None
  }

  /** The finalizing command. */
  method Finalize(
      text: string, e: Execution, names: set<string>, charged: Provided, compute: Provided, capacity: Provided,
      rate: real)
    returns (r: Result<Workload, CostError>)
    requires FieldNames(names)
    ensures r.Success? <==> Finalized(text, e, names, charged, compute, capacity, rate).Some?
    ensures r.Success? ==> Some(r.value) == Finalized(text, e, names, charged, compute, capacity, rate)
  {
    var payload := Loads(text);
    if payload.None? {
      return Failure(NotJson);
    }
    var w :- LoadWorkload(payload.value, e, names);
    return WithExternalCost(w, charged, compute, capacity, rate);
  }

  /** The costing tail of a direct run; the usage it reads itself is already known to be finite and non-negative. */
  function Direct(w: Workload, charged: real, compute: real, capacity: real, rate: real): Result<Workload, CostError>
    requires charged >= 0.0 && compute >= 0.0 && capacity >= 0.0
  {
    if charged <= 0.0 then Failure(NoChargedUsage) else
      Success(Attributed(w, charged, compute, capacity, rate))
  }

  lemma CostedLater(
      text: string, e: Execution, names: set<string>, w: Workload, charged: real, compute: real, capacity: real,
      rate: real)
    requires charged >= 0.0 && compute >= 0.0 && capacity >= 0.0
    requires Loads(text).Some? && Loadable(Loads(text).value, e, names)
    requires Loaded(Loads(text).value, e, names) == w.(external := UNATTRIBUTED)
    ensures Finalized(text, e, names, Amount(charged), Amount(compute), Amount(capacity), rate) ==
      if Direct(w, charged, compute, capacity, rate).Success? && capacity > 0.0
      then Some(Direct(w, charged, compute, capacity, rate).value) else None
  {
    var later := Loaded(Loads(text).value, e, names);
    assert Attributed(later, charged, compute, capacity, rate) == Attributed(w, charged, compute, capacity, rate);
  }

  /**
   Deferring changes nothing: writing the interim, reading it back and costing it gives the direct run's result, for
   every usage the direct run accepts whose capacity is positive. A zero capacity is accepted directly and refused
   when deferred; any other execution refuses the interim.
  */
  lemma DeferredEqualsDirect(
      written: Execution, expected: Execution, w: Workload, names: set<string>, charged: real, compute: real,
      capacity: real, rate: real)
    requires FieldNames(names) && Finished(w, names)
    requires charged >= 0.0 && compute >= 0.0 && capacity >= 0.0
    ensures InterimPayload(written, w).Success?
    ensures var text := EncodeAscii(InterimPayload(written, w).value) + "\n";
      var direct := Direct(w, charged, compute, capacity, rate);
      Finalized(text, expected, names, Amount(charged), Amount(compute), Amount(capacity), rate) ==
      if written == expected && direct.Success? && capacity > 0.0 then Some(direct.value) else None
  {
    LoadsOnlyItsExecution(written, expected, w, names);
    var payload := InterimPayload(written, w).value;
    LineRoundTrip(SortedDoc(payload), true);
    DenoteSorted(payload);
    if written == expected {
      CostedLater(EncodeAscii(payload) + "\n", expected, names, w, charged, compute, capacity, rate);
    }
  }
}
