/** The launcher preflight: a bounded readiness probe loop, its stage log, and the gate read from that log. */
module LauncherPreflight {
  import opened Wrappers
  import opened Text
  import opened Bags

  // ---------------------------------------------------------------- data

  /** Seconds, and a number of probes. */
  datatype Config = Config(socketTimeout: real, maximumProbes: nat, interval: real, window: real)

  predicate Valid(c: Config) {
    c.socketTimeout >= 0.0 && c.interval >= 0.0 && c.window >= 0.0
  }

  /** The only values the loader accepts. */
  const EXACT := Config(12.0, 4, 5.0, 115.0)

  datatype StageName =
    | Environment
    | Iam
    | Credentials
    | Connector(probe: nat)
    | Query(probe: nat)
    | Configuration
    | ClientInitialization
    | Internal
    | ArtifactUpload

  datatype Stage = Stage(name: StageName, failed: bool)

  datatype Probe = ConnectFailed | QueryFailed | Passed

  /**
   How a preflight went: where it stopped, or what its probes found; a refusal, a connector that cannot be loaded or a
   raising close leaves no log.
  */
  datatype Run =
    | Refused
    | EnvironmentFailed
    | IamFailed
    | CredentialsFailed
    | ConnectorMissing
    | Probed(probes: seq<Probe>)
    | CloseRaised(probes: seq<Probe>, answered: bool)

  /** The calls the preflight makes, with their outcomes. */
  datatype Call =
    | CheckEnvironment(ok: bool)
    | CheckIam(ok: bool)
    | GetCredentials(ok: bool)
    | LoadConnector(ok: bool)
    | Connect(probe: nat, ok: bool)
    | SelectOne(probe: nat, ok: bool)
    | Close(probe: nat, ok: bool)
    | Upload(ok: bool)

  // ---------------------------------------------------------------- the stage log

  const QUERY_PREFIX := "readiness_validation_query_"

  /** The name as it is logged. */
  function Shown(name: StageName): string {
    match name
    case Environment => "launcher_environment"
    case Iam => "iam_readiness"
    case Credentials => "get_credentials"
    case Connector(probe) => "readiness_connector_" + Digits(probe)
    case Query(probe) => QUERY_PREFIX + Digits(probe)
    case Configuration => "launcher_configuration"
    case ClientInitialization => "launcher_client_initialization"
    case Internal => "launcher_preflight_internal"
    case ArtifactUpload => "diagnostic_artifact_upload"
  }

  function ProbeStages(p: Probe, probe: nat): seq<Stage> {
    match p
    case ConnectFailed => [Stage(Connector(probe), true)]
    case QueryFailed => [Stage(Connector(probe), false), Stage(Query(probe), true)]
    case Passed => [Stage(Connector(probe), false), Stage(Query(probe), false)]
  }

  /** (connector, optional query)*, numbered from one. */
  function ProbeLog(probes: seq<Probe>): seq<Stage> {
    if probes == [] then [] else
      ProbeLog(probes[..|probes| - 1]) + ProbeStages(probes[|probes| - 1], |probes|)
  }

  const GATE_LOG := [Stage(Environment, false), Stage(Iam, false), Stage(Credentials, false)]

  predicate HasLog(run: Run) {
    !run.Refused? && !run.ConnectorMissing? && !run.CloseRaised?
  }

  /** The grammar of the log. */
  function Log(run: Run): seq<Stage>
    requires HasLog(run)
  {
    match run
    case EnvironmentFailed => [Stage(Environment, true)]
    case IamFailed => [Stage(Environment, false), Stage(Iam, true)]
    case CredentialsFailed => [Stage(Environment, false), Stage(Iam, false), Stage(Credentials, true)]
    case Probed(probes) => GATE_LOG + ProbeLog(probes)
  }

  /** The calls behind one probe; an opened connection is closed within its own probe. */
  function ProbeCalls(p: Probe, probe: nat): seq<Call> {
    match p
    case ConnectFailed => [Connect(probe, false)]
    case QueryFailed => [Connect(probe, true), SelectOne(probe, false), Close(probe, true)]
    case Passed => [Connect(probe, true), SelectOne(probe, true), Close(probe, true)]
  }

  /** The calls of a probe whose close raised. */
  function BrokenCalls(answered: bool, probe: nat): seq<Call> {
    [Connect(probe, true), SelectOne(probe, answered), Close(probe, false)]
  }

  const GATES := [CheckEnvironment(true), CheckIam(true), GetCredentials(true), LoadConnector(true)]

  function AllProbeCalls(probes: seq<Probe>): seq<Call> {
    if probes == [] then [] else
      AllProbeCalls(probes[..|probes| - 1]) + ProbeCalls(probes[|probes| - 1], |probes|)
  }

  function Calls(run: Run): seq<Call> {
    match run
    case Refused => []
    case EnvironmentFailed => [CheckEnvironment(false)]
    case IamFailed => [CheckEnvironment(true), CheckIam(false)]
    case CredentialsFailed => [CheckEnvironment(true), CheckIam(true), GetCredentials(false)]
    case ConnectorMissing => [CheckEnvironment(true), CheckIam(true), GetCredentials(true), LoadConnector(false)]
    case Probed(probes) => GATES + AllProbeCalls(probes)
    case CloseRaised(probes, answered) => GATES + (AllProbeCalls(probes) + BrokenCalls(answered, |probes| + 1))
  }

  /** Only the last probe may have passed. */
  predicate Sequential(probes: seq<Probe>) {
    forall i :: 0 <= i < |probes| - 1 ==> probes[i] != Passed
  }

  predicate Ready(run: Run) {
    run.Probed? && run.probes != [] && run.probes[|run.probes| - 1] == Passed
  }

  // ---------------------------------------------------------------- the probe schedule

  /** The pause after a probe with this much of the window left. */
  function Pause(c: Config, remaining: real): real {
    if remaining <= 0.0 then 0.0 else if remaining < c.interval then remaining else c.interval
  }

  /** The time since the loop began at which the next probe may start, after failed probes of these durations. */
  function Elapsed(c: Config, durations: seq<real>): real {
    if durations == [] then 0.0 else
      var ended := Elapsed(c, durations[..|durations| - 1]) + durations[|durations| - 1];
      ended + if |durations| < c.maximumProbes then Pause(c, c.window - ended) else 0.0
  }

  /** The guard of the loop: enough of the window is left for a connector and a query. */
  predicate MayStart(c: Config, durations: seq<real>) {
    c.window - Elapsed(c, durations) >= 2.0 * c.socketTimeout
  }

  /** Whether some of the window is left after the last of these probes. */
  predicate MayPause(c: Config, durations: seq<real>)
    requires durations != []
  {
    c.window - (Elapsed(c, durations[..|durations| - 1]) + durations[|durations| - 1]) > 0.0
  }

  /** Failed probes of these durations can happen one after the other. */
  predicate Possible(c: Config, durations: seq<real>)
    decreases |durations|
  {
    durations != [] ==>
      var earlier := durations[..|durations| - 1];
      Possible(c, earlier) && MayStart(c, earlier) && (earlier != [] ==> MayPause(c, earlier))
  }

  /** Connector and query each stayed within the socket timeout. */
  predicate Timely(c: Config, durations: seq<real>) {
    forall i :: 0 <= i < |durations| ==> 0.0 <= durations[i] <= 2.0 * c.socketTimeout
  }

  /** The loop gives up after these probes although the configured number has not been reached. */
  predicate CutShort(c: Config, durations: seq<real>) {
    |durations| < c.maximumProbes &&
    (!MayStart(c, durations) || (durations != [] && !MayPause(c, durations)))
  }

  /** The longest that k probes with their pauses can take. */
  function Slowest(c: Config, k: nat): real {
    if k == 0 then 0.0 else Slowest(c, k - 1) + 2.0 * c.socketTimeout + c.interval
  }

  lemma {:induction false} SlowestTotal(c: Config, k: nat)
    ensures Slowest(c, k) == k as real * (2.0 * c.socketTimeout + c.interval)
  {
    if k > 0 {
      SlowestTotal(c, k - 1);
    }
  }

  lemma {:induction false} ElapsedBound(c: Config, durations: seq<real>)
    requires Valid(c) && Timely(c, durations)
    ensures 0.0 <= Elapsed(c, durations) <= Slowest(c, |durations|)
    decreases |durations|
  {
    if durations != [] {
      ElapsedBound(c, durations[..|durations| - 1]);
    }
  }

  /** k failed probes that each take as long as the timeouts allow. */
  function Worst(c: Config, k: nat): (ds: seq<real>)
    requires Valid(c)
    ensures |ds| == k && Timely(c, ds)
  {
    seq(k, i => 2.0 * c.socketTimeout)
  }

  lemma NextDuration(c: Config, before: seq<real>, d: real)
    ensures var after, ended := before + [d], Elapsed(c, before) + d;
      Elapsed(c, after) == ended + (if |before| + 1 < c.maximumProbes then Pause(c, c.window - ended) else 0.0) &&
      (MayPause(c, after) <==> c.window - ended > 0.0) &&
      (Possible(c, after) <==> Possible(c, before) && MayStart(c, before) && (before != [] ==> MayPause(c, before)))
  {
    var after := before + [d];
    assert after[..|after| - 1] == before;
  }

  /** Unless the loop is cut short earlier, the worst probes take exactly the bound. */
  lemma {:induction false} WorstElapsed(c: Config, k: nat) returns (cut: nat)
    requires Valid(c) && c.socketTimeout > 0.0 && k < c.maximumProbes
    ensures cut <= k && Possible(c, Worst(c, cut))
    ensures CutShort(c, Worst(c, cut)) || (cut == k && Elapsed(c, Worst(c, k)) == Slowest(c, k))
  {
    if k == 0 {
      cut := 0;
    } else {
      cut := WorstElapsed(c, k - 1);
      if !CutShort(c, Worst(c, cut)) {
        NextDuration(c, Worst(c, k - 1), 2.0 * c.socketTimeout);
        assert Worst(c, k) == Worst(c, k - 1) + [2.0 * c.socketTimeout];
        cut := k;
      }
    }
  }

  /** The deadline costs no probe, whatever the timely durations. */
  ghost predicate NeverCutShort(c: Config) {
    forall durations :: Timely(c, durations) && Possible(c, durations) ==> !CutShort(c, durations)
  }

  lemma WindowDecides(c: Config)
    requires Valid(c) && c.socketTimeout > 0.0 && c.maximumProbes > 0
    ensures NeverCutShort(c) <==> c.window >= Slowest(c, c.maximumProbes - 1) + 2.0 * c.socketTimeout
  {
    var last := c.maximumProbes - 1;
    if c.window >= Slowest(c, last) + 2.0 * c.socketTimeout {
      forall durations | Timely(c, durations) && Possible(c, durations)
        ensures !CutShort(c, durations)
      {
        FitsWindow(c, durations);
      }
    } else {
      var cut := WorstElapsed(c, last);
      assert Timely(c, Worst(c, cut)) && Possible(c, Worst(c, cut));
      assert CutShort(c, Worst(c, cut));
    }
  }

  /** No probe is ever lost exactly when the window holds every probe and every pause between two. */
  lemma NeverCutShortIff(c: Config)
    requires Valid(c) && c.socketTimeout > 0.0 && c.maximumProbes > 0
    ensures NeverCutShort(c) <==>
      c.window >= (c.maximumProbes - 1) as real * (2.0 * c.socketTimeout + c.interval) + 2.0 * c.socketTimeout
  {
    WindowDecides(c);
    SlowestTotal(c, c.maximumProbes - 1);
  }

  lemma FitsWindow(c: Config, durations: seq<real>)
    requires Valid(c) && c.socketTimeout > 0.0 && c.maximumProbes > 0 && Timely(c, durations)
    requires c.window >= Slowest(c, c.maximumProbes - 1) + 2.0 * c.socketTimeout
    ensures !CutShort(c, durations)
  {
    if |durations| < c.maximumProbes {
      ElapsedBound(c, durations);
      SlowestGrows(c, |durations|, c.maximumProbes - 1);
      if durations != [] {
        var k := |durations| - 1;
        ElapsedBound(c, durations[..k]);
      }
    }
  }

  lemma {:induction false} SlowestGrows(c: Config, a: nat, b: nat)
    requires Valid(c) && a <= b
    ensures Slowest(c, a) <= Slowest(c, b)
  {
    if a < b {
      SlowestGrows(c, a, b - 1);
    }
  }

  /** With the exact constants no probe is ever lost to the deadline. */
  lemma ExactNeverCutShort(durations: seq<real>)
    requires Timely(EXACT, durations)
    ensures !CutShort(EXACT, durations)
  {
    SlowestTotal(EXACT, 3);
    FitsWindow(EXACT, durations);
  }

  // ---------------------------------------------------------------- foreign calls

  /** The provider clients and the monotonic clock. */
  class Provider {
    var now: real
    var calls: seq<Call>
    /** Connections opened and not yet closed. */
    var connections: nat
    /** Every connector and query returns within the socket timeout, and closing takes no time. */
    const timely: bool
    const socketTimeout: real

    constructor (timely: bool, socketTimeout: real)
      ensures this.timely == timely && this.socketTimeout == socketTimeout && calls == [] && connections == 0
    {
      this.timely, this.socketTimeout := timely, socketTimeout;
      now, calls, connections := 0.0, [], 0;
    }

    /** Some time passes; a timely provider keeps to the limit. */
    method Pass(limit: real)
      requires limit >= 0.0
      modifies `now
      ensures now >= old(now)
      ensures timely ==> now <= old(now) + limit
    {
      var elapsed: real := *;
      if 0.0 <= elapsed && (timely ==> elapsed <= limit) {
        now := now + elapsed;
      }
    }

    method Gate(call: Call)
      modifies `now, `calls
      ensures now >= old(now) && calls == old(calls) + [call]
    {
      var elapsed: real := *;
      if 0.0 <= elapsed {
        now := now + elapsed;
      }
      calls := calls + [call];
    }

    method CheckEnvironment() returns (ok: bool)
      modifies `now, `calls
      ensures now >= old(now) && calls == old(calls) + [Call.CheckEnvironment(ok)]
    {
      ok := *;
      Gate(Call.CheckEnvironment(ok));
    }

    method CheckIam() returns (ok: bool)
      modifies `now, `calls
      ensures now >= old(now) && calls == old(calls) + [Call.CheckIam(ok)]
    {
      ok := *;
      Gate(Call.CheckIam(ok));
    }

    method GetCredentials() returns (ok: bool)
      modifies `now, `calls
      ensures now >= old(now) && calls == old(calls) + [Call.GetCredentials(ok)]
    {
      ok := *;
      Gate(Call.GetCredentials(ok));
    }

    /** Importing the database connector. */
    method LoadConnector() returns (ok: bool)
      modifies `now, `calls
      ensures now >= old(now) && calls == old(calls) + [Call.LoadConnector(ok)]
    {
      ok := *;
      Gate(Call.LoadConnector(ok));
    }

    /** Opening is only ever asked for when no connection is open. */
    method Connect(probe: nat) returns (ok: bool)
      requires connections == 0 && socketTimeout >= 0.0
      modifies `now, `calls, `connections
      ensures now >= old(now) && (timely ==> now <= old(now) + socketTimeout)
      ensures calls == old(calls) + [Call.Connect(probe, ok)] && connections == if ok then 1 else 0
    {
      ok := *;
      Pass(socketTimeout);
      calls := calls + [Call.Connect(probe, ok)];
      connections := if ok then 1 else 0;
    }

    method SelectOne(probe: nat) returns (ok: bool)
      requires connections == 1 && socketTimeout >= 0.0
      modifies `now, `calls
      ensures now >= old(now) && (timely ==> now <= old(now) + socketTimeout)
      ensures calls == old(calls) + [Call.SelectOne(probe, ok)]
    {
      ok := *;
      Pass(socketTimeout);
      calls := calls + [Call.SelectOne(probe, ok)];
    }

    /** Closing may raise. */
    method Close(probe: nat) returns (ok: bool)
      requires connections == 1
      modifies `now, `calls, `connections
      ensures now >= old(now) && (timely ==> now == old(now))
      ensures calls == old(calls) + [Call.Close(probe, ok)] && connections == if ok then 0 else 1
    {
      ok := *;
      Pass(0.0);
      calls := calls + [Call.Close(probe, ok)];
      connections := if ok then 0 else 1;
    }

    method Sleep(seconds: real)
      requires seconds >= 0.0
      modifies `now
      ensures now == old(now) + seconds
    {
      now := now + seconds;
    }

    method Upload() returns (ok: bool)
      modifies `now, `calls
      ensures now >= old(now) && calls == old(calls) + [Call.Upload(ok)]
    {
      ok := *;
      Gate(Call.Upload(ok));
    }
  }

  // ---------------------------------------------------------------- the preflight

  /** One probe: connect, then query and close when connected; a close that raises loses the log. */
  method RunProbe(provider: Provider, probe: nat, stages: seq<Stage>) returns (r: Option<seq<Stage>>, outcome: Probe)
    requires provider.connections == 0 && provider.socketTimeout >= 0.0
    modifies provider`now, provider`calls, provider`connections
    ensures provider.now >= old(provider.now)
    ensures provider.timely ==> provider.now <= old(provider.now) + 2.0 * provider.socketTimeout
    ensures r.Some? ==> r.value == stages + ProbeStages(outcome, probe) && provider.connections == 0
    ensures r.Some? ==> provider.calls == old(provider.calls) + ProbeCalls(outcome, probe)
    ensures r.None? ==>
      outcome != ConnectFailed && provider.calls == old(provider.calls) + BrokenCalls(outcome == Passed, probe)
  {
    var connected := provider.Connect(probe);
    var logged := stages + [Stage(Connector(probe), !connected)];
    if !connected {
      return Some(logged), ConnectFailed;
    }
    var passed := provider.SelectOne(probe);
    logged := logged + [Stage(Query(probe), !passed)];
    var closed := provider.Close(probe);
    outcome := if passed then Passed else QueryFailed;
    if !closed {
      return None, outcome;
    }
    return Some(logged), outcome;
  }

  lemma Regrouped<T>(a: seq<T>, b: seq<T>, c: seq<T>)
    ensures a + (b + c) == a + b + c
  {
  }

  lemma NextProbe(probes: seq<Probe>, p: Probe, stages: seq<Stage>, calls: seq<Call>)
    ensures stages + ProbeLog(probes + [p]) == stages + ProbeLog(probes) + ProbeStages(p, |probes| + 1)
    ensures calls + AllProbeCalls(probes + [p]) == calls + AllProbeCalls(probes) + ProbeCalls(p, |probes| + 1)
  {
    assert (probes + [p])[..|probes|] == probes;
    Regrouped(stages, ProbeLog(probes), ProbeStages(p, |probes| + 1));
    Regrouped(calls, AllProbeCalls(probes), ProbeCalls(p, |probes| + 1));
  }

  /** The loop has made failed probes of these durations and is about to consider the next one. */
  ghost predicate Paced(c: Config, durations: seq<real>, elapsed: real, timely: bool) {
    Possible(c, durations) && elapsed == Elapsed(c, durations) &&
    (timely ==> Timely(c, durations) && elapsed <= c.window) &&
    (durations != [] && |durations| < c.maximumProbes ==> MayPause(c, durations))
  }

  /** A probe has just failed: the pause, if one is due, is still to come. */
  ghost predicate Due(c: Config, after: seq<real>, elapsed: real, timely: bool) {
    var left := c.window - elapsed;
    Possible(c, after) && (timely ==> Timely(c, after) && left >= 0.0) &&
    if |after| < c.maximumProbes && left <= 0.0 then CutShort(c, after) else
    Paced(c, after, elapsed + if |after| < c.maximumProbes then Pause(c, left) else 0.0, timely)
  }

  lemma PacedStep(c: Config, before: seq<real>, elapsed: real, d: real, ended: real, timely: bool)
    requires ended == elapsed + d
    requires Paced(c, before, elapsed, timely) && |before| < c.maximumProbes
    requires c.window - elapsed >= 2.0 * c.socketTimeout
    requires timely ==> 0.0 <= d <= 2.0 * c.socketTimeout
    ensures Due(c, before + [d], ended, timely)
  {
    NextDuration(c, before, d);
  }

  /** The pause between two probes, if any of the window is left. */
  method Rest(provider: Provider, c: Config, deadline: real) returns (left: bool)
    requires Valid(c)
    modifies provider`now
    ensures left <==> old(provider.now) < deadline
    ensures provider.now == old(provider.now) + Pause(c, deadline - old(provider.now))
  {
    var remaining := deadline - provider.now;
    if remaining <= 0.0 {
      return false;
    }
    provider.Sleep(if remaining < c.interval then remaining else c.interval);
    return true;
  }

  /** At most one probe passed, the last; without it, the probes were used up or the deadline cut them short. */
  ghost predicate Ended(c: Config, probes: seq<Probe>, durations: seq<real>, timely: bool) {
    Sequential(probes) && |probes| <= c.maximumProbes && Possible(c, durations) &&
    (timely ==> Timely(c, durations)) &&
    (Ready(Probed(probes)) || (|durations| == |probes| && (|probes| == c.maximumProbes || CutShort(c, durations))))
  }

  lemma GaveUp(c: Config, probes: seq<Probe>, durations: seq<real>, timely: bool)
    requires Passed !in probes && |probes| == |durations| <= c.maximumProbes
    requires Possible(c, durations) && (timely ==> Timely(c, durations))
    requires |probes| == c.maximumProbes || CutShort(c, durations)
    ensures Ended(c, probes, durations, timely)
  {
  }

  lemma FoundReady(c: Config, probes: seq<Probe>, durations: seq<real>, timely: bool)
    requires Passed !in probes && |probes| < c.maximumProbes
    requires Possible(c, durations) && (timely ==> Timely(c, durations))
    ensures Ended(c, probes + [Passed], durations, timely)
  {
  }

  /** After a failed probe: the pause, unless it was the last one or the window is used up. */
  method Onward(provider: Provider, c: Config, probe: nat, deadline: real, ghost began: real, ghost after: seq<real>)
    returns (over: bool)
    requires Valid(c) && probe == |after| <= c.maximumProbes && deadline == began + c.window
    requires Due(c, after, provider.now - began, provider.timely)
    modifies provider`now
    ensures provider.timely ==> provider.now <= deadline
    ensures over ==> probe == c.maximumProbes || CutShort(c, after)
    ensures !over ==> probe < c.maximumProbes && Paced(c, after, provider.now - began, provider.timely)
  {
    over := true;
    if probe < c.maximumProbes {
      var left := Rest(provider, c, deadline);
      over := !left;
    }
  }

  /** The log and the calls so far are those of these probes. */
  ghost predicate Chronicle(
    stages: seq<Stage>, calls: seq<Call>, logged: seq<Stage>, made: seq<Call>, probes: seq<Probe>)
  {
    logged == stages + ProbeLog(probes) && made == calls + AllProbeCalls(probes)
  }

  /** No probe has passed yet, and the next one may be considered. */
  ghost predicate Going(c: Config, probes: seq<Probe>, durations: seq<real>, elapsed: real, timely: bool) {
    Passed !in probes && |durations| == |probes| <= c.maximumProbes && Paced(c, durations, elapsed, timely)
  }

  /** One turn of the loop, on the whole log. */
  method Turn(
      provider: Provider, c: Config, logged: seq<Stage>, deadline: real, ghost began: real, ghost stages: seq<Stage>,
      ghost calls: seq<Call>, ghost probes: seq<Probe>, ghost durations: seq<real>, probe: nat)
    returns (r: Option<seq<Stage>>, outcome: Probe, over: bool, ghost after: seq<real>)
    requires Valid(c) && provider.connections == 0 && provider.socketTimeout == c.socketTimeout
    requires Chronicle(stages, calls, logged, provider.calls, probes)
    requires Going(c, probes, durations, provider.now - began, provider.timely)
    requires deadline == began + c.window && probe == |probes| + 1 <= c.maximumProbes
    requires deadline - provider.now >= 2.0 * c.socketTimeout
    modifies provider`now, provider`calls, provider`connections
    ensures provider.timely ==> provider.now <= deadline
    ensures r.None? ==> provider.calls == calls + AllProbeCalls(probes) + BrokenCalls(outcome == Passed, probe)
    ensures r.Some? ==> provider.connections == 0
    ensures r.Some? ==> Chronicle(stages, calls, r.value, provider.calls, probes + [outcome])
    ensures r.Some? && over ==> Ended(c, probes + [outcome], after, provider.timely)
    ensures r.Some? && !over ==> Going(c, probes + [outcome], after, provider.now - began, provider.timely)
  {
    hide ProbeLog, AllProbeCalls, ProbeStages, ProbeCalls, BrokenCalls, Possible, Timely, CutShort, Ended;
    after, over := durations, true;
    ghost var elapsed := provider.now - began;
    r, outcome := RunProbe(provider, probe, logged);
    ghost var ended := provider.now - began;
    PacedStep(c, durations, elapsed, ended - elapsed, ended, provider.timely);
    if r.None? {
      return;
    }
    NextProbe(probes, outcome, stages, calls);
    if outcome == Passed {
      FoundReady(c, probes, durations, provider.timely);
      return;
    }
    after := durations + [ended - elapsed];
    over := Onward(provider, c, probe, deadline, began, after);
    if over {
      GaveUp(c, probes + [outcome], after, provider.timely);
    }
  }

  /** The probe loop; the ghost results are the probes made and the durations of those that failed. */
  method RunProbes(provider: Provider, c: Config, stages: seq<Stage>)
    returns (r: Option<seq<Stage>>, ghost probes: seq<Probe>, ghost durations: seq<real>, ghost answered: bool)
    requires Valid(c) && provider.connections == 0 && provider.socketTimeout == c.socketTimeout
    modifies provider`now, provider`calls, provider`connections
    ensures r.Some? ==> Chronicle(stages, old(provider.calls), r.value, provider.calls, probes)
    ensures r.Some? ==> provider.connections == 0
    ensures r.None? ==>
      provider.calls == old(provider.calls) + AllProbeCalls(probes) + BrokenCalls(answered, |probes| + 1)
    ensures provider.timely ==> provider.now <= old(provider.now) + c.window
    ensures r.Some? ==> Ended(c, probes, durations, provider.timely)
  {
    ghost var began := provider.now;
    var deadline := provider.now + c.window;
    var logged := stages;
    probes, durations := [], [];
    var probe := 1;
    var over := false;
    while probe <= c.maximumProbes && !over && deadline - provider.now >= 2.0 * c.socketTimeout
      invariant provider.connections == 0 && |probes| == probe - 1
      invariant Chronicle(stages, old(provider.calls), logged, provider.calls, probes)
      invariant provider.timely ==> provider.now <= deadline
      invariant over ==> Ended(c, probes, durations, provider.timely)
      invariant !over ==> Going(c, probes, durations, provider.now - began, provider.timely)
      decreases c.maximumProbes + 1 - probe
    {
      var more, outcome;
      ghost var after;
      more, outcome, over, after :=
        Turn(provider, c, logged, deadline, began, stages, old(provider.calls), probes, durations, probe);
      if more.None? {
        return None, probes, durations, outcome == Passed;
      }
      logged := more.value;
      probes, durations, probe := probes + [outcome], after, probe + 1;
    }
    if !over {
      GaveUp(c, probes, durations, provider.timely);
    }
    return Some(logged), probes, durations, true;
  }

  /** With the exact constants and a timely provider, a failing preflight has made all four probes. */
  lemma ExactEnds(probes: seq<Probe>, durations: seq<real>)
    requires Ended(EXACT, probes, durations, true)
    ensures Ready(Probed(probes)) || |probes| == 4
  {
    ExactNeverCutShort(durations);
  }

  /** The three gates and the connector; None when all are passed, otherwise how the preflight ends. */
  method RunGates(provider: Provider) returns (stages: seq<Stage>, ended: Option<Run>)
    modifies provider`now, provider`calls
    ensures ended.Some? ==> !ended.value.Refused? && !ended.value.Probed? && !ended.value.CloseRaised?
    ensures ended.Some? && HasLog(ended.value) ==> stages == Log(ended.value)
    ensures ended.Some? ==> provider.calls == old(provider.calls) + Calls(ended.value)
    ensures ended.None? ==> stages == GATE_LOG && provider.calls == old(provider.calls) + GATES
  {
    var ok := provider.CheckEnvironment();
    stages := [Stage(Environment, !ok)];
    if !ok {
      return stages, Some(EnvironmentFailed);
    }
    ok := provider.CheckIam();
    stages := stages + [Stage(Iam, !ok)];
    if !ok {
      return stages, Some(IamFailed);
    }
    ok := provider.GetCredentials();
    stages := stages + [Stage(Credentials, !ok)];
    if !ok {
      return stages, Some(CredentialsFailed);
    }
    ok := provider.LoadConnector();
    return stages, if ok then None else Some(ConnectorMissing);
  }

  lemma AfterGates(before: seq<Call>, all: seq<Call>, broken: seq<Call>)
    ensures before + GATES + all == before + (GATES + all)
    ensures before + GATES + all + broken == before + (GATES + (all + broken))
  {
    Regrouped(before, GATES, all);
    Regrouped(before + GATES, all, broken);
    Regrouped(before, GATES, all + broken);
  }

  /** The gates, then the probes. */
  method RunPreflight(provider: Provider, c: Config, singleAttempt: bool)
    returns (r: Option<seq<Stage>>, ghost run: Run)
    requires Valid(c) && provider.connections == 0 && provider.socketTimeout == c.socketTimeout
    modifies provider`now, provider`calls, provider`connections
    ensures provider.calls == old(provider.calls) + Calls(run)
    ensures r.Some? <==> HasLog(run)
    ensures r.Some? ==> r.value == Log(run)
    ensures run.Probed? ==> Sequential(run.probes) && |run.probes| <= c.maximumProbes
    ensures r.Some? ==> provider.connections == 0
    ensures run.Refused? <==> !singleAttempt
    ensures provider.timely && c == EXACT && run.Probed? ==> Ready(run) || |run.probes| == 4
  {
    if !singleAttempt {
      return None, Refused;
    }
    var stages, ended := RunGates(provider);
    if ended.Some? {
      return if HasLog(ended.value) then Some(stages) else None, ended.value;
    }
    ghost var probes, durations, answered;
    r, probes, durations, answered := RunProbes(provider, c, stages);
    run := if r.Some? then Probed(probes) else CloseRaised(probes, answered);
    AfterGates(old(provider.calls), AllProbeCalls(probes), BrokenCalls(answered, |probes| + 1));
    if r.Some? && c == EXACT && provider.timely {
      ExactEnds(probes, durations);
    }
  }

  // ---------------------------------------------------------------- the gate

  predicate PreflightPassed(stages: seq<Stage>) {
    stages != [] && QUERY_PREFIX <= Shown(stages[|stages| - 1].name) && !stages[|stages| - 1].failed
  }

  /** The prefix test finds exactly the query stages. */
  lemma PrefixMeansQuery(name: StageName)
    ensures QUERY_PREFIX <= Shown(name) <==> name.Query?
  {
    if name.Connector? {
      assert Shown(name)[10] == 'c' && QUERY_PREFIX[10] == 'v';
    } else if !name.Query? {
      assert Shown(name)[0] != QUERY_PREFIX[0];
    }
  }

  lemma FixedNames(name: StageName)
    ensures name.Connector? <==> Shown(name)[0] == 'r' && Shown(name)[10] == 'c'
    ensures name.Environment? ==> |Shown(name)| == 20
    ensures name.Iam? ==> |Shown(name)| == 13
    ensures name.Credentials? ==> |Shown(name)| == 15
    ensures name.Configuration? ==> |Shown(name)| == 22
    ensures name.ClientInitialization? ==> |Shown(name)| == 30
    ensures name.Internal? ==> |Shown(name)| == 27
    ensures name.ArtifactUpload? ==> |Shown(name)| == 26
  {
  }

  /** Distinct stages are logged under distinct names. */
  lemma ShownInjective(a: StageName, b: StageName)
    ensures Shown(a) == Shown(b) ==> a == b
  {
    PrefixMeansQuery(a);
    PrefixMeansQuery(b);
    FixedNames(a);
    FixedNames(b);
    if a.Query? && b.Query? {
      assert Shown(a)[27..] == Digits(a.probe) && Shown(b)[27..] == Digits(b.probe);
      if Digits(a.probe) == Digits(b.probe) {
        DigitsInjective(a.probe, b.probe);
      }
    } else if a.Connector? && b.Connector? {
      assert Shown(a)[20..] == Digits(a.probe) && Shown(b)[20..] == Digits(b.probe);
      if Digits(a.probe) == Digits(b.probe) {
        DigitsInjective(a.probe, b.probe);
      }
    }
  }

  /** The last stage alone tells whether every gate was passed and the last probe's query succeeded. */
  lemma GateReadsLog(run: Run)
    requires HasLog(run)
    ensures PreflightPassed(Log(run)) <==> Ready(run)
  {
    var log := Log(run);
    PrefixMeansQuery(log[|log| - 1].name);
    if run.Probed? && run.probes != [] {
      LastStage(run.probes);
      assert log[|log| - 1] == ProbeLog(run.probes)[|ProbeLog(run.probes)| - 1];
    }
  }

  lemma LastStage(probes: seq<Probe>)
    requires probes != []
    ensures var n, log := |probes|, ProbeLog(probes);
      log != [] && log[|log| - 1] == match probes[n - 1]
        case ConnectFailed => Stage(Connector(n), true)
        case QueryFailed => Stage(Query(n), true)
        case Passed => Stage(Query(n), false)
  {
  }

  lemma SameLastProbe(a: seq<Probe>, b: seq<Probe>)
    requires a != [] && b != [] && ProbeLog(a) == ProbeLog(b)
    ensures |a| == |b| && a[|a| - 1] == b[|b| - 1]
  {
    LastStage(a);
    LastStage(b);
  }

  lemma SamePrefix<T>(a: seq<T>, b: seq<T>, tail: seq<T>)
    requires a + tail == b + tail
    ensures a == b
  {
    assert |a| == |b|;
    assert (a + tail)[..|a|] == a && (b + tail)[..|b|] == b;
  }

  lemma {:induction false} ProbeLogReadsBack(a: seq<Probe>, b: seq<Probe>)
    requires ProbeLog(a) == ProbeLog(b)
    ensures a == b
    decreases |a|
  {
    if a == [] || b == [] {
      if a != [] {
        LastStage(a);
      } else if b != [] {
        LastStage(b);
      }
    } else {
      SameLastProbe(a, b);
      var n := |a| - 1;
      assert ProbeLog(a) == ProbeLog(a[..n]) + ProbeStages(a[n], n + 1);
      assert ProbeLog(b) == ProbeLog(b[..n]) + ProbeStages(b[n], n + 1);
      SamePrefix(ProbeLog(a[..n]), ProbeLog(b[..n]), ProbeStages(a[n], n + 1));
      ProbeLogReadsBack(a[..n], b[..n]);
      assert a == a[..n] + [a[n]] && b == b[..n] + [b[n]];
    }
  }

  /** The log as printed. */
  function Printed(stages: seq<Stage>): seq<(string, bool)> {
    Map((s: Stage) => (Shown(s.name), s.failed), stages)
  }

  lemma PrintedInjective(a: seq<Stage>, b: seq<Stage>)
    requires Printed(a) == Printed(b)
    ensures a == b
  {
    assert |a| == |Printed(a)| == |b|;
    forall i | 0 <= i < |a|
      ensures a[i] == b[i]
    {
      assert Printed(a)[i] == Printed(b)[i];
      ShownInjective(a[i].name, b[i].name);
    }
  }

  /** The printed log determines how the preflight went, probe by probe. */
  lemma LogReadsBack(a: Run, b: Run)
    requires HasLog(a) && HasLog(b) && Printed(Log(a)) == Printed(Log(b))
    ensures a == b
  {
    PrintedInjective(Log(a), Log(b));
    if a.Probed? && b.Probed? {
      assert Log(a)[3..] == ProbeLog(a.probes) && Log(b)[3..] == ProbeLog(b.probes);
      ProbeLogReadsBack(a.probes, b.probes);
    } else {
      assert Log(a)[|Log(a)| - 1] == Log(b)[|Log(b)| - 1];
      GateStages(a);
      GateStages(b);
    }
  }

  lemma GateStages(run: Run)
    requires HasLog(run)
    ensures run.EnvironmentFailed? <==> Log(run)[0].failed
    ensures run.IamFailed? <==> |Log(run)| >= 2 && Log(run)[1].failed && !Log(run)[0].failed
    ensures run.CredentialsFailed? <==>
      |Log(run)| >= 3 && Log(run)[2].failed && !Log(run)[1].failed && !Log(run)[0].failed
  {
  }

  /** The last two of these calls are a successful query and its close. */
  predicate Answered(calls: seq<Call>) {
    |calls| >= 2 && calls[|calls| - 2].SelectOne? && calls[|calls| - 2].ok &&
    calls[|calls| - 1].Close? && calls[|calls| - 1].ok
  }

  /** Everything the gate stands for actually happened: the gates, the last query, its close, and the upload. */
  predicate AllReady(calls: seq<Call>) {
    CheckEnvironment(true) in calls && CheckIam(true) in calls && GetCredentials(true) in calls &&
    Answered(calls[..|calls| - 1]) && calls[|calls| - 1] == Upload(true)
  }

  lemma AnsweredTail(before: seq<Call>, p: Probe, probe: nat)
    ensures Answered(before + ProbeCalls(p, probe)) <==> p == Passed
  {
  }

  lemma ReadyCalls(run: Run, uploaded: bool)
    ensures AllReady(Calls(run) + [Upload(uploaded)]) <==> Ready(run) && uploaded
  {
    assert (Calls(run) + [Upload(uploaded)])[..|Calls(run)|] == Calls(run);
    var calls := Calls(run);
    if run.Probed? {
      assert calls[0] in calls && calls[1] in calls && calls[2] in calls;
      if run.probes != [] {
        var n := |run.probes| - 1;
        Regrouped(GATES, AllProbeCalls(run.probes[..n]), ProbeCalls(run.probes[n], n + 1));
        AnsweredTail(GATES + AllProbeCalls(run.probes[..n]), run.probes[n], n + 1);
      }
    } else if run.CloseRaised? {
      assert calls[|calls| - 1] == Close(|run.probes| + 1, false);
    }
  }

  /** How one command went: it stopped before its preflight, or ran it and tried the upload. */
  datatype Command = NotConfigured | NoClients | Attempted(run: Run, uploaded: bool)

  /** The stages printed: the log, or one internal failure in place of a lost one, then a failed upload. */
  function Report(command: Command): (stages: seq<Stage>)
    ensures stages != []
  {
    match command
    case NotConfigured => [Stage(Configuration, true)]
    case NoClients => [Stage(ClientInitialization, true)]
    case Attempted(run, uploaded) =>
      (if HasLog(run) then Log(run) else [Stage(Internal, true)]) +
      if uploaded then [] else [Stage(ArtifactUpload, true)]
  }

  /** Two commands that differ at most in how they lost their logs. */
  predicate SameReport(a: Command, b: Command) {
    a == b || (a.Attempted? && b.Attempted? && a.uploaded == b.uploaded && !HasLog(a.run) && !HasLog(b.run))
  }

  /** A log begins with a gate and names nothing but gates and probes. */
  lemma LogNames(run: Run)
    requires HasLog(run)
    ensures Log(run)[0].name == Environment
    ensures forall s :: s in Log(run) ==>
      s.name.Environment? || s.name.Iam? || s.name.Credentials? || s.name.Connector? || s.name.Query?
  {
    if run.Probed? {
      ProbeNames(run.probes);
    }
  }

  lemma {:induction false} ProbeNames(probes: seq<Probe>)
    ensures forall s :: s in ProbeLog(probes) ==> s.name.Connector? || s.name.Query?
  {
    if probes != [] {
      ProbeNames(probes[..|probes| - 1]);
    }
  }

  /** The last stage printed tells whether the upload failed, the first what kind of command it was. */
  lemma ReportEnds(command: Command)
    ensures var stages := Report(command);
      (stages[|stages| - 1].name.ArtifactUpload? <==> command.Attempted? && !command.uploaded) &&
      (stages[0].name.Configuration? <==> command.NotConfigured?) &&
      (stages[0].name.ClientInitialization? <==> command.NoClients?) &&
      (stages[0].name.Internal? <==> command.Attempted? && !HasLog(command.run))
  {
    if command.Attempted? && HasLog(command.run) {
      LogNames(command.run);
      var log := Log(command.run);
      assert log[|log| - 1] in log;
    }
  }

  /** The printed stages determine the whole command, but for which of the ways to lose a log it took. */
  lemma ReportReadsBack(a: Command, b: Command)
    ensures Printed(Report(a)) == Printed(Report(b)) <==> SameReport(a, b)
  {
    if Printed(Report(a)) == Printed(Report(b)) {
      PrintedInjective(Report(a), Report(b));
      ReportEnds(a);
      ReportEnds(b);
      if a.Attempted? && HasLog(a.run) {
        SamePrefix(Log(a.run), Log(b.run), if a.uploaded then [] else [Stage(ArtifactUpload, true)]);
        LogReadsBack(a.run, b.run);
      }
    }
  }

  /** After the preflight: upload the artifact, and read the gate from the log as it then stands. */
  method Conclude(provider: Provider, logged: Option<seq<Stage>>, ghost run: Run)
    returns (exit: int, stages: seq<Stage>, uploaded: bool)
    requires logged.Some? <==> HasLog(run)
    requires logged.Some? ==> logged.value == Log(run)
    modifies provider`now, provider`calls
    ensures exit == 0 || exit == 3
    ensures stages == Report(Attempted(run, uploaded)) && (exit == 0 <==> PreflightPassed(stages))
    ensures provider.calls == old(provider.calls) + [Upload(uploaded)] && (exit == 0 <==> Ready(run) && uploaded)
  {
    stages := if logged.Some? then logged.value else [Stage(Internal, true)];
    ghost var report := stages;
    uploaded := provider.Upload();
    if !uploaded {
      stages := stages + [Stage(ArtifactUpload, true)];
    } else {
      assert report + [] == report;
    }
    if logged.Some? {
      GateReadsLog(run);
    }
    PrefixMeansQuery(stages[|stages| - 1].name);
    exit := if PreflightPassed(stages) then 0 else 3;
  }

  /** The command: exit code and printed stages; an unreadable or inexact configuration ends it at once. */
  method RunMain(provider: Provider, loaded: Option<Config>, clients: bool, singleAttempt: bool)
    returns (exit: int, stages: seq<Stage>, ghost command: Command)
    requires provider.connections == 0 && provider.socketTimeout == EXACT.socketTimeout
    modifies provider`now, provider`calls, provider`connections
    ensures exit == 0 || exit == 3
    ensures old(provider.calls) <= provider.calls
    ensures exit == 0 <==> AllReady(provider.calls[|old(provider.calls)|..])
    ensures exit == 0 ==> loaded == Some(EXACT) && clients && singleAttempt
    // What is printed, and what it stands for.
    ensures stages == Report(command) && (exit == 0 <==> PreflightPassed(stages))
    ensures command.NotConfigured? <==> loaded != Some(EXACT)
    ensures command.NoClients? <==> loaded == Some(EXACT) && !clients
    ensures provider.calls[|old(provider.calls)|..] ==
      if command.Attempted? then Calls(command.run) + [Upload(command.uploaded)] else []
    ensures command.Attempted? ==> (command.run.Refused? <==> !singleAttempt)
    ensures command.Attempted? && command.run.Probed? ==>
      Sequential(command.run.probes) && |command.run.probes| <= 4 &&
      (provider.timely ==> Ready(command.run) || |command.run.probes| == 4)
  {
    PrefixMeansQuery(Configuration);
    PrefixMeansQuery(ClientInitialization);
    command := if loaded != Some(EXACT) then NotConfigured else NoClients;
    if loaded != Some(EXACT) {
      return 3, [Stage(Configuration, true)], command;
    }
    if !clients {
      return 3, [Stage(ClientInitialization, true)], command;
    }
    var logged;
    ghost var run;
    logged, run := RunPreflight(provider, loaded.value, singleAttempt);
    var uploaded;
    exit, stages, uploaded := Conclude(provider, logged, run);
    command := Attempted(run, uploaded);
    assert provider.calls == old(provider.calls) + (Calls(run) + [Upload(uploaded)]);
    ReadyCalls(run, uploaded);
  }
}
