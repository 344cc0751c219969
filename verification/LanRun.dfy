/** The gates and the budgeted probe loop of an authorized LAN run (lan/runner.py). */
module LanRun {
  import opened GraphModel
  import opened Json
  import opened LanScope

  datatype Manifest = Manifest(expiresAt: int, targets: seq<string>, ports: seq<nat>)

  datatype Probe = Probe(host: Host, port: nat)

  datatype ProbeResult = ProbeResult(reachable: bool, looksLikeMcp: bool, evidence: string)

  /** Everything injected into a run. The abort switch, the clock and the prober may behave
      differently after every probe. */
  datatype World = World(
    aborted: seq<Probe> -> bool, clock: seq<Probe> -> real, prober: (seq<Probe>, Probe) -> ProbeResult, started: real)

  datatype Refusal = InvalidManifest | Expired | NotVerified | OutOfScope(error: ScopeError)

  /** `trace` is every probe sent, in order; `slept` the pauses after them. */
  datatype Run = Run(
    hosts: seq<Host>, ports: seq<nat>, dryRun: bool, trace: seq<Probe>, slept: seq<real>,
    exposed: seq<Probe>, results: map<Probe, ProbeResult>)

  // ---- the plan -------------------------------------------------------------------------------

  function Row(host: Host, ports: seq<nat>): (row: seq<Probe>)
    ensures |row| == |ports|
  {
    seq(|ports|, i requires 0 <= i < |ports| => Probe(host, ports[i]))
  }

  /** All hosts by all ports, host by host. */
  function Plan(hosts: seq<Host>, ports: seq<nat>): seq<Probe> {
    if hosts == [] then [] else Plan(hosts[..|hosts| - 1], ports) + Row(hosts[|hosts| - 1], ports)
  }

  lemma {:induction false} PlanSize(hosts: seq<Host>, ports: seq<nat>)
    ensures |Plan(hosts, ports)| == |hosts| * |ports|
  {
    if hosts != [] {
      PlanSize(hosts[..|hosts| - 1], ports);
      assert |hosts| * |ports| == (|hosts| - 1) * |ports| + |ports|;
    }
  }

  lemma {:induction false} PlanPrefix(hosts: seq<Host>, ports: seq<nat>, k: nat)
    requires k <= |hosts|
    ensures Plan(hosts[..k], ports) <= Plan(hosts, ports)
    decreases |hosts|
  {
    if k < |hosts| {
      assert hosts[..|hosts| - 1][..k] == hosts[..k];
      PlanPrefix(hosts[..|hosts| - 1], ports, k);
    } else {
      assert hosts[..k] == hosts;
    }
  }

  // ---- what a run must be ---------------------------------------------------------------------

  predicate Halts(w: World, b: Budgets, trace: seq<Probe>) {
    w.aborted(trace) || w.clock(trace) - w.started > b.maxRuntime
  }

  ghost predicate NeverHalted(w: World, b: Budgets, trace: seq<Probe>) {
    forall k :: 0 <= k < |trace| ==> !Halts(w, b, trace[..k])
  }

  /** The probes sent are the longest prefix of the plan with no halt before any of them. */
  ghost predicate Sent(w: World, b: Budgets, plan: seq<Probe>, trace: seq<Probe>) {
    && trace <= plan
    && NeverHalted(w, b, trace)
    && (trace == plan || Halts(w, b, trace))
  }

  function Exposed(w: World, trace: seq<Probe>): seq<Probe> {
    if trace == [] then []
    else
      var k := |trace| - 1;
      var r := w.prober(trace[..k], trace[k]);
      Exposed(w, trace[..k]) + (if r.reachable && r.looksLikeMcp then [trace[k]] else [])
  }

  /** A repeated port probes again and overwrites its earlier result. */
  function Results(w: World, trace: seq<Probe>): map<Probe, ProbeResult> {
    if trace == [] then map[]
    else
      var k := |trace| - 1;
      Results(w, trace[..k])[trace[k] := w.prober(trace[..k], trace[k])]
  }

  ghost predicate Recorded(w: World, b: Budgets, run: Run) {
    && run.exposed == Exposed(w, run.trace) && run.results == Results(w, run.trace)
    && |run.slept| == |run.trace| && forall i :: 0 <= i < |run.slept| ==> run.slept[i] == b.cooldown
  }

  /** A run with one more probe on record. */
  function After(w: World, b: Budgets, run: Run, p: Probe): Run {
    var result := w.prober(run.trace, p);
    run.(trace := run.trace + [p],
         results := run.results[p := result],
         exposed := run.exposed + (if result.reachable && result.looksLikeMcp then [p] else []),
         slept := run.slept + [b.cooldown])
  }

  lemma RecordedAfter(w: World, b: Budgets, run: Run, p: Probe)
    requires Recorded(w, b, run)
    ensures Recorded(w, b, After(w, b, run, p))
  {
  }

  lemma NextOfRow(before: seq<Probe>, row: seq<Probe>, i: nat)
    requires i < |row|
    ensures before + row[..i + 1] == before + row[..i] + [row[i]]
  {
  }

  lemma NotHaltedYet(w: World, b: Budgets, trace: seq<Probe>, p: Probe)
    requires NeverHalted(w, b, trace) && !Halts(w, b, trace)
    ensures NeverHalted(w, b, trace + [p])
  {
    forall k | 0 <= k < |trace| + 1 ensures !Halts(w, b, (trace + [p])[..k]) {
      assert (trace + [p])[..k] == if k < |trace| then trace[..k] else trace;
    }
  }

  /** The inner loop, over the ports of one host. */
  method ProbeHost(w: World, b: Budgets, host: Host, run0: Run) returns (run: Run, stop: bool)
    requires Recorded(w, b, run0)
    requires (|run0.trace| + |run0.ports|) as real <= b.maxTotalConnections
    requires NeverHalted(w, b, run0.trace)
    ensures Recorded(w, b, run) && run.hosts == run0.hosts && run.ports == run0.ports && run.dryRun == run0.dryRun
    ensures run0.trace <= run.trace <= run0.trace + Row(host, run0.ports)
    ensures NeverHalted(w, b, run.trace)
    ensures stop ==> Halts(w, b, run.trace)
    ensures !stop ==> run.trace == run0.trace + Row(host, run0.ports)
  {
    run, stop := run0, false;
    var row := Row(host, run0.ports);
    assert run0.trace + row[..0] == run0.trace;
    for i := 0 to |run0.ports|
      invariant run.trace == run0.trace + row[..i] && Recorded(w, b, run)
      invariant run.hosts == run0.hosts && run.ports == run0.ports && run.dryRun == run0.dryRun
      invariant NeverHalted(w, b, run.trace)
    {
      var connections := |run.trace|;
      var overBudget := w.aborted(run.trace) || connections as real >= b.maxTotalConnections;
      var pastDeadline := w.clock(run.trace) - w.started > b.maxRuntime;
      if overBudget || pastDeadline {
        return run, true;
      }
      var probe := Probe(host, run0.ports[i]);
      RecordedAfter(w, b, run, probe);
      NotHaltedYet(w, b, run.trace, probe);
      NextOfRow(run0.trace, row, i);
      run := After(w, b, run, probe);
    }
    assert row[..|row|] == row;
  }

  /** The gate that a refused run fails first. */
  ghost function FirstGate(manifest: Option<Manifest>, now: int, verified: bool, rules: Rules): Refusal {
    if manifest.None? then InvalidManifest
    else if now >= manifest.value.expiresAt then Expired
    else if !verified then NotVerified
    else OutOfScope(RefusalOf(rules, manifest.value.targets, manifest.value.ports))
  }

  /** `run_lan`: parse, expiry, signature, scope, and only then probe. */
  method RunLan(manifest: Option<Manifest>, now: int, verified: bool, rules: Rules, dryRun: bool, w: World)
    returns (r: Result<Run, Refusal>)
    requires rules.budgets == BudgetsFor(rules.invoker)
    ensures r.Ok? <==> manifest.Some? && now < manifest.value.expiresAt && verified
                       && Resolves(rules, manifest.value.targets, manifest.value.ports)
    ensures r.Err? ==> r.error == FirstGate(manifest, now, verified, rules)
    ensures r.Ok? ==> r.value.hosts == AllHosts(rules, manifest.value.targets) && r.value.ports == manifest.value.ports
    ensures r.Ok? && dryRun ==> r.value.trace == []
    ensures r.Ok? && !dryRun ==> Sent(w, rules.budgets, Plan(r.value.hosts, r.value.ports), r.value.trace)
    ensures r.Ok? ==> Recorded(w, rules.budgets, r.value)
  {
    if manifest.None? {
      return Err(InvalidManifest);
    }
    if now >= manifest.value.expiresAt {
      return Err(Expired);
    }
    if !verified {
      return Err(NotVerified);
    }
    var scope := ResolveScope(rules, manifest.value.targets, manifest.value.ports);
    if scope.Err? {
      return Err(OutOfScope(scope.error));
    }
    var hosts, ports := scope.value.hosts, scope.value.ports;
    var run := Run(hosts, ports, dryRun, [], [], [], map[]);
    if dryRun {
      return Ok(run);
    }
    var stop := false;
    var i := 0;
    PlanSize(hosts, ports);
    assert hosts[..0] == [];
    while i < |hosts| && !stop
      invariant 0 <= i <= |hosts|
      invariant run.hosts == hosts && run.ports == ports && Recorded(w, rules.budgets, run)
      invariant run.trace <= Plan(hosts[..i], ports)
      invariant !stop ==> run.trace == Plan(hosts[..i], ports)
      invariant stop ==> Halts(w, rules.budgets, run.trace)
      invariant NeverHalted(w, rules.budgets, run.trace)
    {
      RoomForOneRow(hosts, ports, i);
      run, stop := ProbeHost(w, rules.budgets, hosts[i], run);
      i := i + 1;
    }
    PlanPrefix(hosts, ports, i);
    assert hosts[..|hosts|] == hosts;
    return Ok(run);
  }

  lemma RoomForOneRow(hosts: seq<Host>, ports: seq<nat>, i: nat)
    requires i < |hosts|
    ensures Plan(hosts[..i + 1], ports) == Plan(hosts[..i], ports) + Row(hosts[i], ports)
    ensures |Plan(hosts[..i], ports)| + |ports| <= |hosts| * |ports|
  {
    assert hosts[..i + 1][..i] == hosts[..i];
    PlanPrefix(hosts, ports, i + 1);
    PlanSize(hosts, ports);
  }

  // ---- consequences ---------------------------------------------------------------------------

  lemma {:induction false} PlanMembers(hosts: seq<Host>, ports: seq<nat>, p: Probe)
    ensures p in Plan(hosts, ports) <==> p.host in hosts && p.port in ports
  {
    if hosts != [] {
      var init, last := hosts[..|hosts| - 1], hosts[|hosts| - 1];
      PlanMembers(init, ports, p);
      assert hosts == init + [last];
      if p.host == last && p.port in ports {
        var j :| 0 <= j < |ports| && ports[j] == p.port;
        assert Row(last, ports)[j] == p;
      }
    }
  }

  /** Every packet of every run goes to a host that one of the manifest's targets authorizes and
      to a listed port, and no run sends more than its invoker's connection budget. */
  lemma EveryProbeIsAuthorized(rules: Rules, m: Manifest, w: World, run: Run, p: Probe)
    requires Resolves(rules, m.targets, m.ports)
    requires run.hosts == AllHosts(rules, m.targets) && run.ports == m.ports
    requires run.trace == [] || Sent(w, rules.budgets, Plan(run.hosts, run.ports), run.trace)
    requires p in run.trace
    ensures p.port in m.ports && exists t :: t in m.targets && AuthorizedBy(rules, t, p.host)
    ensures |run.trace| as real <= rules.budgets.maxTotalConnections
  {
    assert p in Plan(run.hosts, run.ports);
    PlanMembers(run.hosts, run.ports, p);
    ScopeIsAuthorized(rules, m.targets, m.ports, p.host);
    PlanSize(run.hosts, run.ports);
  }

  /** What the ceilings come to: a human reaches at most 256 hosts, 16 ports each and 2048
      connections in 300 seconds, an agent 16, 8 and 64 in 60, and each waits after every probe.
      One probe at a time, every run stays below the limits on concurrency, 16 and 4. */
  lemma CeilingsHold(rules: Rules, m: Manifest, w: World, run: Run)
    requires rules.budgets == BudgetsFor(rules.invoker) && Resolves(rules, m.targets, m.ports)
    requires run.hosts == AllHosts(rules, m.targets) && run.ports == m.ports && Recorded(w, rules.budgets, run)
    requires run.trace == [] || Sent(w, rules.budgets, Plan(run.hosts, run.ports), run.trace)
    ensures rules.invoker == Human ==> |run.hosts| <= 256 && |run.ports| <= 16 && |run.trace| <= 2048
    ensures rules.invoker == Agent ==> |run.hosts| <= 16 && |run.ports| <= 8 && |run.trace| <= 64
    ensures rules.budgets.maxConcurrency == if rules.invoker == Human then 16.0 else 4.0
    ensures forall s :: s in run.slept ==> s == if rules.invoker == Human then 0.05 else 0.25
    ensures forall k :: 0 <= k < |run.trace| ==>
      w.clock(run.trace[..k]) - w.started <= if rules.invoker == Human then 300.0 else 60.0
  {
    PlanSize(run.hosts, run.ports);
    forall k | 0 <= k < |run.trace| ensures !Halts(w, rules.budgets, run.trace[..k]) { }
  }

  /** Without an abort and within the deadline the whole plan is probed: scope resolution already
      makes the connection budget unreachable in the loop. */
  lemma UninterruptedRunIsWhole(w: World, b: Budgets, plan: seq<Probe>, trace: seq<Probe>)
    requires Sent(w, b, plan, trace)
    requires forall k :: 0 <= k < |plan| ==> !Halts(w, b, plan[..k])
    ensures trace == plan
  {
    assert trace == plan[..|trace|];
  }

  /** A run is determined by its inputs: two runs in one world send the same probes. */
  lemma TraceUnique(w: World, b: Budgets, plan: seq<Probe>, x: seq<Probe>, y: seq<Probe>)
    requires Sent(w, b, plan, x) && Sent(w, b, plan, y)
    ensures x == y
  {
    assert |x| <= |y| ==> y[..|x|] == plan[..|x|] == x;
    assert |y| <= |x| ==> x[..|y|] == plan[..|y|] == y;
  }
}
