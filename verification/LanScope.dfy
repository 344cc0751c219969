/** Budgets and scope resolution of an authorized LAN run (lan/budgets.py, lan/scope.py). */
module LanScope {
  import opened GraphModel
  import opened Json

  // ---- budgets --------------------------------------------------------------------------------

  datatype Invoker = Human | Agent

  datatype Budgets = Budgets(
    maxHosts: real, maxPortsPerHost: real, maxConcurrency: real, maxTotalConnections: real, maxRuntime: real,
    cooldown: real)

  const HUMAN_CEILING := Budgets(256.0, 16.0, 16.0, 2048.0, 300.0, 0.05)
  const AGENT_CEILING := Budgets(16.0, 8.0, 4.0, 64.0, 60.0, 0.25)

  function BudgetsFor(invoker: Invoker): Budgets {
    if invoker.Agent? then AGENT_CEILING else HUMAN_CEILING
  }

  /** No limit above and no pause below those of b. */
  predicate AtLeastAsTight(a: Budgets, b: Budgets) {
    && a.maxHosts <= b.maxHosts && a.maxPortsPerHost <= b.maxPortsPerHost && a.maxConcurrency <= b.maxConcurrency
    && a.maxTotalConnections <= b.maxTotalConnections && a.maxRuntime <= b.maxRuntime && a.cooldown >= b.cooldown
  }

  function Min(a: real, b: real): real { if a <= b then a else b }

  function Max(a: real, b: real): real { if a >= b then a else b }

  function Lower(b: Budgets, key: string, value: real): Option<Budgets> {
    match key
    case "max_hosts" => Some(b.(maxHosts := Min(b.maxHosts, value)))
    case "max_ports_per_host" => Some(b.(maxPortsPerHost := Min(b.maxPortsPerHost, value)))
    case "max_concurrency" => Some(b.(maxConcurrency := Min(b.maxConcurrency, value)))
    case "max_total_connections" => Some(b.(maxTotalConnections := Min(b.maxTotalConnections, value)))
    case "max_runtime_s" => Some(b.(maxRuntime := Min(b.maxRuntime, value)))
    case "per_target_cooldown_s" => Some(b.(cooldown := Max(b.cooldown, value)))
    case _ => None
  }

  const BUDGET_KEYS: set<string> := {
    "max_hosts", "max_ports_per_host", "max_concurrency", "max_total_connections", "max_runtime_s",
    "per_target_cooldown_s"}

  /** `lowered`: the loosest budgets that are as tight as the ceiling and as every override, or
      nothing when some override has an unknown name. */
  method Lowered(b: Budgets, overrides: seq<(string, real)>) returns (r: Option<Budgets>)
    ensures r.Some? <==> forall o :: o in overrides ==> o.0 in BUDGET_KEYS
    ensures r.Some? ==> AtLeastAsTight(r.value, b)
    ensures r.Some? ==> HonoursAll(r.value, overrides)
    ensures r.Some? ==> forall c :: AtLeastAsTight(c, b) && HonoursAll(c, overrides) ==> AtLeastAsTight(c, r.value)
  {
    var current := b;
    for i := 0 to |overrides|
      invariant AtLeastAsTight(current, b)
      invariant forall o :: o in overrides[..i] ==> o.0 in BUDGET_KEYS
      invariant HonoursAll(current, overrides[..i])
      invariant forall c :: AtLeastAsTight(c, b) && HonoursAll(c, overrides[..i]) ==> AtLeastAsTight(c, current)
    {
      assert overrides[..i + 1] == overrides[..i] + [overrides[i]];
      var next := Lower(current, overrides[i].0, overrides[i].1);
      if next.None? {
        assert overrides[i] in overrides;
        return None;
      }
      LowerIsLoosest(current, overrides[i], next.value);
      forall o | o in overrides[..i] ensures Honours(next.value, o) { TighterHonours(next.value, current, o); }
      forall c | AtLeastAsTight(c, b) && HonoursAll(c, overrides[..i + 1]) ensures AtLeastAsTight(c, next.value) {
        assert HonoursAll(c, overrides[..i]) && Honours(c, overrides[i]);
      }
      current := next.value;
    }
    assert overrides[..|overrides|] == overrides;
    return Some(current);
  }

  /** The override took effect, as far as it asks for something tighter. */
  predicate Honours(b: Budgets, o: (string, real)) {
    match o.0
    case "max_hosts" => b.maxHosts <= o.1
    case "max_ports_per_host" => b.maxPortsPerHost <= o.1
    case "max_concurrency" => b.maxConcurrency <= o.1
    case "max_total_connections" => b.maxTotalConnections <= o.1
    case "max_runtime_s" => b.maxRuntime <= o.1
    case "per_target_cooldown_s" => b.cooldown >= o.1
    case _ => true
  }

  predicate HonoursAll(b: Budgets, overrides: seq<(string, real)>) {
    forall o :: o in overrides ==> Honours(b, o)
  }

  /** One override takes exactly as much away as it asks for. */
  lemma LowerIsLoosest(b: Budgets, o: (string, real), r: Budgets)
    requires Lower(b, o.0, o.1) == Some(r)
    ensures AtLeastAsTight(r, b) && Honours(r, o)
    ensures forall c :: AtLeastAsTight(c, b) && Honours(c, o) ==> AtLeastAsTight(c, r)
  {
  }

  lemma TighterHonours(a: Budgets, b: Budgets, o: (string, real))
    requires AtLeastAsTight(a, b) && Honours(b, o)
    ensures Honours(a, o)
  {
  }

  // ---- networks -------------------------------------------------------------------------------

  function Pow2(n: nat): (p: nat)
    ensures p > 0
  {
    if n == 0 then 1 else 2 * Pow2(n - 1)
  }

  /** A network of 2^(width - prefix) addresses from its network address on. */
  datatype Network = Network(v6: bool, address: nat, prefix: nat) {
    function Width(): nat { if v6 then 128 else 32 }

    predicate Valid() { prefix <= Width() }

    function Size(): nat
      requires Valid()
    {
      Pow2(Width() - prefix)
    }

    predicate IsSingle() { prefix == Width() }

    predicate Contains(h: Host)
      requires Valid()
    {
      h.v6 == v6 && address <= h.address < address + Size()
    }

    predicate SubnetOf(other: Network)
      requires Valid() && other.Valid()
    {
      v6 == other.v6 && other.address <= address && address + Size() <= other.address + other.Size()
    }
  }

  type Net = n: Network | n.Valid() witness Network(false, 0, 32)

  datatype Host = Host(v6: bool, address: nat)

  lemma {:induction false} Pow2Bounds(n: nat)
    ensures Pow2(n) >= 1 && (n >= 1 ==> Pow2(n) >= 2) && (n >= 2 ==> Pow2(n) >= 4)
  {
    if n > 0 { Pow2Bounds(n - 1); }
  }

  function Range(v6: bool, first: nat, count: nat): (hosts: seq<Host>)
    ensures |hosts| == count && forall i :: 0 <= i < count ==> hosts[i] == Host(v6, first + i)
  {
    seq(count, i requires 0 <= i < count => Host(v6, first + i))
  }

  /** The usable hosts: the one address of a full-length prefix, both of a two-address network,
      otherwise all but the network address and, for version 4, the broadcast address. */
  function Expand(net: Net): seq<Host> {
    var size := net.Size();
    if net.IsSingle() then [Host(net.v6, net.address)]
    else if size <= 2 then Range(net.v6, net.address, size)
    else if net.v6 then Range(true, net.address + 1, size - 1)
    else Range(false, net.address + 1, size - 2)
  }

  /** Expansion never leaves the network, never repeats a host, and is never empty: the "no usable
      hosts" refusal cannot occur. */
  lemma ExpandWithin(net: Net)
    ensures Expand(net) != [] && |Expand(net)| <= net.Size()
    ensures forall h :: h in Expand(net) ==> net.Contains(h)
    ensures forall i, j :: 0 <= i < j < |Expand(net)| ==> Expand(net)[i] != Expand(net)[j]
  {
    Pow2Bounds(net.Width() - net.prefix);
  }

  /** The sizes of networks: one address for a full prefix, twice as many for each bit less. */
  lemma SizeDoubles(net: Net)
    ensures net.prefix == (if net.v6 then 128 else 32) ==> net.Size() == 1
    ensures net.prefix < (if net.v6 then 128 else 32) ==> net.Size() == 2 * net.(prefix := net.prefix + 1).Size()
  {
  }

  /** A network at a multiple of its size has the addresses that agree with its own in the prefix. */
  lemma ContainsIff(net: Net, h: Host)
    requires net.address % net.Size() == 0
    ensures net.Contains(h) <==> h.v6 == net.v6 && h.address / net.Size() == net.address / net.Size()
  {
    Pow2Bounds(net.Width() - net.prefix);
    SamePrefix(net.address, h.address, net.Size());
  }

  lemma SamePrefix(a: nat, x: nat, s: nat)
    requires s > 0 && a % s == 0
    ensures a <= x < a + s <==> x / s == a / s
  {
    var q, r := a / s, x / s;
    assert a == q * s && x == r * s + x % s && 0 <= x % s < s;
    InTheRow(q, r, x % s, s);
  }

  lemma InTheRow(q: nat, r: nat, d: nat, s: nat)
    requires d < s
    ensures q * s <= r * s + d < q * s + s <==> r == q
  {
    if r < q {
      Rows(r + 1, q, s);
    } else if q < r {
      Rows(q + 1, r, s);
    }
  }

  lemma Rows(m: nat, n: nat, s: nat)
    requires m <= n
    ensures m * s <= n * s && m * s == (m - 1) * s + s
  {
    assert n * s == m * s + (n - m) * s;
  }

  /** A network lies within another exactly when each of its addresses does. */
  lemma SubnetIff(net: Net, other: Net)
    ensures net.SubnetOf(other) <==> forall h :: net.Contains(h) ==> other.Contains(h)
  {
    Pow2Bounds(net.Width() - net.prefix);
    if forall h :: net.Contains(h) ==> other.Contains(h) {
      assert net.Contains(Host(net.v6, net.address));
      assert net.Contains(Host(net.v6, net.address + net.Size() - 1));
    }
  }

  /** The addresses of a network that a host can have: all of them when there are at most two,
      otherwise all but the first and, for version 4, the last. */
  ghost predicate Usable(net: Net, h: Host) {
    && h.v6 == net.v6 && net.address <= h.address < net.address + net.Size()
    && (net.Size() > 2 ==> h.address != net.address && (net.v6 || h.address != net.address + net.Size() - 1))
  }

  /** Expansion yields exactly those addresses, in increasing order. */
  lemma ExpandIff(net: Net)
    ensures forall h :: h in Expand(net) <==> Usable(net, h)
    ensures forall i, j :: 0 <= i < j < |Expand(net)| ==> Expand(net)[i].address < Expand(net)[j].address
  {
    Pow2Bounds(net.Width() - net.prefix);
    var hosts := Expand(net);
    forall h ensures h in hosts <==> Usable(net, h) {
      if Usable(net, h) { assert hosts[h.address - hosts[0].address] == h; }
    }
  }

  // ---- resolving ------------------------------------------------------------------------------

  datatype ScopeError =
    | TooManyPorts | InvalidTarget(target: string) | AgentRange(target: string) | NotPrivate(target: string)
    | NoUsableHosts(target: string) | TooManyHosts | NoTargets | TooManyConnections

  datatype Scope = Scope(hosts: seq<Host>, ports: seq<nat>)

  /** Address parsing and the private ranges are the standard library's. */
  datatype Rules = Rules(parse: string -> Option<Net>, isPrivate: Net -> bool, invoker: Invoker, budgets: Budgets,
                         allowlist: seq<Net>)

  ghost predicate CoveredBy(net: Net, allowlist: seq<Net>) {
    exists allowed :: allowed in allowlist && net.SubnetOf(allowed)
  }

  /** `_covered_by_policy` */
  method CoveredByPolicy(net: Net, allowlist: seq<Net>) returns (covered: bool)
    ensures covered == CoveredBy(net, allowlist)
  {
    for i := 0 to |allowlist|
      invariant !CoveredBy(net, allowlist[..i])
    {
      assert allowlist[..i + 1] == allowlist[..i] + [allowlist[i]];
      if net.SubnetOf(allowlist[i]) {
        assert allowlist[i] in allowlist;
        return true;
      }
    }
    assert allowlist[..|allowlist|] == allowlist;
    return false;
  }

  /** What a target must satisfy on its own, in the order in which it is checked. */
  ghost function TargetError(rules: Rules, target: string): Option<ScopeError> {
    if rules.parse(target).None? then Some(InvalidTarget(target))
    else
      var net := rules.parse(target).value;
      if !net.IsSingle() && rules.invoker.Agent? then Some(AgentRange(target))
      else if !rules.isPrivate(net) && !CoveredBy(net, rules.allowlist) then Some(NotPrivate(target))
      else None
  }

  ghost predicate Authorized(rules: Rules, target: string) { TargetError(rules, target).None? }

  function HostsOf(rules: Rules, target: string): seq<Host> {
    if rules.parse(target).None? then [] else Expand(rules.parse(target).value)
  }

  /** Adds the hosts not yet seen, in order. */
  function Merge(hosts: seq<Host>, more: seq<Host>): seq<Host> {
    if more == [] then hosts
    else
      var before := Merge(hosts, more[..|more| - 1]);
      var last := more[|more| - 1];
      if last in before then before else before + [last]
  }

  /** All hosts of some targets, each once, by first appearance. */
  function AllHosts(rules: Rules, targets: seq<string>): seq<Host> {
    if targets == [] then []
    else Merge(AllHosts(rules, targets[..|targets| - 1]), HostsOf(rules, targets[|targets| - 1]))
  }

  lemma {:induction false} MergeGrows(hosts: seq<Host>, more: seq<Host>, k: nat)
    requires k <= |more|
    ensures |hosts| <= |Merge(hosts, more[..k])| <= |Merge(hosts, more)|
    decreases |more|
  {
    if k < |more| {
      assert more[..|more| - 1][..k] == more[..k];
      MergeGrows(hosts, more[..|more| - 1], k);
    } else {
      assert more[..k] == more;
      if more != [] { MergeGrows(hosts, more[..|more| - 1], 0); assert more[..|more| - 1][..0] == []; }
    }
  }

  lemma {:induction false} AllHostsGrow(rules: Rules, targets: seq<string>, k: nat)
    requires k <= |targets|
    ensures |AllHosts(rules, targets[..k])| <= |AllHosts(rules, targets)|
    decreases |targets|
  {
    if k < |targets| {
      assert targets[..|targets| - 1][..k] == targets[..k];
      AllHostsGrow(rules, targets[..|targets| - 1], k);
      var more := HostsOf(rules, targets[|targets| - 1]);
      assert more[..0] == [];
      MergeGrows(AllHosts(rules, targets[..|targets| - 1]), more, 0);
    } else {
      assert targets[..k] == targets;
    }
  }

  /** The conditions under which a target set resolves. */
  ghost predicate Resolves(rules: Rules, targets: seq<string>, ports: seq<nat>) {
    && |ports| as real <= rules.budgets.maxPortsPerHost
    && targets != [] && (forall t :: t in targets ==> Authorized(rules, t))
    && |AllHosts(rules, targets)| as real <= rules.budgets.maxHosts
    && (|AllHosts(rules, targets)| * |ports|) as real <= rules.budgets.maxTotalConnections
  }

  /** The first rule that the targets break, target by target. */
  ghost function FirstRefusal(rules: Rules, targets: seq<string>): Option<ScopeError> {
    if targets == [] then None
    else
      var init, last := FirstRefusal(rules, targets[..|targets| - 1]), targets[|targets| - 1];
      if init.Some? then init
      else if TargetError(rules, last).Some? then TargetError(rules, last)
      else if |AllHosts(rules, targets)| as real > rules.budgets.maxHosts then Some(TooManyHosts)
      else None
  }

  /** The reason given when a target set does not resolve. */
  ghost function RefusalOf(rules: Rules, targets: seq<string>, ports: seq<nat>): ScopeError {
    if |ports| as real > rules.budgets.maxPortsPerHost then TooManyPorts
    else if FirstRefusal(rules, targets).Some? then FirstRefusal(rules, targets).value
    else if targets == [] then NoTargets
    else TooManyConnections
  }

  lemma {:induction false} FirstRefusalStands(rules: Rules, targets: seq<string>, i: nat)
    requires i <= |targets| && FirstRefusal(rules, targets[..i]).Some?
    ensures FirstRefusal(rules, targets) == FirstRefusal(rules, targets[..i])
    decreases |targets| - i
  {
    if i < |targets| {
      assert targets[..i + 1][..i] == targets[..i];
      FirstRefusalStands(rules, targets, i + 1);
    } else {
      assert targets[..i] == targets;
    }
  }

  /** `resolve_scope`: all the hosts of all the targets, or a refusal, exactly when some rule is
      broken. */
  method ResolveScope(rules: Rules, targets: seq<string>, ports: seq<nat>) returns (r: Result<Scope, ScopeError>)
    ensures r.Ok? <==> Resolves(rules, targets, ports)
    ensures r.Ok? ==> r.value == Scope(AllHosts(rules, targets), ports) && Once(r.value.hosts)
    ensures r.Err? ==> r.error == RefusalOf(rules, targets, ports)
  {
    if |ports| as real > rules.budgets.maxPortsPerHost {
      return Err(TooManyPorts);
    }
    var hosts: seq<Host> := [];
    for i := 0 to |targets|
      invariant hosts == AllHosts(rules, targets[..i])
      invariant i > 0 ==> hosts != [] && |hosts| as real <= rules.budgets.maxHosts
      invariant forall t :: t in targets[..i] ==> Authorized(rules, t)
      invariant FirstRefusal(rules, targets[..i]).None?
    {
      var target := targets[i];
      if FirstRefusal(rules, targets[..i + 1]).Some? { FirstRefusalStands(rules, targets, i + 1); }
      assert target in targets && targets[..i + 1][..i] == targets[..i];
      var parsed := rules.parse(target);
      if parsed.None? {
        return Err(InvalidTarget(target));
      }
      var net := parsed.value;
      if !net.IsSingle() && rules.invoker.Agent? {
        return Err(AgentRange(target));
      }
      var isPrivate := rules.isPrivate(net);
      if !isPrivate {
        var covered := CoveredByPolicy(net, rules.allowlist);
        if !covered {
          return Err(NotPrivate(target));
        }
      }
      var expanded := Expand(net);
      ExpandWithin(net);
      if expanded == [] {
        return Err(NoUsableHosts(target));
      }
      var merged, within := AddHosts(hosts, expanded, rules.budgets.maxHosts);
      if !within {
        AllHostsGrow(rules, targets, i + 1);
        return Err(TooManyHosts);
      }
      hosts := merged;
    }
    assert targets[..|targets|] == targets;
    if hosts == [] {
      return Err(NoTargets);
    }
    if (|hosts| * |ports|) as real > rules.budgets.maxTotalConnections {
      return Err(TooManyConnections);
    }
    AllHostsOnce(rules, targets);
    return Ok(Scope(hosts, ports));
  }

  /** The inner loop: stops as soon as the host budget is passed. */
  method AddHosts(hosts0: seq<Host>, expanded: seq<Host>, maxHosts: real) returns (hosts: seq<Host>, within: bool)
    requires expanded != []
    ensures within <==> |Merge(hosts0, expanded)| as real <= maxHosts
    ensures within ==> hosts == Merge(hosts0, expanded) && hosts != []
  {
    hosts := hosts0;
    for i := 0 to |expanded|
      invariant hosts == Merge(hosts0, expanded[..i])
      invariant i > 0 ==> hosts != [] && |hosts| as real <= maxHosts
    {
      assert expanded[..i + 1][..i] == expanded[..i];
      if expanded[i] !in hosts {
        hosts := hosts + [expanded[i]];
      }
      if |hosts| as real > maxHosts {
        MergeGrows(hosts0, expanded, i + 1);
        return hosts, false;
      }
    }
    assert expanded[..|expanded|] == expanded;
    within := true;
  }

  // ---- what a resolved scope guarantees -------------------------------------------------------

  lemma {:induction false} MergeMembers(hosts: seq<Host>, more: seq<Host>, h: Host)
    ensures h in Merge(hosts, more) <==> h in hosts || h in more
  {
    if more != [] {
      MergeMembers(hosts, more[..|more| - 1], h);
      assert more == more[..|more| - 1] + [more[|more| - 1]];
    }
  }

  lemma {:induction false} AllHostsMembers(rules: Rules, targets: seq<string>, h: Host)
    ensures h in AllHosts(rules, targets) <==> exists t :: t in targets && h in HostsOf(rules, t)
  {
    if targets != [] {
      var init, last := targets[..|targets| - 1], targets[|targets| - 1];
      AllHostsMembers(rules, init, h);
      MergeMembers(AllHosts(rules, init), HostsOf(rules, last), h);
      assert targets == init + [last];
      assert last in targets;
    }
  }

  /** The hosts of a resolved scope are exactly the usable addresses of its targets. */
  lemma ScopeHostsIff(rules: Rules, targets: seq<string>, h: Host)
    ensures h in AllHosts(rules, targets) <==>
      exists t :: t in targets && rules.parse(t).Some? && Usable(rules.parse(t).value, h)
  {
    AllHostsMembers(rules, targets, h);
    forall t | rules.parse(t).Some? ensures h in HostsOf(rules, t) <==> Usable(rules.parse(t).value, h) {
      ExpandIff(rules.parse(t).value);
    }
  }

  ghost predicate Once(hosts: seq<Host>) { forall i, j :: 0 <= i < j < |hosts| ==> hosts[i] != hosts[j] }

  lemma {:induction false} MergeOnce(hosts: seq<Host>, more: seq<Host>)
    requires Once(hosts)
    ensures Once(Merge(hosts, more))
  {
    if more != [] { MergeOnce(hosts, more[..|more| - 1]); }
  }

  lemma {:induction false} AllHostsOnce(rules: Rules, targets: seq<string>)
    ensures Once(AllHosts(rules, targets))
  {
    if targets != [] {
      AllHostsOnce(rules, targets[..|targets| - 1]);
      MergeOnce(AllHosts(rules, targets[..|targets| - 1]), HostsOf(rules, targets[|targets| - 1]));
    }
  }

  /** h lies in the network of target t, which is private, or else inside a network that the
      enterprise policy names; for an agent it is that network's one address. */
  ghost predicate AuthorizedBy(rules: Rules, t: string, h: Host) {
    && rules.parse(t).Some? && rules.parse(t).value.Contains(h)
    && (rules.isPrivate(rules.parse(t).value) || exists allowed :: allowed in rules.allowlist && allowed.Contains(h))
    && (rules.invoker.Agent? ==>
          rules.parse(t).value.IsSingle() && h == Host(rules.parse(t).value.v6, rules.parse(t).value.address))
  }

  /** Every host of a resolved scope is authorized by one of the manifest's targets. */
  lemma ScopeIsAuthorized(rules: Rules, targets: seq<string>, ports: seq<nat>, h: Host)
    requires Resolves(rules, targets, ports) && h in AllHosts(rules, targets)
    ensures exists t :: t in targets && AuthorizedBy(rules, t, h)
  {
    AllHostsMembers(rules, targets, h);
    var t :| t in targets && h in HostsOf(rules, t);
    assert Authorized(rules, t);
    var net := rules.parse(t).value;
    ExpandWithin(net);
    if !rules.isPrivate(net) {
      var allowed :| allowed in rules.allowlist && net.SubnetOf(allowed);
      assert allowed.Contains(h);
    }
  }
}
