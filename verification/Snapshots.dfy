/** From a scan report to a snapshot (drift/snapshot.py). */
module Snapshots {
  import opened GraphModel
  import opened Orders
  import opened Numerals
  import opened Drift
  import DriftTheorems

  /** The digests and hints kept of one live tool. */
  datatype ToolPrint = ToolPrint(name: string, digest: string, description: string, schema: string,
                                 hints: seq<(string, string)>, pin: string)

  datatype Finding = Finding(id: string, severity: string, dimension: string, title: string, path: string,
                             line: Option<nat>)

  /** `loopback` is the verdict on the bind address. */
  datatype Server = Server(
    id: string, state: string, running: bool, bindAddr: string, loopback: bool, port: Option<nat>, incomplete: bool,
    identity: Option<string>, findings: seq<Finding>, tools: seq<ToolPrint>)

  datatype Asset = Asset(kind: string, location: string, serverName: string, product: string, confidence: string)

  function Lower(b: bool): string { if b then "true" else "false" }

  function Text(n: Option<nat>): string {
    match n case None => "" case Some(k) => Digits(k)
  }

  function ServerFactOf(s: Server): PostureFact {
    var detail := map[
      "state" := s.state, "running" := Lower(s.running), "bind_addr" := s.bindAddr, "port" := Text(s.port),
      "exposure" := if s.bindAddr != "" && !s.loopback then "exposed" else "local",
      "inspection_incomplete" := Lower(s.incomplete)];
    PostureFact(ServerFact, ServerKey(s.id), s.id,
                match s.identity case None => detail case Some(i) => detail["tool_identity" := i])
  }

  function FindingFactOf(s: Server, f: Finding): PostureFact {
    PostureFact(FindingFact, "finding:" + s.id + ":" + f.id + ":" + f.path + ":" + Text(f.line),
        f.id + " \U{2014} " + f.title,
                map["severity" := f.severity, "dimension" := f.dimension, "id" := f.id])
  }

  function WithHints(detail: Detail, hints: seq<(string, string)>): Detail
    decreases |hints|
  {
    if hints == [] then detail
    else WithHints(detail["annotation." + hints[0].0 := hints[0].1], hints[1..])
  }

  function ToolFactFor(s: Server, t: ToolPrint, name: string): PostureFact {
    var detail := map["server" := s.id, "digest" := t.digest, "description" := t.description, "schema" := t.schema];
    PostureFact(ToolFact, "tool:" + s.id + ":" + name, s.id + " tool " + name,
                WithHints(if t.pin != "" then detail["mcpseal" := t.pin] else detail, t.hints))
  }

  function AssetFactOf(a: Asset): PostureFact {
    PostureFact(AssetFact, "asset:" + a.kind + ":" + a.location + ":" + a.serverName, a.product + " (" + a.kind + ")",
                map["kind" := a.kind, "product" := a.product, "confidence" := a.confidence])
  }

  // ---- what the facts state -----------------------------------------------------------------

  function Truth(b: bool): string { if b then "true" else "false" }

  /** A server counts as exposed when it has a bind address that is not loopback. */
  lemma ServerFactStates(s: Server, n: string)
    ensures var f := ServerFactOf(s);
      && f.kind == ServerFact && f.key == "server:" + s.id && f.summary == s.id
      && Lookup(f.detail, n) ==
           if n == "state" then Some(s.state)
           else if n == "running" then Some(Truth(s.running))
           else if n == "bind_addr" then Some(s.bindAddr)
           else if n == "port" then Some(if s.port.None? then "" else Digits(s.port.value))
           else if n == "exposure" then Some(if s.bindAddr == "" || s.loopback then "local" else "exposed")
           else if n == "inspection_incomplete" then Some(Truth(s.incomplete))
           else if n == "tool_identity" then s.identity
           else None
  {
  }

  lemma FindingFactStates(s: Server, x: Finding, n: string)
    ensures var f, line := FindingFactOf(s, x), if x.line.None? then "" else Digits(x.line.value);
      && f.kind == FindingFact && f.key == "finding:" + s.id + ":" + x.id + ":" + x.path + ":" + line
      && f.summary == x.id + " \U{2014} " + x.title
      && Lookup(f.detail, n) ==
           if n == "severity" then Some(x.severity) else if n == "dimension" then Some(x.dimension)
           else if n == "id" then Some(x.id) else None
  {
  }

  lemma AssetFactStates(a: Asset, n: string)
    ensures var f := AssetFactOf(a);
      && f.kind == AssetFact && f.key == "asset:" + a.kind + ":" + a.location + ":" + a.serverName
      && f.summary == a.product + " (" + a.kind + ")"
      && Lookup(f.detail, n) ==
           if n == "kind" then Some(a.kind) else if n == "product" then Some(a.product)
           else if n == "confidence" then Some(a.confidence) else None
  {
  }

  /** The last value given for a hint. */
  function LastHint(hints: seq<(string, string)>, n: string): Option<string> {
    if hints == [] then None
    else if "annotation." + hints[|hints| - 1].0 == n then Some(hints[|hints| - 1].1)
    else LastHint(hints[..|hints| - 1], n)
  }

  lemma {:induction false} HintsAreLast(detail: Detail, hints: seq<(string, string)>, n: string)
    ensures Lookup(WithHints(detail, hints), n) ==
      if LastHint(hints, n).Some? then LastHint(hints, n) else Lookup(detail, n)
    decreases |hints|
  {
    if hints != [] {
      HintsAreLast(detail["annotation." + hints[0].0 := hints[0].1], hints[1..], n);
      LastHintFrom(hints, n);
    }
  }

  lemma {:induction false} LastHintFrom(hints: seq<(string, string)>, n: string)
    requires hints != []
    ensures LastHint(hints, n) ==
      if LastHint(hints[1..], n).Some? then LastHint(hints[1..], n)
      else if "annotation." + hints[0].0 == n then Some(hints[0].1) else None
  {
    var k := |hints| - 1;
    if k == 0 {
      assert hints[1..] == [] && hints[..0] == [];
    } else {
      LastHintFrom(hints[..k], n);
      assert hints[..k][1..] == hints[1..][..k - 1] && hints[1..][k - 1] == hints[k];
    }
  }

  lemma ToolFactStates(s: Server, t: ToolPrint, name: string, n: string)
    ensures var f := ToolFactFor(s, t, name);
      && f.kind == ToolFact && f.key == "tool:" + s.id + ":" + name && f.summary == s.id + " tool " + name
      && Lookup(f.detail, n) ==
           if LastHint(t.hints, n).Some? then LastHint(t.hints, n)
           else if n == "server" then Some(s.id) else if n == "digest" then Some(t.digest)
           else if n == "description" then Some(t.description) else if n == "schema" then Some(t.schema)
           else if n == "mcpseal" && t.pin != "" then Some(t.pin) else None
  {
    var base := map["server" := s.id, "digest" := t.digest, "description" := t.description, "schema" := t.schema];
    HintsAreLast(if t.pin != "" then base["mcpseal" := t.pin] else base, t.hints, n);
  }

  // ---- names of repeated tools --------------------------------------------------------------

  function Count(tools: seq<ToolPrint>, name: string): nat {
    if tools == [] then 0
    else Count(tools[..|tools| - 1], name) + (if tools[|tools| - 1].name == name then 1 else 0)
  }

  /** How many times the name of tool i has been advertised up to and including i. */
  function Occurrence(tools: seq<ToolPrint>, i: nat): (c: nat)
    requires i < |tools|
    ensures c >= 1
  {
    assert tools[..i + 1][..i] == tools[..i];
    Count(tools[..i + 1], tools[i].name)
  }

  function FactName(tools: seq<ToolPrint>, i: nat): string
    requires i < |tools|
  {
    if Occurrence(tools, i) == 1 then tools[i].name else Suffixed(tools[i].name, Occurrence(tools, i))
  }

  function Seen(seen: map<string, nat>, name: string): nat { if name in seen then seen[name] else 0 }

  ghost predicate Counts(seen: map<string, nat>, tools: seq<ToolPrint>) {
    forall n :: Seen(seen, n) == Count(tools, n)
  }

  lemma CountsStep(seen: map<string, nat>, tools: seq<ToolPrint>, i: nat)
    requires i < |tools| && Counts(seen, tools[..i])
    ensures Counts(seen[tools[i].name := Seen(seen, tools[i].name) + 1], tools[..i + 1])
    ensures Seen(seen, tools[i].name) + 1 == Occurrence(tools, i)
  {
    assert tools[..i + 1][..i] == tools[..i];
    var bumped := seen[tools[i].name := Seen(seen, tools[i].name) + 1];
    forall n ensures Seen(bumped, n) == Count(tools[..i + 1], n) {
      assert Seen(seen, n) == Count(tools[..i], n);
    }
  }

  function FactAt(s: Server, i: nat): PostureFact
    requires i < |s.tools|
  {
    ToolFactFor(s, s.tools[i], FactName(s.tools, i))
  }

  /** One fact per advertised tool; a repeated name gets a "#2"-style suffix. */
  method ToolFacts(s: Server) returns (facts: seq<PostureFact>)
    ensures |facts| == |s.tools|
    ensures forall i :: 0 <= i < |facts| ==> facts[i] == FactAt(s, i)
  {
    facts := [];
    var seen: map<string, nat> := map[];
    for i := 0 to |s.tools|
      invariant |facts| == i && Counts(seen, s.tools[..i])
      invariant forall j :: 0 <= j < i ==> facts[j] == FactAt(s, j)
    {
      var tool := s.tools[i];
      CountsStep(seen, s.tools, i);
      var count := Seen(seen, tool.name) + 1;
      seen := seen[tool.name := count];
      var name := if count == 1 then tool.name else Suffixed(tool.name, count);
      assert name == FactName(s.tools, i);
      facts := facts + [ToolFactFor(s, tool, name)];
    }
  }

  lemma {:induction false} FirstOccurrence(tools: seq<ToolPrint>, i: nat) returns (f: nat)
    requires i < |tools|
    ensures f <= i && tools[f].name == tools[i].name && Occurrence(tools, f) == 1
  {
    if Occurrence(tools, i) == 1 {
      f := i;
    } else {
      assert tools[..i + 1][..i] == tools[..i];
      var j := SomeOccurrence(tools[..i], tools[i].name);
      f := FirstOccurrence(tools, j);
    }
  }

  lemma {:induction false} SomeOccurrence(tools: seq<ToolPrint>, name: string) returns (j: nat)
    requires Count(tools, name) > 0
    ensures j < |tools| && tools[j].name == name
  {
    if tools[|tools| - 1].name == name {
      j := |tools| - 1;
    } else {
      j := SomeOccurrence(tools[..|tools| - 1], name);
    }
  }

  lemma {:induction false} OccurrencesGrow(tools: seq<ToolPrint>, i: nat, j: nat)
    requires i < j < |tools| && tools[i].name == tools[j].name
    ensures Occurrence(tools, i) < Occurrence(tools, j)
  {
    CountGrows(tools, i + 1, j, tools[i].name);
    assert tools[..j + 1][..j] == tools[..j];
  }

  lemma {:induction false} CountGrows(tools: seq<ToolPrint>, i: nat, j: nat, name: string)
    requires i <= j <= |tools|
    ensures Count(tools[..i], name) <= Count(tools[..j], name)
  {
    if i < j {
      CountGrows(tools, i, j - 1, name);
      assert tools[..j][..j - 1] == tools[..j - 1];
    }
  }

  ghost predicate NamesDistinct(tools: seq<ToolPrint>) {
    forall i, j :: 0 <= i < j < |tools| ==> FactName(tools, i) != FactName(tools, j)
  }

  /** The suffix keeps repeated tools apart exactly when no advertised tool really carries a name
      that the suffix generates for another one. */
  lemma SuffixKeepsApartIff(tools: seq<ToolPrint>)
    ensures NamesDistinct(tools) <==>
        forall i, j :: 0 <= i < |tools| && 0 <= j < |tools| && Occurrence(tools, j) > 1 ==>
        tools[i].name != Suffixed(tools[j].name, Occurrence(tools, j))
  {
    if NamesDistinct(tools) {
      forall i, j | 0 <= i < |tools| && 0 <= j < |tools| && Occurrence(tools, j) > 1
        ensures tools[i].name != Suffixed(tools[j].name, Occurrence(tools, j)) {
        var f := FirstOccurrence(tools, i);
        assert f != j ==> FactName(tools, f) != FactName(tools, j);
      }
    }
    if forall i, j :: 0 <= i < |tools| && 0 <= j < |tools| && Occurrence(tools, j) > 1 ==>
        tools[i].name != Suffixed(tools[j].name, Occurrence(tools, j)) {
      forall i, j | 0 <= i < j < |tools| ensures FactName(tools, i) != FactName(tools, j) {
        if tools[i].name == tools[j].name { OccurrencesGrow(tools, i, j); }
        if FactName(tools, i) == FactName(tools, j) && Occurrence(tools, i) > 1 && Occurrence(tools, j) > 1 {
          SuffixedInjective(tools[i].name, Occurrence(tools, i), tools[j].name, Occurrence(tools, j));
        }
      }
    }
  }

  /** Three tools for which it fails: "x", "x" and one really named "x#2". */
  lemma SuffixCollides(tools: seq<ToolPrint>)
    requires |tools| == 3 && tools[0].name == tools[1].name == "x" && tools[2].name == "x#2"
    ensures FactName(tools, 1) == FactName(tools, 2) == "x#2" && !NamesDistinct(tools)
  {
    assert tools[..2][..1] == tools[..1] && tools[..1][..0] == [] == tools[..0];
    assert tools[..3][..2] == tools[..2];
    assert Count(tools[..0], "x") == 0 && Count(tools[..1], "x") == 1 && Count(tools[..2], "x") == 2;
    assert Count(tools[..1], "x#2") == 0 && Count(tools[..2], "x#2") == 0 && Count(tools[..3], "x#2") == 1;
    assert Digits(2) == "2" && "x" + "#" + "2" == "x#2";
  }

  // ---- the snapshot -------------------------------------------------------------------------

  function FactKey(f: PostureFact): SortKey { [Codes(f.kind.Value()), Codes(f.key)] }

  ghost predicate IsServerPart(s: Server, f: PostureFact) {
    || f == ServerFactOf(s)
    || (exists x :: x in s.findings && f == FindingFactOf(s, x))
    || (exists i :: 0 <= i < |s.tools| && f == FactAt(s, i))
  }

  function FindingFacts(s: Server): seq<PostureFact> {
    seq(|s.findings|, k requires 0 <= k < |s.findings| => FindingFactOf(s, s.findings[k]))
  }

  function ToolFactsFrom(s: Server, i: nat): seq<PostureFact>
    requires i <= |s.tools|
  {
    seq(|s.tools| - i, k requires 0 <= k < |s.tools| - i => FactAt(s, i + k))
  }

  /** The facts of one server, in order. */
  function FactsOf(s: Server): seq<PostureFact> { [ServerFactOf(s)] + FindingFacts(s) + ToolFactsFrom(s, 0) }

  function Scanned(servers: seq<Server>): seq<PostureFact> { Gathered(servers, FactsOf) }

  function Inventoried(assets: seq<Asset>): seq<PostureFact> {
    seq(|assets|, k requires 0 <= k < |assets| => AssetFactOf(assets[k]))
  }

  /** `build_snapshot`: every fact of every server and asset, sorted by kind and key, facts of one
      key in the order of the scan. */
  method BuildSnapshot(servers: seq<Server>, assets: seq<Asset>) returns (snapshot: Snapshot)
    ensures snapshot.schemaVersion == "1.0"
    ensures snapshot.facts == SortBy(Scanned(servers) + Inventoried(assets), FactKey)
    ensures IsBuilt(servers, assets, snapshot.facts)
  {
    var facts: seq<PostureFact> := [];
    for i := 0 to |servers|
      invariant facts == Scanned(servers[..i])
    {
      var s := servers[i];
      NextServer(servers, i);
      var tools := ToolFacts(s);
      assert tools == ToolFactsFrom(s, 0);
      facts := facts + [ServerFactOf(s)] + FindingFacts(s) + tools;
    }
    assert servers[..|servers|] == servers;
    facts := facts + Inventoried(assets);
    snapshot := Snapshot("1.0", SortBy(facts, FactKey));
    SortedIsBuilt(servers, assets);
  }

  lemma NextServer(servers: seq<Server>, i: nat)
    requires i < |servers|
    ensures Scanned(servers[..i + 1]) == Scanned(servers[..i]) + FactsOf(servers[i])
  {
    assert servers[..i + 1][..i] == servers[..i];
  }

  ghost predicate IsFactOf(servers: seq<Server>, assets: seq<Asset>, f: PostureFact) {
    (exists s :: s in servers && IsServerPart(s, f)) || (exists a :: a in assets && f == AssetFactOf(a))
  }

  ghost predicate IsBuilt(servers: seq<Server>, assets: seq<Asset>, facts: seq<PostureFact>) {
    forall f :: f in facts <==> IsFactOf(servers, assets, f)
  }

  lemma SortedIsBuilt(servers: seq<Server>, assets: seq<Asset>)
    ensures IsBuilt(servers, assets, SortBy(Scanned(servers) + Inventoried(assets), FactKey))
  {
    var facts := Scanned(servers) + Inventoried(assets);
    SortMembers(facts, FactKey);
    ScannedIsBuilt(servers, assets);
  }

  lemma ScannedIsBuilt(servers: seq<Server>, assets: seq<Asset>)
    ensures IsBuilt(servers, assets, Scanned(servers) + Inventoried(assets))
  {
    forall f ensures f in Scanned(servers) + Inventoried(assets) <==> IsFactOf(servers, assets, f) {
      ScannedFacts(servers, f);
      InventoriedPart(assets, f);
    }
  }

  lemma ScannedFacts(servers: seq<Server>, f: PostureFact)
    ensures f in Scanned(servers) <==> exists s :: s in servers && IsServerPart(s, f)
  {
    GatheredMembers(servers, FactsOf, f);
    forall s ensures f in FactsOf(s) <==> IsServerPart(s, f) { FactsOfServer(s, f); }
  }

  lemma InventoriedPart(assets: seq<Asset>, f: PostureFact)
    ensures f in Inventoried(assets) <==> exists a :: a in assets && f == AssetFactOf(a)
  {
    if a :| a in assets && f == AssetFactOf(a) {
      var k :| 0 <= k < |assets| && assets[k] == a;
      assert Inventoried(assets)[k] == f;
    }
  }

  lemma FactsOfServer(s: Server, f: PostureFact)
    ensures f in FactsOf(s) <==> IsServerPart(s, f)
  {
    var found, tools := FindingFacts(s), ToolFactsFrom(s, 0);
    if x :| x in s.findings && f == FindingFactOf(s, x) {
      var k :| 0 <= k < |s.findings| && s.findings[k] == x;
      assert found[k] == f;
    }
    if i :| 0 <= i < |s.tools| && f == FactAt(s, i) {
      assert tools[i] == f;
    }
  }

  // ---- facts of one key ----------------------------------------------------------------------

  function KeyIs(key: string): PostureFact -> bool { (f: PostureFact) => f.key == key }

  /** The last fact of a key is the one that counts. */
  lemma {:induction false} ByKeyIsLast(facts: seq<PostureFact>, key: string)
    ensures var same := Keep(facts, KeyIs(key));
      && (key in ByKey(facts) <==> same != [])
      && (key in ByKey(facts) ==> ByKey(facts)[key] == same[|same| - 1])
  {
    if facts != [] {
      var init, last := facts[..|facts| - 1], facts[|facts| - 1];
      ByKeyIsLast(init, key);
      KeepConcat(init, [last], KeyIs(key));
      assert init + [last] == facts && [last][1..] == [];
    }
  }

  /** Sorting never changes which fact a key stands for: the last one scanned. */
  lemma SortKeepsLast(facts: seq<PostureFact>)
    requires forall f :: f in facts ==> f.kind == DriftTheorems.KindOfKey(f.key)
    ensures ByKey(SortBy(facts, FactKey)) == ByKey(facts)
  {
    var sorted := SortBy(facts, FactKey);
    forall key ensures key in ByKey(sorted) <==> key in ByKey(facts)
      ensures key in ByKey(facts) ==> ByKey(sorted)[key] == ByKey(facts)[key] {
      SameLast(facts, key);
    }
  }

  lemma SameLast(facts: seq<PostureFact>, key: string)
    requires forall f :: f in facts ==> f.kind == DriftTheorems.KindOfKey(f.key)
    ensures var sorted := SortBy(facts, FactKey);
      && (key in ByKey(sorted) <==> key in ByKey(facts))
      && (key in ByKey(facts) ==> ByKey(sorted)[key] == ByKey(facts)[key])
  {
    ByKeyIsLast(facts, key);
    ByKeyIsLast(SortBy(facts, FactKey), key);
    KeepSort(facts, KeyIs(key), FactKey);
    SortOfSame(facts, key);
  }

  lemma SortOfSame(facts: seq<PostureFact>, key: string)
    requires forall f :: f in facts ==> f.kind == DriftTheorems.KindOfKey(f.key)
    ensures var same := Keep(facts, KeyIs(key)); SortBy(same, FactKey) == same
  {
    var same := Keep(facts, KeyIs(key));
    KeptAreMembers(facts, KeyIs(key));
    forall i | 0 <= i < |same| ensures FactKey(same[i]) == FactKey(same[0]) {
      assert same[i] in same && same[0] in same;
    }
    SortOfEqualKeys(same, FactKey);
  }

  lemma {:induction false} KeptAreMembers(facts: seq<PostureFact>, pick: PostureFact -> bool)
    ensures forall f :: f in Keep(facts, pick) ==> f in facts && pick(f)
  {
    if facts != [] {
      KeptAreMembers(facts[1..], pick);
      assert facts == [facts[0]] + facts[1..];
    }
  }

  lemma {:induction false} ByKeyIs(facts: seq<PostureFact>)
    ensures forall k :: k in ByKey(facts) <==> exists f :: f in facts && f.key == k
    ensures forall k :: k in ByKey(facts) ==> ByKey(facts)[k] in facts && ByKey(facts)[k].key == k
  {
    if facts != [] {
      ByKeyIs(facts[..|facts| - 1]);
      assert facts == facts[..|facts| - 1] + [facts[|facts| - 1]];
      assert facts[|facts| - 1] in facts;
    }
  }

  lemma {:induction false} HintsOnlyAnnotate(detail: Detail, hints: seq<(string, string)>, n: string)
    requires n == "" || n[0] != 'a'
    ensures n in WithHints(detail, hints) <==> n in detail
    ensures n in detail ==> WithHints(detail, hints)[n] == detail[n]
    decreases |hints|
  {
    if hints != [] {
      assert ("annotation." + hints[0].0)[0] == 'a';
      HintsOnlyAnnotate(detail["annotation." + hints[0].0 := hints[0].1], hints[1..], n);
    }
  }

  /** The engine's guarantee: a server inspected live is pinned by its tools, not by an identity. */
  ghost predicate LiveServersUnidentified(servers: seq<Server>) {
    forall s, t :: s in servers && t in servers && s.id == t.id && s.tools != [] ==> t.identity.None?
  }

  lemma PartKeys(s: Server, f: PostureFact)
    requires IsServerPart(s, f)
    ensures f.kind == DriftTheorems.KindOfKey(f.key)
  {
    if x :| x in s.findings && f == FindingFactOf(s, x) {
      assert f.key[0] == 'f';
    }
    if i :| 0 <= i < |s.tools| && f == FactAt(s, i) {
      assert f.key[0] == 't';
    }
    assert ServerKey(s.id)[0] == 's';
  }

  lemma ToolDetail(s: Server, t: ToolPrint, name: string)
    ensures var f := ToolFactFor(s, t, name);
      f.kind.ToolFact? && !IsImported(f) && "server" in f.detail && f.detail["server"] == s.id
  {
    var base := map["server" := s.id, "digest" := t.digest, "description" := t.description, "schema" := t.schema];
    var pinned := if t.pin != "" then base["mcpseal" := t.pin] else base;
    HintsOnlyAnnotate(pinned, t.hints, "provenance");
    HintsOnlyAnnotate(pinned, t.hints, "server");
  }

  lemma ToolPart(s: Server, f: PostureFact)
    requires IsServerPart(s, f) && f.kind.ToolFact?
    ensures s.tools != [] && !IsImported(f) && "server" in f.detail && f.detail["server"] == s.id
  {
    var i :| 0 <= i < |s.tools| && f == FactAt(s, i);
    ToolDetail(s, s.tools[i], FactName(s.tools, i));
  }

  lemma ServerFactIs(servers: seq<Server>, assets: seq<Asset>, facts: seq<PostureFact>, g: PostureFact, id: string)
    requires g in facts && g.key == ServerKey(id) && IsBuilt(servers, assets, facts)
    ensures exists t :: t in servers && t.id == id && g == ServerFactOf(t)
  {
    assert g.key[0] == 's';
    FactKeys(servers, assets, facts, g);
    var t :| t in servers && IsServerPart(t, g);
    PartKeys(t, g);
    assert g == ServerFactOf(t);
    assert t.id == ServerKey(t.id)[7..] && id == ServerKey(id)[7..];
  }

  /** Every snapshot that the builder makes meets what the gate theorems assume. */
  lemma BuiltIsWellFormed(servers: seq<Server>, assets: seq<Asset>, facts: seq<PostureFact>)
    requires LiveServersUnidentified(servers) && IsBuilt(servers, assets, facts)
    ensures DriftTheorems.WellFormed(ByKey(facts))
  {
    var m := ByKey(facts);
    ByKeyIs(facts);
    forall k | k in m ensures m[k].key == k && m[k].kind == DriftTheorems.KindOfKey(k) {
      FactKeys(servers, assets, facts, m[k]);
    }
    forall k | k in m && m[k].kind.ToolFact?
      ensures !IsImported(m[k]) && "server" in m[k].detail
      ensures ServerKey(m[k].detail["server"]) in m
      ensures "tool_identity" !in m[ServerKey(m[k].detail["server"])].detail {
      ToolIsPinned(servers, assets, facts, m[k]);
    }
  }

  lemma FactKeys(servers: seq<Server>, assets: seq<Asset>, facts: seq<PostureFact>, f: PostureFact)
    requires IsBuilt(servers, assets, facts) && f in facts
    ensures f.kind == DriftTheorems.KindOfKey(f.key)
  {
    if s :| s in servers && IsServerPart(s, f) {
      PartKeys(s, f);
    } else {
      var a :| a in assets && f == AssetFactOf(a);
      assert f.key[0] == 'a';
    }
  }

  lemma ToolIsPinned(servers: seq<Server>, assets: seq<Asset>, facts: seq<PostureFact>, f: PostureFact)
    requires LiveServersUnidentified(servers) && IsBuilt(servers, assets, facts) && f in facts && f.kind.ToolFact?
    ensures !IsImported(f) && "server" in f.detail && ServerKey(f.detail["server"]) in ByKey(facts)
    ensures "tool_identity" !in ByKey(facts)[ServerKey(f.detail["server"])].detail
  {
    var s :| s in servers && IsServerPart(s, f);
    ToolPart(s, f);
    ByKeyIs(facts);
    assert IsServerPart(s, ServerFactOf(s)) && ServerFactOf(s) in facts;
    var g := ByKey(facts)[ServerKey(s.id)];
    ServerFactIs(servers, assets, facts, g, s.id);
    var t :| t in servers && t.id == s.id && g == ServerFactOf(t);
    NoIdentity(t);
  }

  lemma NoIdentity(t: Server)
    requires t.identity.None?
    ensures "tool_identity" !in ServerFactOf(t).detail
  {
  }
}
