/** What the drift gate sees of a scan: the posture that a report leaves after the snapshot is keyed
    (drift/snapshot.py and drift/diff.py together). */
module Postures {
  import opened GraphModel
  import opened Orders
  import opened Drift
  import opened DriftTheorems
  import opened Snapshots

  /** The keyed facts of the snapshot of a report. */
  function Posture(servers: seq<Server>, assets: seq<Asset>): Facts {
    ByKey(SortBy(Scanned(servers) + Inventoried(assets), FactKey))
  }

  lemma PostureIsScanned(servers: seq<Server>, assets: seq<Asset>)
    ensures Posture(servers, assets) == ByKey(Scanned(servers) + Inventoried(assets))
  {
    var facts := Scanned(servers) + Inventoried(assets);
    ScannedIsBuilt(servers, assets);
    forall f | f in facts ensures f.kind == KindOfKey(f.key) { FactKeys(servers, assets, facts, f); }
    SortKeepsLast(facts);
  }

  lemma PostureIsWellFormed(servers: seq<Server>, assets: seq<Asset>)
    requires LiveServersUnidentified(servers)
    ensures WellFormed(Posture(servers, assets))
  {
    SortedIsBuilt(servers, assets);
    BuiltIsWellFormed(servers, assets, SortBy(Scanned(servers) + Inventoried(assets), FactKey));
  }

  lemma {:induction false} ByKeyConcat(a: seq<PostureFact>, b: seq<PostureFact>)
    ensures ByKey(a + b) == ByKey(a) + ByKey(b)
  {
    if b == [] {
      assert a + b == a;
    } else {
      assert (a + b)[..|a + b| - 1] == a + b[..|b| - 1];
      ByKeyConcat(a, b[..|b| - 1]);
    }
  }

  /** A report is scanned as what stands before a server, its own facts, and the rest. */
  lemma ScannedAround(before: seq<Server>, s: Server, after: seq<Server>)
    ensures Scanned(before + [s] + after) == Scanned(before) + FactsOf(s) + Scanned(after)
  {
    GatheredConcat(before + [s], after, FactsOf);
    assert (before + [s])[..|before|] == before;
  }

  // ---- a tool that changed ------------------------------------------------------------------

  /** A later fact has the key of tool i of s: a later tool of its own with the same fact name, or
      something a later server reports. */
  ghost predicate Overwritten(s: Server, i: nat, after: seq<Server>)
    requires i < |s.tools|
  {
    || (exists k :: i < k < |s.tools| && FactName(s.tools, k) == FactName(s.tools, i))
    || (exists g :: g in Scanned(after) && g.key == FactAt(s, i).key)
  }

  /** The facts of s before tool i. */
  function Earlier(s: Server, i: nat): seq<PostureFact>
    requires i < |s.tools|
  {
    [ServerFactOf(s)] + FindingFacts(s) + ToolFactsFrom(s, 0)[..i]
  }

  lemma SplitAtTool(s: Server, i: nat)
    requires i < |s.tools|
    ensures FactsOf(s) == Earlier(s, i) + [FactAt(s, i)] + ToolFactsFrom(s, i + 1)
  {
    assert ToolFactsFrom(s, 0) == ToolFactsFrom(s, 0)[..i] + [FactAt(s, i)] + ToolFactsFrom(s, i + 1);
  }

  /** Whether anything after tool i stands for its key. */
  lemma LaterKeys(s: Server, i: nat, after: seq<Server>, assets: seq<Asset>)
    requires i < |s.tools|
    ensures FactAt(s, i).key in ByKey(ToolFactsFrom(s, i + 1) + Scanned(after) + Inventoried(assets)) <==>
      Overwritten(s, i, after)
  {
    var key := FactAt(s, i).key;
    ByKeyIs(ToolFactsFrom(s, i + 1) + Scanned(after) + Inventoried(assets));
    NoAssetIsATool(s, i, assets);
    LaterTool(s, i);
  }

  lemma NoAssetIsATool(s: Server, i: nat, assets: seq<Asset>)
    requires i < |s.tools|
    ensures forall g :: g in Inventoried(assets) ==> g.key != FactAt(s, i).key
  {
    assert FactAt(s, i).key[0] == 't';
    forall g | g in Inventoried(assets) ensures g.key != FactAt(s, i).key {
      InventoriedPart(assets, g);
      assert g.key[0] == 'a';
    }
  }

  lemma LaterTool(s: Server, i: nat)
    requires i < |s.tools|
    ensures (exists g :: g in ToolFactsFrom(s, i + 1) && g.key == FactAt(s, i).key)
      <==> exists k :: i < k < |s.tools| && FactName(s.tools, k) == FactName(s.tools, i)
  {
    var later := ToolFactsFrom(s, i + 1);
    if g :| g in later && g.key == FactAt(s, i).key {
      var k :| 0 <= k < |later| && later[k] == g;
      SameToolKey(s, i, i + 1 + k);
    }
    if k :| i < k < |s.tools| && FactName(s.tools, k) == FactName(s.tools, i) {
      assert later[k - i - 1] == FactAt(s, k);
    }
  }

  lemma SameToolKey(s: Server, i: nat, k: nat)
    requires i < |s.tools| && k < |s.tools| && FactAt(s, i).key == FactAt(s, k).key
    ensures FactName(s.tools, i) == FactName(s.tools, k)
  {
    var prefix := "tool:" + s.id + ":";
    assert FactAt(s, i).key == prefix + FactName(s.tools, i) && FactAt(s, k).key == prefix + FactName(s.tools, k);
    assert FactName(s.tools, i) == FactAt(s, i).key[|prefix|..] && FactName(s.tools, k) == FactAt(s, k).key[|prefix|..];
  }

  lemma Regroup(b: seq<PostureFact>, e: seq<PostureFact>, f: PostureFact, l: seq<PostureFact>, a: seq<PostureFact>,
                v: seq<PostureFact>)
    ensures b + (e + [f] + l) + a + v == b + e + [f] + (l + a + v)
  {
  }

  lemma KeyedAround(first: seq<PostureFact>, f: PostureFact, rest: seq<PostureFact>)
    ensures ByKey(first + [f] + rest) == ByKey(first)[f.key := f] + ByKey(rest)
  {
    ByKeyConcat(first + [f], rest);
    assert (first + [f])[..|first|] == first;
  }

  /** The posture around one tool: what comes before it, the tool, and what may overwrite it. */
  lemma PostureAroundTool(before: seq<Server>, s: Server, after: seq<Server>, assets: seq<Asset>, i: nat)
    requires i < |s.tools|
    ensures Posture(before + [s] + after, assets) ==
      ByKey(Scanned(before) + Earlier(s, i))[FactAt(s, i).key := FactAt(s, i)]
      + ByKey(ToolFactsFrom(s, i + 1) + Scanned(after) + Inventoried(assets))
  {
    PostureIsScanned(before + [s] + after, assets);
    ScannedAround(before, s, after);
    SplitAtTool(s, i);
    Regroup(Scanned(before), Earlier(s, i), FactAt(s, i), ToolFactsFrom(s, i + 1), Scanned(after),
            Inventoried(assets));
    KeyedAround(Scanned(before) + Earlier(s, i), FactAt(s, i),
                ToolFactsFrom(s, i + 1) + Scanned(after) + Inventoried(assets));
  }

  lemma ToolCounts(before: seq<Server>, s: Server, after: seq<Server>, assets: seq<Asset>, i: nat)
    requires i < |s.tools| && !Overwritten(s, i, after)
    ensures FactAt(s, i).key in Posture(before + [s] + after, assets)
    ensures Posture(before + [s] + after, assets)[FactAt(s, i).key] == FactAt(s, i)
  {
    PostureAroundTool(before, s, after, assets, i);
    LaterKeys(s, i, after, assets);
  }

  lemma ToolDigest(s: Server, i: nat)
    requires i < |s.tools|
    ensures var f := FactAt(s, i);
      f.kind.ToolFact? && !IsImported(f) && Lookup(f.detail, "digest") == Some(s.tools[i].digest)
        && Get(f.detail, "server", "") == s.id
  {
    var t := s.tools[i];
    ToolDetail(s, t, FactName(s.tools, i));
    var base := map["server" := s.id, "digest" := t.digest, "description" := t.description, "schema" := t.schema];
    HintsOnlyAnnotate(if t.pin != "" then base["mcpseal" := t.pin] else base, t.hints, "digest");
  }

  /** Between any two reports, a tool that both have under one fact name and that changed its
      digest gates, unless a later fact took its place in one of them. */
  lemma ChangedToolRegresses(before: seq<Server>, s: Server, after: seq<Server>, assets: seq<Asset>, i: nat,
                             before': seq<Server>, s': Server, after': seq<Server>, assets': seq<Asset>, j: nat)
    requires i < |s.tools| && j < |s'.tools| && s.id == s'.id && FactName(s.tools, i) == FactName(s'.tools, j)
    requires !Overwritten(s, i, after) && !Overwritten(s', j, after') && s.tools[i].digest != s'.tools[j].digest
    ensures IsRegression(Posture(before + [s] + after, assets), Posture(before' + [s'] + after', assets'),
                         FactAt(s, i).key)
  {
    ToolCounts(before, s, after, assets, i);
    ToolCounts(before', s', after', assets', j);
    ToolDigest(s, i);
    ToolDigest(s', j);
    assert FactAt(s, i).key == FactAt(s', j).key;
    ChangedToolGates(Posture(before + [s] + after, assets), Posture(before' + [s'] + after', assets'),
                     FactAt(s, i).key, "digest");
  }

  // ---- a tool that changed unseen -----------------------------------------------------------

  lemma {:induction false} CountReadsNames(tools: seq<ToolPrint>, others: seq<ToolPrint>, name: string)
    requires |tools| == |others| && forall k :: 0 <= k < |tools| ==> tools[k].name == others[k].name
    ensures Count(tools, name) == Count(others, name)
  {
    if tools != [] { CountReadsNames(tools[..|tools| - 1], others[..|others| - 1], name); }
  }

  function WithTool(s: Server, i: nat, t: ToolPrint): Server
    requires i < |s.tools|
  {
    s.(tools := s.tools[i := t])
  }

  lemma OtherToolsStay(s: Server, i: nat, t: ToolPrint, k: nat)
    requires i < |s.tools| && k < |s.tools| && t.name == s.tools[i].name
    ensures FactName(WithTool(s, i, t).tools, k) == FactName(s.tools, k)
    ensures k != i ==> FactAt(WithTool(s, i, t), k) == FactAt(s, k)
  {
    var tools := WithTool(s, i, t).tools;
    CountReadsNames(tools[..k + 1], s.tools[..k + 1], s.tools[k].name);
  }

  lemma AroundStays(s: Server, i: nat, t: ToolPrint)
    requires i < |s.tools| && t.name == s.tools[i].name
    ensures FactAt(WithTool(s, i, t), i).key == FactAt(s, i).key
    ensures Earlier(WithTool(s, i, t), i) == Earlier(s, i)
    ensures ToolFactsFrom(WithTool(s, i, t), i + 1) == ToolFactsFrom(s, i + 1)
  {
    var s' := WithTool(s, i, t);
    forall k | 0 <= k < |s.tools| ensures k != i ==> FactAt(s', k) == FactAt(s, k) { OtherToolsStay(s, i, t, k); }
    OtherToolsStay(s, i, t, i);
    assert FindingFacts(s') == FindingFacts(s);
    assert ToolFactsFrom(s', 0)[..i] == ToolFactsFrom(s, 0)[..i];
  }

  lemma StaysOverwritten(s: Server, i: nat, t: ToolPrint, after: seq<Server>)
    requires i < |s.tools| && t.name == s.tools[i].name
    ensures Overwritten(WithTool(s, i, t), i, after) <==> Overwritten(s, i, after)
  {
    AroundStays(s, i, t);
    forall k | 0 <= k < |s.tools| ensures FactName(WithTool(s, i, t).tools, k) == FactName(s.tools, k) {
      OtherToolsStay(s, i, t, k);
    }
  }

  /** A tool whose key a later fact has may become anything of its name. */
  lemma OverwrittenIsUnseen(before: seq<Server>, s: Server, after: seq<Server>, assets: seq<Asset>, i: nat,
                            t: ToolPrint)
    requires i < |s.tools| && t.name == s.tools[i].name && Overwritten(s, i, after)
    ensures Posture(before + [WithTool(s, i, t)] + after, assets) == Posture(before + [s] + after, assets)
  {
    AroundStays(s, i, t);
    LaterKeys(s, i, after, assets);
    PostureAroundTool(before, s, after, assets, i);
    PostureAroundTool(before, WithTool(s, i, t), after, assets, i);
    PutBeneath(ByKey(Scanned(before) + Earlier(s, i)), FactAt(s, i), FactAt(WithTool(s, i, t), i),
               ByKey(ToolFactsFrom(s, i + 1) + Scanned(after) + Inventoried(assets)));
  }

  lemma PutBeneath(first: Facts, f: PostureFact, g: PostureFact, rest: Facts)
    requires f.key == g.key && f.key in rest
    ensures first[f.key := f] + rest == first[g.key := g] + rest
  {
  }

  /** One tool of a report is swapped for another definition of the same name: the gate sees it
      exactly when no later fact has the tool's key. */
  lemma SwappedToolIsSeenIff(before: seq<Server>, s: Server, after: seq<Server>, assets: seq<Asset>, i: nat,
                             t: ToolPrint)
    requires i < |s.tools| && t.name == s.tools[i].name && t.digest != s.tools[i].digest
    ensures !Overwritten(s, i, after) <==>
      IsRegression(Posture(before + [s] + after, assets), Posture(before + [WithTool(s, i, t)] + after, assets),
                   FactAt(s, i).key)
  {
    if Overwritten(s, i, after) {
      OverwrittenIsUnseen(before, s, after, assets, i, t);
      NoSelfDrift(Posture(before + [s] + after, assets), FactAt(s, i).key);
    } else {
      StaysOverwritten(s, i, t, after);
      OtherToolsStay(s, i, t, i);
      ChangedToolRegresses(before, s, after, assets, i, before, WithTool(s, i, t), after, assets, i);
    }
  }

  /** Of the tools "x", "x" and "x#2" the second may become anything that is called "x". */
  lemma CollidingToolChangesUnseen(before: seq<Server>, s: Server, after: seq<Server>, assets: seq<Asset>, t: ToolPrint)
    requires |s.tools| == 3 && s.tools[0].name == s.tools[1].name == "x" && s.tools[2].name == "x#2"
    requires t.name == "x"
    ensures Posture(before + [WithTool(s, 1, t)] + after, assets) == Posture(before + [s] + after, assets)
  {
    SuffixCollides(s.tools);
    OverwrittenIsUnseen(before, s, after, assets, 1, t);
  }

  // ---- a server that went away and came back ------------------------------------------------

  ghost predicate Apart(own: seq<PostureFact>, others: seq<PostureFact>) {
    forall f, g :: f in own && g in others ==> f.key != g.key
  }

  /** No fact of the server has a key that the rest of the report uses. */
  ghost predicate KeysApart(others: seq<Server>, assets: seq<Asset>, s: Server) {
    Apart(FactsOf(s), Scanned(others) + Inventoried(assets))
  }

  lemma ApartKeys(own: seq<PostureFact>, others: seq<PostureFact>)
    requires Apart(own, others)
    ensures ByKey(own).Keys !! ByKey(others).Keys
  {
    ByKeyIs(own);
    ByKeyIs(others);
  }

  lemma PutLast(b: Facts, own: Facts, rest: Facts)
    requires own.Keys !! (b + rest).Keys
    ensures b + own + rest == b + rest + own
  {
  }

  /** A part with keys of its own may as well come last. */
  lemma KeyedApart(b: seq<PostureFact>, own: seq<PostureFact>, rest: seq<PostureFact>)
    requires Apart(own, b + rest)
    ensures ByKey(own).Keys !! ByKey(b + rest).Keys
    ensures ByKey(b + own + rest) == ByKey(b + rest) + ByKey(own)
  {
    ApartKeys(own, b + rest);
    ByKeyConcat(b + own, rest);
    ByKeyConcat(b, own);
    ByKeyConcat(b, rest);
    PutLast(ByKey(b), ByKey(own), ByKey(rest));
  }

  /** A server with keys of its own adds its facts to those of the rest. */
  lemma PostureWith(before: seq<Server>, s: Server, after: seq<Server>, assets: seq<Asset>)
    requires KeysApart(before + after, assets, s)
    ensures ByKey(FactsOf(s)).Keys !! Posture(before + after, assets).Keys
    ensures Posture(before + [s] + after, assets) == Posture(before + after, assets) + ByKey(FactsOf(s))
  {
    PostureIsScanned(before + [s] + after, assets);
    PostureIsScanned(before + after, assets);
    ScannedAround(before, s, after);
    GatheredConcat(before, after, FactsOf);
    Associate(Scanned(before), FactsOf(s), Scanned(after), Inventoried(assets));
    KeyedApart(Scanned(before), FactsOf(s), Scanned(after) + Inventoried(assets));
  }

  lemma Associate(b: seq<PostureFact>, own: seq<PostureFact>, a: seq<PostureFact>, v: seq<PostureFact>)
    ensures b + a + v == b + (a + v) && b + own + a + v == b + own + (a + v)
  {
  }

  /** Take any server out of a report and put it back, changed as it may be but unexposed and
      without findings: both steps are clean. A tool of it that has another digest now regresses
      from the first posture to the last. */
  lemma RemoveAndReAddHides(before: seq<Server>, s: Server, s': Server, after: seq<Server>, assets: seq<Asset>,
                            i: nat, j: nat)
    requires s.id == s'.id && s'.findings == [] && !IsExposed(ServerFactOf(s'))
    requires KeysApart(before + after, assets, s) && KeysApart(before + after, assets, s')
    requires NamesDistinct(s.tools) && NamesDistinct(s'.tools)
    requires i < |s.tools| && j < |s'.tools| && FactName(s.tools, i) == FactName(s'.tools, j)
    requires s.tools[i].digest != s'.tools[j].digest
    requires LiveServersUnidentified(before + [s] + after) && LiveServersUnidentified(before + after)
      && LiveServersUnidentified(before + [s'] + after)
    ensures var a, b, c :=
        Posture(before + [s] + after, assets), Posture(before + after, assets), Posture(before + [s'] + after, assets);
      && WellFormed(a) && WellFormed(b) && WellFormed(c) && SameEra(a, b) && SameEra(b, c)
      && NoRegression(a, b) && NoRegression(b, c) && IsRegression(a, c, FactAt(s, i).key)
  {
    PostureIsWellFormed(before + [s] + after, assets);
    PostureIsWellFormed(before + after, assets);
    PostureIsWellFormed(before + [s'] + after, assets);
    PostureWith(before, s, after, assets);
    PostureWith(before, s', after, assets);
    ServerComesUnnoticed(before + after, assets, s');
    RemovalAndReturnAreClean(Posture(before + after, assets), ByKey(FactsOf(s)), ByKey(FactsOf(s')));
    NotOverwritten(before, s, after, assets, i);
    NotOverwritten(before, s', after, assets, j);
    ChangedToolRegresses(before, s, after, assets, i, before, s', after, assets, j);
  }

  lemma NotOverwritten(before: seq<Server>, s: Server, after: seq<Server>, assets: seq<Asset>, i: nat)
    requires KeysApart(before + after, assets, s) && NamesDistinct(s.tools) && i < |s.tools|
    ensures !Overwritten(s, i, after)
  {
    GatheredConcat(before, after, FactsOf);
    SplitAtTool(s, i);
    assert FactAt(s, i) in FactsOf(s);
  }

  lemma ServerComesUnnoticed(others: seq<Server>, assets: seq<Asset>, s: Server)
    requires KeysApart(others, assets, s) && s.findings == [] && !IsExposed(ServerFactOf(s))
    ensures ComesUnnoticed(Posture(others, assets), ByKey(FactsOf(s)))
  {
    var base, m := Posture(others, assets), ByKey(FactsOf(s));
    PostureIsScanned(others, assets);
    ApartKeys(FactsOf(s), Scanned(others) + Inventoried(assets));
    ByKeyIs(FactsOf(s));
    assert ServerFactOf(s) in FactsOf(s) && ServerKey(s.id) in m;
    forall f | f in FactsOf(s)
      ensures !f.kind.FindingFact? && (f.kind.ServerFact? ==> !IsExposed(f))
      ensures f.kind.ToolFact? ==> Get(f.detail, "server", "") == s.id {
      PlainFact(s, f);
    }
  }

  lemma PlainFact(s: Server, f: PostureFact)
    requires s.findings == [] && !IsExposed(ServerFactOf(s)) && f in FactsOf(s)
    ensures !f.kind.FindingFact? && (f.kind.ServerFact? ==> !IsExposed(f))
    ensures f.kind.ToolFact? ==> Get(f.detail, "server", "") == s.id
  {
    FactsOfServer(s, f);
    if f != ServerFactOf(s) {
      var i :| 0 <= i < |s.tools| && f == FactAt(s, i);
      ToolDigest(s, i);
    }
  }

  // ---- one server with one tool -------------------------------------------------------------

  lemma OneTool(s: Server)
    requires s.findings == [] && |s.tools| == 1
    ensures FactAt(s, 0) == ToolFactFor(s, s.tools[0], s.tools[0].name)
    ensures ServerKey(s.id) != FactAt(s, 0).key
    ensures Posture([s], []) == map[ServerKey(s.id) := ServerFactOf(s), FactAt(s, 0).key := FactAt(s, 0)]
  {
    FirstOfItsName(s.tools);
    assert ServerKey(s.id)[0] == 's' && FactAt(s, 0).key[0] == 't';
    PostureIsScanned([s], []);
    ScannedAround([], s, []);
    assert [] + [s] + [] == [s];
    FactsOfOne(s);
    TwoFacts(ServerFactOf(s), FactAt(s, 0));
  }

  lemma FirstOfItsName(tools: seq<ToolPrint>)
    requires |tools| == 1
    ensures FactName(tools, 0) == tools[0].name
  {
    assert tools[..1] == tools && tools[..0] == [] && Count(tools, tools[0].name) == 1;
  }

  lemma FactsOfOne(s: Server)
    requires s.findings == [] && |s.tools| == 1
    ensures Scanned([]) + FactsOf(s) + Scanned([]) + Inventoried([]) == [ServerFactOf(s), FactAt(s, 0)]
  {
    assert FindingFacts(s) == [] && ToolFactsFrom(s, 0) == [FactAt(s, 0)] && Inventoried([]) == [];
  }

  lemma TwoFacts(f: PostureFact, g: PostureFact)
    requires f.key != g.key
    ensures ByKey([f, g]) == map[f.key := f, g.key := g]
  {
    assert [f, g][..1] == [f] && [f][..0] == [];
    assert ByKey([f]) == map[f.key := f];
  }
}
