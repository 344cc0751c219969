/** What the exploration ceiling costs: with it hit, the chains returned are the worst of those
    met first, which need not be the worst of all (graph/paths.py). */
module Ceiling {
  import opened GraphModel
  import opened Orders
  import opened Numerals
  import opened Trust
  import opened Build
  import B = BuildTheorems
  import opened Paths
  import T = PathTheorems

  // ---- exactly when the result is what it would be without the ceiling ------------------------

  /** Some chain as severe as any was met before the ceiling. */
  ghost predicate HeaviestMet(v: View, g: Graph) {
    exists p :: p in Clip(T.AllFound(v, g)) && Heaviest(v, g, p)
  }

  ghost predicate Heaviest(v: View, g: Graph, p: AttackPath) {
    forall q :: q in T.AllFound(v, g) ==> q.severity.Weight() <= p.severity.Weight()
  }

  /** The grade is that of the worst of all chains within the hop cap exactly when one of the most
      severe chains is among the first 1000 in search order. */
  lemma GradeIsTrueIff(v: View, g: Graph)
    requires T.AllFound(v, g) != []
    ensures T.Returned(v, g) != []
    ensures T.Worst(T.Returned(v, g)).severity == T.Worst(T.AllFound(v, g)).severity <==> HeaviestMet(v, g)
    ensures T.OverallGrade(T.Returned(v, g)) == T.OverallGrade(T.AllFound(v, g)) <==> HeaviestMet(v, g)
  {
    var all, met, top := T.AllFound(v, g), Clip(T.AllFound(v, g)), T.Returned(v, g);
    T.WorstOfBest(met, met[0]);
    var worst, found := T.Worst(all), T.Worst(top);
    MetIsFound(v, g, found);
    HeaviestIf(v, g, found);
    if p :| p in met && Heaviest(v, g, p) {
      T.WorstOfBest(met, p);
    }
    GradesApart(worst.severity, found.severity);
  }

  lemma HeaviestIf(v: View, g: Graph, p: AttackPath)
    requires T.AllFound(v, g) != [] && p in Clip(T.AllFound(v, g))
    ensures p.severity == T.Worst(T.AllFound(v, g)).severity ==> HeaviestMet(v, g)
  {
    assert p.severity == T.Worst(T.AllFound(v, g)).severity ==> Heaviest(v, g, p);
  }

  lemma MetIsFound(v: View, g: Graph, p: AttackPath)
    requires p in T.Returned(v, g)
    ensures p in Clip(T.AllFound(v, g)) && p in T.AllFound(v, g)
  {
    MultisetMembers(SortBy(Clip(T.AllFound(v, g)), RankKey), Clip(T.AllFound(v, g)));
  }

  lemma GradesApart(a: Severity, b: Severity)
    ensures T.SeverityGrade(a) == T.SeverityGrade(b) <==> a == b
    ensures a.Weight() == b.Weight() <==> a == b
  {
  }

  /** The chains that would be returned without the ceiling. */
  function WorstUncut(v: View, g: Graph): seq<AttackPath> {
    Best(SortBy(T.AllFound(v, g), RankKey))
  }

  /** The worst-ranked chains survive, in their order, exactly when each of them is among the first
      1000 in search order. */
  lemma WorstSurviveIff(v: View, g: Graph)
    requires T.ViewOf(v, g) && T.UniqueIds(g.nodes)
    ensures T.Returned(v, g) == WorstUncut(v, g) <==>
      forall p :: p in WorstUncut(v, g) ==> p in Clip(T.AllFound(v, g))
  {
    var all, met := T.AllFound(v, g), Clip(T.AllFound(v, g));
    if T.Returned(v, g) == WorstUncut(v, g) {
      forall p | p in WorstUncut(v, g) ensures p in met { MetIsFound(v, g, p); }
    }
    if forall p :: p in WorstUncut(v, g) ==> p in met {
      T.AllFoundOnce(v, g);
      SurvivorsSorted(all, met);
    }
  }

  lemma SurvivorsSorted(all: seq<AttackPath>, met: seq<AttackPath>)
    requires T.NoDuplicates(all) && met == Clip(all)
    requires forall p :: p in Best(SortBy(all, RankKey)) ==> p in met
    ensures Best(SortBy(met, RankKey)) == Best(SortBy(all, RankKey))
  {
    var pick := (p: AttackPath) => p in met;
    MetIsKept(all, met, pick);
    KeepSort(all, pick, RankKey);
    BestIsKept(SortBy(all, RankKey), pick);
  }

  lemma BestIsKept(ranked: seq<AttackPath>, pick: AttackPath -> bool)
    requires forall p :: p in Best(ranked) ==> pick(p)
    ensures Best(Keep(ranked, pick)) == Best(ranked)
  {
    var top := Best(ranked);
    var rest := ranked[|top|..];
    assert ranked == top + rest;
    KeepConcat(top, rest, pick);
    KeepAll(top, pick);
  }

  lemma MetIsKept(all: seq<AttackPath>, met: seq<AttackPath>, pick: AttackPath -> bool)
    requires T.NoDuplicates(all) && met == Clip(all) && forall p :: pick(p) <==> p in met
    ensures Keep(all, pick) == met
  {
    var rest := all[|met|..];
    assert all == met + rest;
    forall i | 0 <= i < |rest| ensures !pick(rest[i]) {
      assert rest[i] == all[|met| + i];
      forall j | 0 <= j < |met| ensures met[j] != rest[i] { assert met[j] == all[j]; }
    }
    KeepConcat(met, rest, pick);
    KeepAll(met, pick);
    KeepAll(rest, pick);
  }

  // ---- when the first entries fill the ceiling ------------------------------------------------

  /** When the first k entries lead to as many chains as the ceiling admits, no chain from a later
      entry is returned. */
  lemma OnlyEarlierEntries(v: View, g: Graph, k: nat, p: AttackPath)
    requires T.ViewOf(v, g) && k <= |Entries(g.nodes)|
    requires |ExploreAll(v, Entries(g.nodes)[..k])| >= 1000
    requires p in T.Returned(v, g)
    ensures T.Chain(g, p.nodes, p.edges) && p == MakePath(v, p.nodes, p.edges) && p.nodes[0] in Entries(g.nodes)[..k]
  {
    MetIsFound(v, g, p);
    T.AllFoundSound(v, g, p);
    ClippedIsEarlier(v, Entries(g.nodes), k, p);
    StartsAtEntry(v, g, Entries(g.nodes)[..k], p);
  }

  lemma ClippedIsEarlier(v: View, entries: seq<string>, k: nat, p: AttackPath)
    requires k <= |entries| && |ExploreAll(v, entries[..k])| >= 1000
    requires p in Clip(ExploreAll(v, entries))
    ensures p in ExploreAll(v, entries[..k])
  {
    var found, more := ExploreAll(v, entries[..k]), ExploreAll(v, entries[k..]);
    ExploreAllConcat(v, entries[..k], entries[k..]);
    assert entries == entries[..k] + entries[k..];
    ClipToFirst(found, more, p);
  }

  lemma ClipToFirst(a: seq<AttackPath>, b: seq<AttackPath>, p: AttackPath)
    requires |a| >= 1000 && p in Clip(a + b)
    ensures p in a
  {
  }

  lemma StartsAtEntry(v: View, g: Graph, entries: seq<string>, p: AttackPath)
    requires T.ViewOf(v, g) && p in ExploreAll(v, entries)
    ensures p.nodes != [] && p.nodes[0] in entries
  {
    T.ExploreAllMembers(v, entries, p);
    var i :| 0 <= i < |entries| && p in Explore(v, [entries[i]], []);
    T.ExploreSound(v, g, [entries[i]], [], p);
    assert p.nodes[0] == [entries[i]][0];
  }

  // ---- a crowded configuration ----------------------------------------------------------------

  const PATH := "mcp.json"

  /** A server with one dangerous auto-approved tool and a bind hint. */
  function Decl(name: string, tier: Tier): ServerDecl {
    ServerDecl(name, [Grant(true, false)], 0, false, Some(tier))
  }

  function LanName(i: nat): string { "a" + Digits(i) }

  const WIDE := "b"

  function ProfileOf(name: string, tier: Tier): Profile { ProfileServer(Decl(name, tier), PATH, "") }

  /** n servers on the local network and, last by name, one open to every network. */
  function Crowd(n: nat): Inputs {
    Inputs(seq(n, i requires 0 <= i < n => ProfileOf(LanName(i), PrivateLanTier)) + [ProfileOf(WIDE, WildcardTier)],
           None, map[])
  }

  function EntryOf(name: string): string { EntryId(Subject(PATH, name)) }

  /** The chain from a server's entry through the server to the local shell. */
  function ShellChain(name: string): seq<string> {
    [EntryOf(name), ServerId(Subject(PATH, name)), TargetId(Build.SHELL.id)]
  }

  predicate InCrowd(n: nat, name: string, tier: Tier) {
    ProfileOf(name, tier) in Crowd(n).profiles
  }

  lemma CrowdHas(n: nat)
    ensures forall i :: 0 <= i < n ==> InCrowd(n, LanName(i), PrivateLanTier)
    ensures InCrowd(n, WIDE, WildcardTier)
    ensures forall p :: p in Crowd(n).profiles ==>
        p == ProfileOf(WIDE, WildcardTier) || exists i :: 0 <= i < n && p == ProfileOf(LanName(i), PrivateLanTier)
  {
    var profiles := Crowd(n).profiles;
    forall i | 0 <= i < n ensures InCrowd(n, LanName(i), PrivateLanTier) {
      assert profiles[i] == ProfileOf(LanName(i), PrivateLanTier);
    }
    assert profiles[n] == ProfileOf(WIDE, WildcardTier);
    forall p | p in profiles
      ensures p == ProfileOf(WIDE, WildcardTier)
        || exists i :: 0 <= i < n && p == ProfileOf(LanName(i), PrivateLanTier) {
      var j :| 0 <= j < |profiles| && profiles[j] == p;
      assert j < n ==> p == ProfileOf(LanName(j), PrivateLanTier);
    }
  }

  lemma Member(name: string, tier: Tier)
    requires !tier.LoopbackTier?
    ensures var p := ProfileOf(name, tier);
      && p.Has(ExposureReach) && HasDangerousTools(p) && p.subject == Subject(PATH, name)
      && ReachLabel(p) == if tier.PrivateLanTier? then PrivateLan else WildcardOrPublic
  {
    ProfileFactors(Decl(name, tier), PATH, "");
    B.DangerousGrant(Decl(name, tier), PATH, "");
    B.ReachIsStated(Decl(name, tier), PATH, "");
  }

  const PREFIX := "entry:" + PATH + "#"

  lemma EntryOfIs(name: string)
    ensures EntryOf(name) == PREFIX + name && EntryOf(name)[|PREFIX|..] == name
  {
  }

  lemma NamesApart(i: nat, j: nat)
    ensures EntryOf(LanName(i)) == EntryOf(LanName(j)) ==> i == j
    ensures EntryOf(LanName(i)) != EntryOf(WIDE)
  {
    EntryOfIs(LanName(i));
    EntryOfIs(LanName(j));
    EntryOfIs(WIDE);
    assert LanName(i)[0] == 'a' && WIDE[0] == 'b';
    assert LanName(i)[1..] == Digits(i) && LanName(j)[1..] == Digits(j);
    if LanName(i) == LanName(j) { DigitsInjective(i, j); }
  }

  // ---- its graph ------------------------------------------------------------------------------

  lemma CrowdSubjects(n: nat, p: Profile, q: Profile)
    requires p in Crowd(n).profiles && q in Crowd(n).profiles && p.subject == q.subject
    ensures p == q
  {
    CrowdHas(n);
    if p != ProfileOf(WIDE, WildcardTier) && q != ProfileOf(WIDE, WildcardTier) {
      var i :| 0 <= i < n && p == ProfileOf(LanName(i), PrivateLanTier);
      var j :| 0 <= j < n && q == ProfileOf(LanName(j), PrivateLanTier);
      NamesApart(i, j);
    } else {
      forall i: nat ensures EntryOf(LanName(i)) != EntryOf(WIDE) { NamesApart(i, i); }
    }
  }

  lemma CrowdEntry(n: nat, g: Graph, name: string, tier: Tier)
    requires BuiltFrom(Crowd(n), g) && InCrowd(n, name, tier) && !tier.LoopbackTier?
    ensures var nodes := NodeById(g.nodes);
      EntryOf(name) in nodes && nodes[EntryOf(name)] == EntryNode(ProfileOf(name, tier)) && T.EntryId(g, EntryOf(name))
  {
    var p, exposed := ProfileOf(name, tier), Exposed(Crowd(n).profiles);
    Member(name, tier);
    B.ExposedAre(Crowd(n).profiles);
    LastOfSubject(exposed, p.subject);
    CrowdSubjects(n, p, LastOf(exposed, p.subject).value);
    B.NodeIs(g, EntryNode(p));
  }

  lemma CrowdChain(n: nat, g: Graph, name: string, tier: Tier)
    requires BuiltFrom(Crowd(n), g) && InCrowd(n, name, tier) && !tier.LoopbackTier?
    ensures T.Chain(g, ShellChain(name), [Reaches, CanAct])
  {
    var p := ProfileOf(name, tier);
    Member(name, tier);
    assert CanActOn(Crowd(n), p, Build.SHELL);
    B.HopReaches(Crowd(n), g, p);
    B.HopActs(Crowd(n), g, p, Build.SHELL);
    B.BuiltIsWellTyped(Crowd(n), g);
    B.TwoHopChain(g, p, Build.SHELL);
  }

  /** The graph has no entries but those of the crowd. */
  lemma CrowdEntries(n: nat, g: Graph, id: string)
    requires BuiltFrom(Crowd(n), g) && T.EntryId(g, id)
    ensures id == EntryOf(WIDE) || exists i :: 0 <= i < n && id == EntryOf(LanName(i))
  {
    var x :| x in g.nodes && x.kind.Entry? && x.id == id;
    assert NodeSpec(Crowd(n), id) && KindOf(id).Entry?;
    EntryWasProfiled(Crowd(n), id);
    var p :| p in Crowd(n).profiles && id == EntryId(p.subject);
    CrowdHas(n);
  }

  lemma EntryWasProfiled(inp: Inputs, id: string)
    requires NodeSpec(inp, id) && KindOf(id).Entry? && inp.inventory.None?
    ensures exists p :: p in inp.profiles && id == EntryId(p.subject)
  {
  }

  // ---- the order of its entries ---------------------------------------------------------------

  lemma {:induction false} CommonStart(p: seq<int>, a: seq<int>, b: seq<int>)
    ensures IntsLe(p + a, p + b) <==> IntsLe(a, b)
  {
    if p == [] {
      assert p + a == a && p + b == b;
    } else {
      assert (p + a)[1..] == p[1..] + a && (p + b)[1..] == p[1..] + b;
      CommonStart(p[1..], a, b);
    }
  }

  lemma LanBeforeWide(i: nat)
    ensures !KeyLe(IdKey(EntryOf(WIDE)), IdKey(EntryOf(LanName(i))))
  {
    var lan := LanName(i);
    EntryOfIs(lan);
    EntryOfIs(WIDE);
    assert Codes(PREFIX + lan) == Codes(PREFIX) + Codes(lan) && Codes(PREFIX + WIDE) == Codes(PREFIX) + Codes(WIDE);
    CommonStart(Codes(PREFIX), Codes(WIDE), Codes(lan));
    assert Codes(WIDE)[0] == 98 && Codes(lan)[0] == 97;
  }

  /** The wide entry is the last. */
  lemma WideIsLast(n: nat, g: Graph) returns (k: nat)
    requires BuiltFrom(Crowd(n), g)
    ensures k + 1 == |Entries(g.nodes)| && Entries(g.nodes)[k] == EntryOf(WIDE)
    ensures forall i :: 0 <= i < n ==> EntryOf(LanName(i)) in Entries(g.nodes)[..k]
    ensures forall id :: id in Entries(g.nodes)[..k] ==> exists i :: 0 <= i < n && id == EntryOf(LanName(i))
  {
    var entries := Entries(g.nodes);
    CrowdHas(n);
    k := WideAt(n, g);
    EntriesStrict(n, g);
    EntryAt(n, g, entries, k, |entries| - 1);
    forall j | 0 <= j < |entries|
      ensures j <= k && (j < k ==> exists i :: 0 <= i < n && entries[j] == EntryOf(LanName(i))) {
      EntryAt(n, g, entries, k, j);
    }
    forall i | 0 <= i < n ensures EntryOf(LanName(i)) in entries[..k] { LanInFront(n, g, k, i); }
  }

  lemma WideAt(n: nat, g: Graph) returns (k: nat)
    requires BuiltFrom(Crowd(n), g)
    ensures k < |Entries(g.nodes)| && Entries(g.nodes)[k] == EntryOf(WIDE)
  {
    CrowdHas(n);
    CrowdEntry(n, g, WIDE, WildcardTier);
    T.EntriesAre(g, EntryOf(WIDE));
    k :| 0 <= k < |Entries(g.nodes)| && Entries(g.nodes)[k] == EntryOf(WIDE);
  }

  lemma EntriesStrict(n: nat, g: Graph)
    requires BuiltFrom(Crowd(n), g)
    ensures StrictlyOrdered(Entries(g.nodes), IdKey)
  {
    B.BuilderMeetsSearch(Crowd(n), g);
    T.EntryIdsUnique(g.nodes);
    SortByStrict(EntryIds(g.nodes), IdKey);
  }

  lemma LanInFront(n: nat, g: Graph, k: nat, i: nat)
    requires BuiltFrom(Crowd(n), g) && i < n && InCrowd(n, LanName(i), PrivateLanTier)
    requires k + 1 == |Entries(g.nodes)| && Entries(g.nodes)[k] == EntryOf(WIDE)
    ensures EntryOf(LanName(i)) in Entries(g.nodes)[..k]
  {
    CrowdEntry(n, g, LanName(i), PrivateLanTier);
    T.EntriesAre(g, EntryOf(LanName(i)));
    NamesApart(i, i);
    InFront(Entries(g.nodes), k, EntryOf(LanName(i)));
  }

  lemma InFront(entries: seq<string>, k: nat, id: string)
    requires k + 1 == |entries| && id in entries && id != entries[k]
    ensures id in entries[..k]
  {
    var j :| 0 <= j < |entries| && entries[j] == id;
    assert entries[..k][j] == id;
  }

  lemma EntryAt(n: nat, g: Graph, entries: seq<string>, k: nat, j: nat)
    requires BuiltFrom(Crowd(n), g) && entries == Entries(g.nodes) && StrictlyOrdered(entries, IdKey)
    requires k < |entries| && entries[k] == EntryOf(WIDE) && j < |entries|
    ensures j <= k && (j < k ==> exists i :: 0 <= i < n && entries[j] == EntryOf(LanName(i)))
  {
    T.EntriesAre(g, entries[j]);
    CrowdEntries(n, g, entries[j]);
    if i :| 0 <= i < n && entries[j] == EntryOf(LanName(i)) {
      LanBeforeWide(i);
    }
    assert j < k ==> KeyLt(IdKey(entries[j]), IdKey(entries[k]));
    assert j > k ==> KeyLt(IdKey(entries[k]), IdKey(entries[j]));
  }

  // ---- what the search makes of it ------------------------------------------------------------

  lemma ManyFromLan(n: nat, g: Graph, v: View, k: nat)
    requires BuiltFrom(Crowd(n), g) && T.ViewOf(v, g) && k <= |Entries(g.nodes)|
    requires forall i :: 0 <= i < n ==> EntryOf(LanName(i)) in Entries(g.nodes)[..k]
    ensures |ExploreAll(v, Entries(g.nodes)[..k])| >= n
  {
    var found := ExploreAll(v, Entries(g.nodes)[..k]);
    var chains := seq(n, i requires 0 <= i < n => LanPath(v, i));
    forall i, j | 0 <= i < j < n ensures chains[i] != chains[j] { NamesApart(i, j); }
    forall p | p in chains ensures p in found {
      var i :| 0 <= i < n && chains[i] == p;
      LanPathFound(n, g, v, Entries(g.nodes)[..k], i);
    }
    T.Pigeonhole(chains, found);
  }

  function LanPath(v: View, i: nat): (p: AttackPath)
    ensures p.nodes != [] && p.nodes[0] == EntryOf(LanName(i))
  {
    MakePath(v, ShellChain(LanName(i)), [Reaches, CanAct])
  }

  lemma LanPathFound(n: nat, g: Graph, v: View, entries: seq<string>, i: nat)
    requires BuiltFrom(Crowd(n), g) && T.ViewOf(v, g) && i < n && EntryOf(LanName(i)) in entries
    ensures LanPath(v, i) in ExploreAll(v, entries)
  {
    CrowdHas(n);
    CrowdChain(n, g, LanName(i), PrivateLanTier);
    FoundFrom(v, g, entries, ShellChain(LanName(i)), [Reaches, CanAct]);
  }

  lemma FoundFrom(v: View, g: Graph, entries: seq<string>, n: seq<string>, e: seq<EdgeKind>)
    requires T.ViewOf(v, g) && T.Chain(g, n, e) && |e| <= 6 && n[0] in entries
    ensures MakePath(v, n, e) in ExploreAll(v, entries)
  {
    T.ExploreComplete(v, g, [n[0]], [], n, e);
    T.ExploreAllMembers(v, entries, MakePath(v, n, e));
  }

  /** Nothing is shared in the crowd, so the entry decides the severity. */
  lemma CrowdSeverity(n: nat, g: Graph, name: string, tier: Tier, nodes: seq<string>, edges: seq<EdgeKind>)
    requires BuiltFrom(Crowd(n), g) && InCrowd(n, name, tier) && !tier.LoopbackTier?
    requires T.Walk(g, nodes, edges) && nodes[0] == EntryOf(name)
    ensures PathSeverity(nodes, edges, NodeById(g.nodes)) == if tier.PrivateLanTier? then High else Critical
  {
    Member(name, tier);
    CrowdEntry(n, g, name, tier);
    forall i | 0 <= i < |edges| ensures edges[i] != SharedWith {
      assert HasEdge(g.edges, nodes[i], Succ(edges[i], nodes[i + 1]));
      NothingShared(n, g, nodes[i], nodes[i + 1]);
    }
    EntryDecides(nodes, edges, NodeById(g.nodes));
  }

  lemma EntryDecides(nodes: seq<string>, edges: seq<EdgeKind>, nodeById: map<string, Node>)
    requires SharedWith !in edges && nodes != [] && nodes[0] in nodeById
    requires nodeById[nodes[0]].kind.Entry? && nodeById[nodes[0]].detail.EntryFacts?
    ensures var reach := nodeById[nodes[0]].detail.reach;
      && (reach.PrivateLan? ==> PathSeverity(nodes, edges, nodeById) == High)
      && (reach.WildcardOrPublic? ==> PathSeverity(nodes, edges, nodeById) == Critical)
  {
  }

  lemma NothingShared(n: nat, g: Graph, src: string, dst: string)
    requires BuiltFrom(Crowd(n), g)
    ensures !HasEdge(g.edges, src, Succ(SharedWith, dst))
  {
    assert !EdgeSpec(Crowd(n), src, SharedWith, dst);
  }

  /** The documented promise that "the worst-ranked ones" survive the caps fails once the ceiling is
      hit: 1000 servers on the local network and one open to every network, each with a dangerous
      auto-approved tool. The CRITICAL chain comes last in search order, and the grade is a D. */
  lemma CeilingHidesTheWorst(g: Graph, v: View)
    requires BuiltFrom(Crowd(1000), g) && T.ViewOf(v, g)
    ensures T.Chain(g, ShellChain(WIDE), [Reaches, CanAct])
    ensures PathSeverity(ShellChain(WIDE), [Reaches, CanAct], v.nodeById) == Critical
    ensures forall p :: p in T.Returned(v, g) ==> p.severity == High
    ensures T.OverallGrade(T.Returned(v, g)) == 'D' && T.Truncated(v, g)
  {
    var n := 1000;
    CrowdHas(n);
    CrowdChain(n, g, WIDE, WildcardTier);
    CrowdSeverity(n, g, WIDE, WildcardTier, ShellChain(WIDE), [Reaches, CanAct]);
    var k := WideIsLast(n, g);
    ManyFromLan(n, g, v, k);
    forall p | p in T.Returned(v, g) ensures p.severity == High {
      OnlyEarlierEntries(v, g, k, p);
      var i :| 0 <= i < n && p.nodes[0] == EntryOf(LanName(i));
      CrowdSeverity(n, g, LanName(i), PrivateLanTier, p.nodes, p.edges);
    }
    ManyReturned(v, g, k);
    assert T.Worst(T.Returned(v, g)) in T.Returned(v, g);
  }

  lemma ManyReturned(v: View, g: Graph, k: nat)
    requires k <= |Entries(g.nodes)| && |ExploreAll(v, Entries(g.nodes)[..k])| >= 1000
    ensures |T.Returned(v, g)| == 50 && T.Truncated(v, g)
  {
    ManyFound(v, Entries(g.nodes), k);
    T.BestAreTheWorst(Clip(T.AllFound(v, g)));
  }

  lemma ManyFound(v: View, entries: seq<string>, k: nat)
    requires k <= |entries|
    ensures |ExploreAll(v, entries)| >= |ExploreAll(v, entries[..k])|
  {
    ExploreAllConcat(v, entries[..k], entries[k..]);
    assert entries == entries[..k] + entries[k..];
  }

  /** The whole tool on that configuration. */
  method GradeTheCrowd() returns (g: Graph, paths: seq<AttackPath>, grade: char, truncated: bool)
    ensures BuiltFrom(Crowd(1000), g) && grade == 'D' && truncated
    ensures T.Chain(g, ShellChain(WIDE), [Reaches, CanAct]) && !T.Lists(paths, ShellChain(WIDE), [Reaches, CanAct])
  {
    g, paths, grade, truncated := B.BuildAndAnalyze(Crowd(1000));
    ghost var v :| T.Analyzed(v, g, paths, truncated);
    CeilingHidesTheWorst(g, v);
    if p :| p in paths && p.nodes == ShellChain(WIDE) && p.edges == [Reaches, CanAct] {
      MetIsFound(v, g, p);
      T.AllFoundSound(v, g, p);
      assert false;
    }
  }
}
