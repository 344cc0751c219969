/** The search against a declarative account of what an attacker chain is. */
module PathTheorems {
  import opened GraphModel
  import opened Orders
  import opened Paths

  predicate TargetId(g: Graph, id: string) {
    id in NodeById(g.nodes) && NodeById(g.nodes)[id].kind.Target?
  }

  ghost predicate Simple(n: seq<string>) {
    forall i, j :: 0 <= i < j < |n| ==> n[i] != n[j]
  }

  /** A walk along the graph's edges that repeats no node and never leaves a target. */
  ghost predicate Walk(g: Graph, n: seq<string>, e: seq<EdgeKind>) {
    && |n| == |e| + 1 && Simple(n)
    && (forall i :: 0 <= i < |e| ==> HasEdge(g.edges, n[i], Succ(e[i], n[i + 1])))
    && (forall i :: 0 <= i < |e| ==> !TargetId(g, n[i]))
  }

  /** A walk that ends on a target and crosses a shared credential or a privileged tool. */
  ghost predicate Strike(g: Graph, n: seq<string>, e: seq<EdgeKind>) {
    Walk(g, n, e) && |e| > 0 && TargetId(g, n[|e|]) && Crosses(e)
  }

  ghost predicate Crosses(e: seq<EdgeKind>) {
    exists i :: 0 <= i < |e| && (e[i] == SharedWith || e[i] == CanAct)
  }

  lemma CrossesIff(e: seq<EdgeKind>)
    ensures Crosses(e) <==> IsActionable(e)
  {
  }

  ghost predicate EntryId(g: Graph, id: string) {
    exists x :: x in g.nodes && x.kind.Entry? && x.id == id
  }

  /** An attacker chain, of any length: entry surface to first target, with a real pivot. */
  ghost predicate Chain(g: Graph, n: seq<string>, e: seq<EdgeKind>) {
    Strike(g, n, e) && EntryId(g, n[0])
  }

  ghost predicate ViewOf(v: View, g: Graph) { IsViewOf(v, g.nodes, g.edges) }

  lemma NextIsEdge(v: View, g: Graph, id: string, s: Succ)
    requires ViewOf(v, g)
    ensures s in v.Next(id) <==> HasEdge(g.edges, id, s)
  {
  }

  lemma NextOrdered(v: View, g: Graph, id: string)
    requires ViewOf(v, g)
    ensures StrictlyOrdered(v.Next(id), SuccKey)
  {
  }

  lemma WalkExtends(v: View, g: Graph, n: seq<string>, e: seq<EdgeKind>, s: Succ)
    requires ViewOf(v, g) && Walk(g, n, e) && !TargetId(g, n[|e|])
    requires s in v.Next(n[|e|]) && s.dst !in n
    ensures Walk(g, n + [s.dst], e + [s.kind])
  {
    var n', e' := n + [s.dst], e + [s.kind];
    NextIsEdge(v, g, n[|e|], s);
    forall i | 0 <= i < |e'| ensures HasEdge(g.edges, n'[i], Succ(e'[i], n'[i + 1])) && !TargetId(g, n'[i]) {
      assert n'[i] == n[i] && (i < |e| ==> n'[i + 1] == n[i + 1] && e'[i] == e[i]);
    }
  }

  // ---- soundness ---------------------------------------------------------------------------

  ghost predicate FoundBelow(v: View, g: Graph, n: seq<string>, e: seq<EdgeKind>, p: AttackPath) {
    && n <= p.nodes && e <= p.edges && |p.edges| <= 6
    && Strike(g, p.nodes, p.edges) && p == MakePath(v, p.nodes, p.edges)
  }

  lemma {:induction false} ExploreSound(v: View, g: Graph, n: seq<string>, e: seq<EdgeKind>, p: AttackPath)
    requires ViewOf(v, g) && Walk(g, n, e) && |e| <= MAX_HOPS
    requires p in Explore(v, n, e)
    ensures FoundBelow(v, g, n, e, p)
    decreases MAX_HOPS - |e|, 1, 0
  {
    if v.IsTarget(n[|e|]) {
      CrossesIff(e);
    } else {
      ExploreEachSound(v, g, n, e, v.Next(n[|e|]), p);
    }
  }

  lemma {:induction false} ExploreEachSound(v: View, g: Graph, n: seq<string>, e: seq<EdgeKind>, succs: seq<Succ>,
                                            p: AttackPath)
    requires ViewOf(v, g) && Walk(g, n, e) && |e| < MAX_HOPS && !TargetId(g, n[|e|])
    requires forall s :: s in succs ==> s in v.Next(n[|e|])
    requires p in ExploreEach(v, n, e, succs)
    ensures FoundBelow(v, g, n, e, p)
    ensures |e| < |p.edges| && Succ(p.edges[|e|], p.nodes[|n|]) in succs
    decreases MAX_HOPS - |e|, 0, |succs|
  {
    var s := succs[0];
    if p in ExploreOne(v, n, e, s) {
      WalkExtends(v, g, n, e, s);
      ExploreSound(v, g, n + [s.dst], e + [s.kind], p);
      assert p.nodes[|n|] == (n + [s.dst])[|n|] && p.edges[|e|] == (e + [s.kind])[|e|];
    } else {
      ExploreEachSound(v, g, n, e, succs[1..], p);
    }
  }

  // ---- completeness ------------------------------------------------------------------------

  lemma {:induction false} ExploreComplete(v: View, g: Graph, n: seq<string>, e: seq<EdgeKind>, n': seq<string>,
                                           e': seq<EdgeKind>)
    requires ViewOf(v, g) && Walk(g, n, e) && Strike(g, n', e')
    requires n <= n' && e <= e' && |e'| <= MAX_HOPS
    ensures MakePath(v, n', e') in Explore(v, n, e)
    decreases MAX_HOPS - |e|
  {
    if |e| == |e'| {
      assert n == n' && e == e';
      CrossesIff(e);
    } else {
      var s := OneHopOn(v, g, n, e, n', e');
      ExploreComplete(v, g, n + [s.dst], e + [s.kind], n', e');
      ExploreEachHas(v, n, e, v.Next(n[|e|]), s, MakePath(v, n', e'));
    }
  }

  /** The next hop of a longer walk. */
  lemma OneHopOn(v: View, g: Graph, n: seq<string>, e: seq<EdgeKind>, n': seq<string>, e': seq<EdgeKind>)
    returns (s: Succ)
    requires ViewOf(v, g) && Walk(g, n, e) && Walk(g, n', e') && n <= n' && e <= e' && |e| < |e'|
    ensures s in v.Next(n[|e|]) && s.dst !in n && !TargetId(g, n[|e|]) && Walk(g, n + [s.dst], e + [s.kind])
    ensures n + [s.dst] <= n' && e + [s.kind] <= e'
  {
    assert n[|e|] == n'[|e|];
    s := Succ(e'[|e|], n'[|n|]);
    NextIsEdge(v, g, n[|e|], s);
    forall i | 0 <= i < |n| ensures n[i] != s.dst { assert n[i] == n'[i]; }
    WalkExtends(v, g, n, e, s);
  }

  lemma {:induction false} ExploreEachHas(v: View, n: seq<string>, e: seq<EdgeKind>, succs: seq<Succ>, s: Succ,
                                          p: AttackPath)
    requires |n| == |e| + 1 && |e| < MAX_HOPS
    requires s in succs && p in ExploreOne(v, n, e, s)
    ensures p in ExploreEach(v, n, e, succs)
  {
    if s != succs[0] {
      ExploreEachHas(v, n, e, succs[1..], s, p);
    }
  }

  // ---- each chain once ---------------------------------------------------------------------

  ghost predicate NoDuplicates(s: seq<AttackPath>) {
    forall i, j :: 0 <= i < j < |s| ==> s[i] != s[j]
  }

  lemma NoDuplicatesConcat(a: seq<AttackPath>, b: seq<AttackPath>)
    requires NoDuplicates(a) && NoDuplicates(b) && forall p :: p in a ==> p !in b
    ensures NoDuplicates(a + b)
  {
    forall i, j | 0 <= i < j < |a + b| ensures (a + b)[i] != (a + b)[j] {
      if i < |a| <= j {
        assert a[i] in a && b[j - |a|] in b;
      }
    }
  }

  lemma {:induction false} ExploreOnce(v: View, g: Graph, n: seq<string>, e: seq<EdgeKind>)
    requires ViewOf(v, g) && Walk(g, n, e) && |e| <= MAX_HOPS
    ensures NoDuplicates(Explore(v, n, e))
    decreases MAX_HOPS - |e|, 1, 0
  {
    if v.IsTarget(n[|e|]) || |e| == MAX_HOPS {
      ExploreLeaf(v, n, e);
    } else {
      NextOrdered(v, g, n[|e|]);
      ExploreEachOnce(v, g, n, e, v.Next(n[|e|]));
      ExploreInner(v, n, e);
    }
  }

  lemma ExploreLeaf(v: View, n: seq<string>, e: seq<EdgeKind>)
    requires |n| == |e| + 1 && |e| <= MAX_HOPS && (v.IsTarget(n[|e|]) || |e| == MAX_HOPS)
    ensures |Explore(v, n, e)| <= 1
  {
  }

  lemma ExploreInner(v: View, n: seq<string>, e: seq<EdgeKind>)
    requires |n| == |e| + 1 && |e| < MAX_HOPS && !v.IsTarget(n[|e|])
    ensures Explore(v, n, e) == ExploreEach(v, n, e, v.Next(n[|e|]))
  {
  }

  lemma {:induction false} ExploreEachOnce(v: View, g: Graph, n: seq<string>, e: seq<EdgeKind>, succs: seq<Succ>)
    requires ViewOf(v, g) && Walk(g, n, e) && |e| < MAX_HOPS && !TargetId(g, n[|e|])
    requires forall s :: s in succs ==> s in v.Next(n[|e|])
    requires StrictlyOrdered(succs, SuccKey)
    ensures NoDuplicates(ExploreEach(v, n, e, succs))
    decreases MAX_HOPS - |e|, 0, |succs|
  {
    if succs != [] {
      var s, rest := succs[0], succs[1..];
      ExploreEachOnce(v, g, n, e, rest);
      if s.dst !in n {
        WalkExtends(v, g, n, e, s);
        ExploreOnce(v, g, n + [s.dst], e + [s.kind]);
        forall p | p in ExploreOne(v, n, e, s) ensures p !in ExploreEach(v, n, e, rest) {
          BranchesApart(v, g, n, e, succs, p);
        }
      }
      NoDuplicatesConcat(ExploreOne(v, n, e, s), ExploreEach(v, n, e, rest));
    }
  }

  lemma BranchesApart(v: View, g: Graph, n: seq<string>, e: seq<EdgeKind>, succs: seq<Succ>, p: AttackPath)
    requires ViewOf(v, g) && Walk(g, n, e) && |e| < MAX_HOPS && !TargetId(g, n[|e|])
    requires forall s :: s in succs ==> s in v.Next(n[|e|])
    requires StrictlyOrdered(succs, SuccKey)
    requires succs != [] && p in ExploreOne(v, n, e, succs[0])
    ensures p !in ExploreEach(v, n, e, succs[1..])
  {
    var s, rest := succs[0], succs[1..];
    forall i | 0 <= i < |rest| ensures rest[i] != s { assert KeyLt(SuccKey(succs[0]), SuccKey(succs[i + 1])); }
    WalkExtends(v, g, n, e, s);
    ExploreSound(v, g, n + [s.dst], e + [s.kind], p);
    assert p.nodes[|n|] == (n + [s.dst])[|n|] && p.edges[|e|] == (e + [s.kind])[|e|];
    if p in ExploreEach(v, n, e, rest) {
      ExploreEachSound(v, g, n, e, rest, p);
      assert false;
    }
  }

  // ---- the hop cap -------------------------------------------------------------------------

  /** Some simple walk below (n, e) has one hop more than the cap. */
  ghost predicate LongWalkBelow(g: Graph, n: seq<string>, e: seq<EdgeKind>) {
    exists n', e' :: n <= n' && e <= e' && |e'| == 7 && Walk(g, n', e')
  }

  lemma {:induction false} CappedSound(v: View, g: Graph, n: seq<string>, e: seq<EdgeKind>)
    requires ViewOf(v, g) && Walk(g, n, e) && |e| <= MAX_HOPS
    requires Capped(v, n, e)
    ensures LongWalkBelow(g, n, e)
    decreases MAX_HOPS - |e|, 1, 0
  {
    if |e| == MAX_HOPS {
      var s :| s in v.Next(n[|e|]) && s.dst !in n;
      OneHopTooMany(v, g, n, e, s);
    } else {
      CappedEachSound(v, g, n, e, v.Next(n[|e|]));
    }
  }

  lemma OneHopTooMany(v: View, g: Graph, n: seq<string>, e: seq<EdgeKind>, s: Succ)
    requires ViewOf(v, g) && Walk(g, n, e) && |e| == 6 && !TargetId(g, n[|e|])
    requires s in v.Next(n[|e|]) && s.dst !in n
    ensures LongWalkBelow(g, n, e)
  {
    WalkExtends(v, g, n, e, s);
    assert n <= n + [s.dst] && e <= e + [s.kind];
  }

  lemma {:induction false} CappedEachSound(v: View, g: Graph, n: seq<string>, e: seq<EdgeKind>, succs: seq<Succ>)
    requires ViewOf(v, g) && Walk(g, n, e) && |e| < MAX_HOPS && !TargetId(g, n[|e|])
    requires forall s :: s in succs ==> s in v.Next(n[|e|])
    requires CappedEach(v, n, e, succs)
    ensures LongWalkBelow(g, n, e)
    decreases MAX_HOPS - |e|, 0, |succs|
  {
    var s := succs[0];
    if CappedOne(v, n, e, s) {
      WalkExtends(v, g, n, e, s);
      CappedSound(v, g, n + [s.dst], e + [s.kind]);
      LongWalkAbove(g, n, e, s);
    } else {
      CappedEachSound(v, g, n, e, succs[1..]);
    }
  }

  lemma LongWalkAbove(g: Graph, n: seq<string>, e: seq<EdgeKind>, s: Succ)
    requires LongWalkBelow(g, n + [s.dst], e + [s.kind])
    ensures LongWalkBelow(g, n, e)
  {
    var n', e' :| n + [s.dst] <= n' && e + [s.kind] <= e' && |e'| == 7 && Walk(g, n', e');
    assert n <= n' && e <= e';
  }

  lemma {:induction false} CappedComplete(v: View, g: Graph, n: seq<string>, e: seq<EdgeKind>, n': seq<string>,
                                          e': seq<EdgeKind>)
    requires ViewOf(v, g) && Walk(g, n, e) && Walk(g, n', e')
    requires n <= n' && e <= e' && |e| <= MAX_HOPS < |e'|
    ensures Capped(v, n, e)
    decreases MAX_HOPS - |e|
  {
    var s := OneHopOn(v, g, n, e, n', e');
    if |e| < MAX_HOPS {
      CappedComplete(v, g, n + [s.dst], e + [s.kind], n', e');
      CappedEachHas(v, n, e, v.Next(n[|e|]), s);
    }
  }

  lemma {:induction false} CappedEachHas(v: View, n: seq<string>, e: seq<EdgeKind>, succs: seq<Succ>, s: Succ)
    requires |n| == |e| + 1 && |e| < MAX_HOPS
    requires s in succs && CappedOne(v, n, e, s)
    ensures CappedEach(v, n, e, succs)
  {
    if s != succs[0] {
      CappedEachHas(v, n, e, succs[1..], s);
    }
  }

  // ---- the whole search ---------------------------------------------------------------------

  function AllFound(v: View, g: Graph): seq<AttackPath> {
    ExploreAll(v, Entries(g.nodes))
  }

  /** The chains that `_enumerate` returns and the flag it raises (see Paths.Enumerate). */
  function Returned(v: View, g: Graph): seq<AttackPath> {
    Best(SortBy(Clip(AllFound(v, g)), RankKey))
  }

  predicate Truncated(v: View, g: Graph) {
    CappedAny(v, Entries(g.nodes)) || |AllFound(v, g)| > MAX_PATHS
  }

  ghost predicate UniqueIds(nodes: seq<Node>) {
    forall i, j :: 0 <= i < j < |nodes| ==> nodes[i].id != nodes[j].id
  }

  lemma EntriesAre(g: Graph, id: string)
    ensures id in Entries(g.nodes) <==> EntryId(g, id)
  {
    MultisetMembers(Entries(g.nodes), EntryIds(g.nodes));
    EntryIdsAre(g.nodes, id);
  }

  lemma {:induction false} ExploreAllMembers(v: View, entries: seq<string>, p: AttackPath)
    ensures p in ExploreAll(v, entries) <==> exists i :: 0 <= i < |entries| && p in Explore(v, [entries[i]], [])
  {
    if entries != [] {
      ExploreAllMembers(v, entries[1..], p);
      if i :| 0 <= i < |entries| && p in Explore(v, [entries[i]], []) {
        if i > 0 { assert entries[1..][i - 1] == entries[i]; }
      }
      if p in ExploreAll(v, entries[1..]) {
        var i :| 0 <= i < |entries[1..]| && p in Explore(v, [entries[1..][i]], []);
        assert entries[i + 1] == entries[1..][i];
      }
    }
  }

  /** Soundness: everything recorded is a real chain of at most six hops, graded as such. */
  lemma AllFoundSound(v: View, g: Graph, p: AttackPath)
    requires ViewOf(v, g) && p in AllFound(v, g)
    ensures Chain(g, p.nodes, p.edges) && |p.edges| <= 6 && p == MakePath(v, p.nodes, p.edges)
  {
    var entries := Entries(g.nodes);
    ExploreAllMembers(v, entries, p);
    var i :| 0 <= i < |entries| && p in Explore(v, [entries[i]], []);
    EntriesAre(g, entries[i]);
    ExploreSound(v, g, [entries[i]], [], p);
    assert p.nodes[0] == [entries[i]][0];
  }

  /** Completeness: every chain of at most six hops is recorded. */
  lemma AllFoundComplete(v: View, g: Graph, n: seq<string>, e: seq<EdgeKind>)
    requires ViewOf(v, g) && Chain(g, n, e) && |e| <= 6
    ensures MakePath(v, n, e) in AllFound(v, g)
  {
    var entries := Entries(g.nodes);
    EntriesAre(g, n[0]);
    ExploreComplete(v, g, [n[0]], [], n, e);
    ExploreAllMembers(v, entries, MakePath(v, n, e));
  }

  lemma {:induction false} ExploreAllOnce(v: View, g: Graph, entries: seq<string>)
    requires ViewOf(v, g)
    requires forall i, j :: 0 <= i < j < |entries| ==> entries[i] != entries[j]
    ensures NoDuplicates(ExploreAll(v, entries))
  {
    if entries != [] {
      ExploreAllOnce(v, g, entries[1..]);
      ExploreOnce(v, g, [entries[0]], []);
      forall p | p in Explore(v, [entries[0]], []) ensures p !in ExploreAll(v, entries[1..]) {
        ExploreSound(v, g, [entries[0]], [], p);
        ExploreAllMembers(v, entries[1..], p);
        forall i | 0 <= i < |entries[1..]| ensures p !in Explore(v, [entries[1..][i]], []) {
          assert entries[1..][i] == entries[i + 1] != entries[0];
          assert p.nodes[0] == [entries[0]][0];
          if p in Explore(v, [entries[1..][i]], []) {
            ExploreSound(v, g, [entries[1..][i]], [], p);
            assert false;
          }
        }
      }
      NoDuplicatesConcat(Explore(v, [entries[0]], []), ExploreAll(v, entries[1..]));
    }
  }

  lemma {:induction false} EntryIdsUnique(nodes: seq<Node>)
    requires UniqueIds(nodes)
    ensures DistinctKeys(EntryIds(nodes), IdKey)
  {
    if nodes != [] {
      var rest := EntryIds(nodes[1..]);
      EntryIdsUnique(nodes[1..]);
      forall j | 0 <= j < |rest| ensures IdKey(nodes[0].id) != IdKey(rest[j]) {
        EntryIdsAre(nodes[1..], rest[j]);
        var x :| x in nodes[1..] && x.kind.Entry? && x.id == rest[j];
        var k :| 0 <= k < |nodes[1..]| && nodes[1..][k] == x;
        assert nodes[k + 1] == x;
        if IdKey(nodes[0].id) == IdKey(rest[j]) {
          assert IdKey(nodes[0].id)[0] == IdKey(rest[j])[0];
          CodesInjective(nodes[0].id, rest[j]);
          assert false;
        }
      }
    }
  }

  lemma AllFoundOnce(v: View, g: Graph)
    requires ViewOf(v, g) && UniqueIds(g.nodes)
    ensures NoDuplicates(AllFound(v, g))
  {
    EntryIdsUnique(g.nodes);
    SortByDistinct(EntryIds(g.nodes), IdKey);
    ExploreAllOnce(v, g, Entries(g.nodes));
  }

  /** Some simple walk from an entry has more hops than the cap, with no target on the way. */
  ghost predicate LongWalk(g: Graph) {
    exists n, e :: Walk(g, n, e) && |e| == 7 && EntryId(g, n[0])
  }

  lemma {:induction false} CappedAnyMembers(v: View, entries: seq<string>)
    ensures CappedAny(v, entries) <==> exists i :: 0 <= i < |entries| && Capped(v, [entries[i]], [])
  {
    if entries != [] {
      CappedAnyMembers(v, entries[1..]);
      if i :| 0 <= i < |entries| && Capped(v, [entries[i]], []) {
        if i > 0 { assert entries[1..][i - 1] == entries[i]; }
      }
      if CappedAny(v, entries[1..]) {
        var i :| 0 <= i < |entries[1..]| && Capped(v, [entries[1..][i]], []);
        assert entries[i + 1] == entries[1..][i];
      }
    }
  }

  /** The depth flag is raised exactly when a simple walk of seven hops exists. */
  lemma DepthCapIff(v: View, g: Graph)
    requires ViewOf(v, g)
    ensures CappedAny(v, Entries(g.nodes)) <==> LongWalk(g)
  {
    var entries := Entries(g.nodes);
    CappedAnyMembers(v, entries);
    if i :| 0 <= i < |entries| && Capped(v, [entries[i]], []) {
      EntriesAre(g, entries[i]);
      CappedSound(v, g, [entries[i]], []);
      var n, e :| [entries[i]] <= n && |e| == 7 && Walk(g, n, e);
      assert n[0] == [entries[i]][0];
    }
    if n, e :| Walk(g, n, e) && |e| == 7 && EntryId(g, n[0]) {
      EntriesAre(g, n[0]);
      CappedComplete(v, g, [n[0]], [], n, e);
    }
  }

  /** A chain beyond the hop cap leaves its first seven hops as evidence. */
  lemma LongChainIsLongWalk(g: Graph, n: seq<string>, e: seq<EdgeKind>)
    requires Chain(g, n, e) && |e| > 6
    ensures LongWalk(g)
  {
    var n', e' := n[..8], e[..7];
    assert Walk(g, n', e') && n'[0] == n[0];
  }

  lemma ReturnedMembers(v: View, g: Graph, p: AttackPath)
    ensures p in Returned(v, g) ==> p in AllFound(v, g)
    ensures |AllFound(v, g)| <= MAX_PATHS && p in AllFound(v, g) ==> p in Returned(v, g)
  {
    var all, ranked := AllFound(v, g), SortBy(Clip(AllFound(v, g)), RankKey);
    MultisetMembers(ranked, Clip(all));
    assert p in Returned(v, g) ==> p in ranked;
    assert p in Clip(all) ==> p in all;
  }

  lemma {:induction false} SortByNoDuplicates(s: seq<AttackPath>, t: seq<AttackPath>)
    requires NoDuplicates(s) && multiset(s) == multiset(t)
    ensures NoDuplicates(t)
  {
    forall i, j | 0 <= i < j < |t| ensures t[i] != t[j] {
      if t[i] == t[j] {
        assert t == t[..i] + [t[i]] + t[i + 1..j] + [t[j]] + t[j + 1..];
        assert multiset(t)[t[i]] >= 2;
        OncePerElement(s, t[i]);
        assert false;
      }
    }
  }

  lemma {:induction false} OncePerElement(s: seq<AttackPath>, x: AttackPath)
    requires NoDuplicates(s)
    ensures multiset(s)[x] <= 1
  {
    if s != [] {
      assert s == [s[0]] + s[1..];
      OncePerElement(s[1..], x);
      if x == s[0] {
        forall i | 0 <= i < |s[1..]| ensures s[1..][i] != x { assert s[i + 1] != s[0]; }
        assert x !in s[1..];
        assert multiset(s[1..])[x] == 0;
      }
    }
  }

  /** The headline claim. When the truncation flag is down, what is returned is exactly the set
      of all attacker chains of any length, each (nodes, edge kinds) pair once. */
  lemma UntruncatedIsExact(v: View, g: Graph)
    requires ViewOf(v, g) && UniqueIds(g.nodes) && !Truncated(v, g)
    ensures forall n, e | |n| == |e| + 1 :: Chain(g, n, e) <==> MakePath(v, n, e) in Returned(v, g)
    ensures forall p :: p in Returned(v, g) ==> Chain(g, p.nodes, p.edges) && p == MakePath(v, p.nodes, p.edges)
    ensures NoDuplicates(Returned(v, g))
  {
    DepthCapIff(v, g);
    forall n, e | Chain(g, n, e) ensures MakePath(v, n, e) in Returned(v, g) {
      if |e| > MAX_HOPS {
        LongChainIsLongWalk(g, n, e);
        assert false;
      }
      AllFoundComplete(v, g, n, e);
      ReturnedMembers(v, g, MakePath(v, n, e));
    }
    forall p | p in Returned(v, g) ensures Chain(g, p.nodes, p.edges) && p == MakePath(v, p.nodes, p.edges) {
      ReturnedMembers(v, g, p);
      AllFoundSound(v, g, p);
    }
    AllFoundOnce(v, g);
    SortByNoDuplicates(AllFound(v, g), Returned(v, g));
  }

  ghost predicate Covers(v: View, g: Graph, cover: seq<AttackPath>) {
    forall n, e :: Chain(g, n, e) && |e| <= 6 ==> MakePath(v, n, e) in cover
  }

  /** The flag is up exactly when a walk outruns the hop cap or more than 50 chains exist: no
      list of 50 entries covers the chains within the cap. */
  lemma TruncatedIff(v: View, g: Graph)
    requires ViewOf(v, g) && UniqueIds(g.nodes)
    ensures !Truncated(v, g) <==>
      !LongWalk(g) && exists cover :: |cover| <= 50 && Covers(v, g, cover)
  {
    DepthCapIff(v, g);
    var all := AllFound(v, g);
    forall n, e | Chain(g, n, e) && |e| <= 6 ensures MakePath(v, n, e) in all {
      AllFoundComplete(v, g, n, e);
    }
    assert Covers(v, g, all);
    if cover :| |cover| <= 50 && Covers(v, g, cover) {
      forall p | p in all ensures p in cover { AllFoundSound(v, g, p); }
      AllFoundOnce(v, g);
      Pigeonhole(all, cover);
    }
  }

  lemma Pigeonhole(s: seq<AttackPath>, cover: seq<AttackPath>)
    requires NoDuplicates(s) && forall p :: p in s ==> p in cover
    ensures |s| <= |cover|
  {
    forall p ensures multiset(s)[p] <= multiset(cover)[p] {
      OncePerElement(s, p);
      if p in s { assert p in multiset(cover); }
      assert p in s <==> p in multiset(s);
    }
    assert multiset(s) <= multiset(cover);
    assert multiset(cover) == multiset(s) + (multiset(cover) - multiset(s));
    assert |multiset(s)| == |s| && |multiset(cover)| == |cover|;
  }

  /** `all` splits into `top` and `left`, and nothing in `left` ranks before anything in `top`. */
  ghost predicate BestOf(top: seq<AttackPath>, left: seq<AttackPath>, all: seq<AttackPath>) {
    && multiset(top) + multiset(left) == multiset(all)
    && forall p, q :: p in top && q in left ==> KeyLe(RankKey(p), RankKey(q))
  }

  /** Ranking and capping keeps the worst of some chains: in rank order, as many as fit, and none
      ranked behind a chain that was left out. */
  lemma BestAreTheWorst(found: seq<AttackPath>)
    ensures var top := Best(SortBy(found, RankKey));
      && Ordered(top, RankKey) && |top| == (if |found| <= 50 then |found| else 50)
      && exists left :: BestOf(top, left, found)
  {
    SortByOrdered(found, RankKey);
    var ranked := SortBy(found, RankKey);
    var top := Best(ranked);
    OrderedSplits(ranked, |top|);
    assert BestOf(top, ranked[|top|..], found);
  }

  /** Whatever the other caps did, unless the ceiling was hit the returned chains are the worst. */
  lemma ReturnedAreTheWorst(v: View, g: Graph)
    requires ViewOf(v, g) && |AllFound(v, g)| <= 1000
    ensures Ordered(Returned(v, g), RankKey)
    ensures |Returned(v, g)| == if |AllFound(v, g)| <= 50 then |AllFound(v, g)| else 50
    ensures exists left :: BestOf(Returned(v, g), left, AllFound(v, g))
  {
    BestAreTheWorst(AllFound(v, g));
  }

  lemma OrderedSplits(ranked: seq<AttackPath>, k: nat)
    requires Ordered(ranked, RankKey) && k <= |ranked|
    ensures Ordered(ranked[..k], RankKey) && BestOf(ranked[..k], ranked[k..], ranked)
  {
    assert ranked == ranked[..k] + ranked[k..];
    forall p, q | p in ranked[..k] && q in ranked[k..] ensures KeyLe(RankKey(p), RankKey(q)) {
      var i :| 0 <= i < k && ranked[i] == p;
      var j :| 0 <= j < |ranked| - k && ranked[k..][j] == q;
      assert ranked[k + j] == q;
    }
  }

  // ---- the grade ----------------------------------------------------------------------------

  function SeverityGrade(s: Severity): char {
    match s
    case Critical => 'F'
    case High => 'D'
    case Medium => 'C'
    case Low => 'B'
    case Info => 'A'
  }

  /** Python's `max(paths, key=weight)`: the first of the heaviest. */
  function Worst(paths: seq<AttackPath>): (p: AttackPath)
    requires paths != []
    ensures p in paths && forall q :: q in paths ==> q.severity.Weight() <= p.severity.Weight()
  {
    if |paths| == 1 then paths[0]
    else
      var w := Worst(paths[1..]);
      assert paths == [paths[0]] + paths[1..];
      if paths[0].severity.Weight() >= w.severity.Weight() then paths[0] else w
  }

  function OverallGrade(paths: seq<AttackPath>): char {
    if paths == [] then 'A' else SeverityGrade(Worst(paths).severity)
  }

  lemma RankPutsWorstFirst(p: AttackPath, q: AttackPath)
    requires KeyLe(RankKey(p), RankKey(q))
    ensures p.severity.Weight() >= q.severity.Weight()
  {
  }

  /** An attacker chain within the hop cap. */
  ghost predicate ShortChain(g: Graph, n: seq<string>, e: seq<EdgeKind>) {
    Chain(g, n, e) && |e| <= 6
  }

  /** Unless the ceiling was hit, the grade is that of the worst chain within the hop cap, even
      when the hop cap or the count cap has raised the flag; without such a chain it is an A. */
  lemma GradeIsWorstChain(v: View, g: Graph)
    requires ViewOf(v, g) && |AllFound(v, g)| <= 1000
    ensures OverallGrade(Returned(v, g)) == 'A' <==> !exists n, e :: ShortChain(g, n, e)
    ensures OverallGrade(Returned(v, g)) != 'A' ==>
      exists n, e :: ShortChain(g, n, e)
        && SeverityGrade(PathSeverity(n, e, v.nodeById)) == OverallGrade(Returned(v, g))
        && forall n', e' :: ShortChain(g, n', e') ==>
             PathSeverity(n', e', v.nodeById).Weight() <= PathSeverity(n, e, v.nodeById).Weight()
  {
    var top := Returned(v, g);
    forall n, e | ShortChain(g, n, e)
      ensures top != [] && PathSeverity(n, e, v.nodeById).Weight() <= Worst(top).severity.Weight() {
      ChainNoWorse(v, g, n, e);
    }
    if top != [] {
      ReturnedIsChain(v, g, Worst(top));
    }
  }

  lemma ReturnedIsChain(v: View, g: Graph, p: AttackPath)
    requires ViewOf(v, g) && p in Returned(v, g)
    ensures ShortChain(g, p.nodes, p.edges) && p.severity == PathSeverity(p.nodes, p.edges, v.nodeById)
    ensures p.severity != Info && p.severity != Low
  {
    ReturnedMembers(v, g, p);
    AllFoundSound(v, g, p);
  }

  /** No chain within the hop cap is worse than the worst one returned. */
  lemma ChainNoWorse(v: View, g: Graph, n: seq<string>, e: seq<EdgeKind>)
    requires ViewOf(v, g) && |AllFound(v, g)| <= 1000 && ShortChain(g, n, e)
    ensures Returned(v, g) != [] && PathSeverity(n, e, v.nodeById).Weight() <= Worst(Returned(v, g)).severity.Weight()
  {
    AllFoundComplete(v, g, n, e);
    WorstOfAll(v, g, MakePath(v, n, e));
  }

  lemma WorstOfAll(v: View, g: Graph, q: AttackPath)
    requires ViewOf(v, g) && |AllFound(v, g)| <= 1000 && q in AllFound(v, g)
    ensures Returned(v, g) != [] && q.severity.Weight() <= Worst(Returned(v, g)).severity.Weight()
  {
    WorstOfBest(AllFound(v, g), q);
  }

  lemma WorstOfBest(found: seq<AttackPath>, q: AttackPath)
    requires q in found
    ensures var top := Best(SortBy(found, RankKey));
      top != [] && q.severity.Weight() <= Worst(top).severity.Weight()
  {
    BestAreTheWorst(found);
    var top := Best(SortBy(found, RankKey));
    var left :| BestOf(top, left, found);
    assert q in multiset(found);
    if q !in top {
      assert q in multiset(left);
      RankPutsWorstFirst(top[0], q);
    }
  }

  ghost predicate Shows(paths: seq<AttackPath>, s: Severity) {
    exists p :: p in paths && p.severity == s
  }

  /** The grade names the worst severity among the chains; without any chain it is an A. */
  lemma OverallGradeIs(paths: seq<AttackPath>)
    ensures OverallGrade(paths) == 'F' <==> Shows(paths, Critical)
    ensures OverallGrade(paths) == 'D' <==> !Shows(paths, Critical) && Shows(paths, High)
    ensures OverallGrade(paths) == 'C' <==> !Shows(paths, Critical) && !Shows(paths, High) && Shows(paths, Medium)
    ensures OverallGrade(paths) == 'A' <==> forall p :: p in paths ==> p.severity == Info
    ensures OverallGrade(paths) in {'A', 'B', 'C', 'D', 'F'}
  {
    if paths != [] {
      var w := Worst(paths);
      assert forall q :: q in paths ==> q.severity.Weight() <= w.severity.Weight();
    }
  }

  /** A chain whose entry can be reached from anywhere, or that crosses a shared credential. */
  ghost predicate Dire(g: Graph, n: seq<string>, e: seq<EdgeKind>) {
    || SharedWith in e
    || exists x :: x in g.nodes && [x.id] <= n && x.detail.EntryFacts?
                   && x.detail.reach in {PublicRoutable, Wildcard, WildcardOrPublic}
  }

  /** Severity in terms of the chain's entry node: CRITICAL when the chain crosses a shared
      credential or starts at a public surface, HIGH at a surface of the local network, MEDIUM at
      any other. */
  lemma ChainSeverityIff(v: View, g: Graph, n: seq<string>, e: seq<EdgeKind>, x: Node)
    requires ViewOf(v, g) && UniqueIds(g.nodes) && Chain(g, n, e) && x in g.nodes && x.id == n[0]
    ensures PathSeverity(n, e, v.nodeById) == Critical <==> Dire(g, n, e)
    ensures PathSeverity(n, e, v.nodeById) == High <==>
      SharedWith !in e && x.detail.EntryFacts? && x.detail.reach == PrivateLan
    ensures PathSeverity(n, e, v.nodeById) == Medium <==>
      SharedWith !in e && (x.detail.EntryFacts? ==> x.detail.reach == NotStated)
  {
    var y :| y in g.nodes && y.kind.Entry? && y.id == n[0];
    NodeByIdKeys(g.nodes);
    SameNode(g.nodes, x, y);
    SameNode(g.nodes, x, v.nodeById[n[0]]);
    forall z | z in g.nodes && [z.id] <= n ensures z == x { SameNode(g.nodes, x, z); }
  }

  lemma SameNode(nodes: seq<Node>, x: Node, y: Node)
    requires UniqueIds(nodes) && x in nodes && y in nodes && x.id == y.id
    ensures x == y
  {
    var i :| 0 <= i < |nodes| && nodes[i] == x;
    var j :| 0 <= j < |nodes| && nodes[j] == y;
  }

  /** Below the ceiling a graph fails exactly when some chain within the hop cap crosses a shared
      credential or starts at a public surface. */
  lemma FailsIff(v: View, g: Graph)
    requires ViewOf(v, g) && UniqueIds(g.nodes) && |AllFound(v, g)| <= 1000
    ensures OverallGrade(Returned(v, g)) == 'F' <==> exists n, e :: ShortChain(g, n, e) && Dire(g, n, e)
  {
    var top := Returned(v, g);
    OverallGradeIs(top);
    if p :| p in top && p.severity == Critical {
      ReturnedIsChain(v, g, p);
      CriticalIsDire(v, g, p.nodes, p.edges);
    }
    if n, e :| ShortChain(g, n, e) && Dire(g, n, e) {
      CriticalIsDire(v, g, n, e);
      ChainNoWorse(v, g, n, e);
    }
  }

  lemma CriticalIsDire(v: View, g: Graph, n: seq<string>, e: seq<EdgeKind>)
    requires ViewOf(v, g) && UniqueIds(g.nodes) && Chain(g, n, e)
    ensures PathSeverity(n, e, v.nodeById) == Critical <==> Dire(g, n, e)
  {
    var x :| x in g.nodes && x.kind.Entry? && x.id == n[0];
    ChainSeverityIff(v, g, n, e, x);
  }

  // ---- what an explanation says -------------------------------------------------------------

  /** The server that acts at the end of a chain carries a factor. */
  ghost predicate ActsWith(n: seq<string>, e: seq<EdgeKind>, nodes: map<string, Node>, f: TrustFactor) {
    && |n| == |e| + 1 > 1 && e[|e| - 1] == CanAct && n[|e| - 1] in nodes
    && nodes[n[|e| - 1]].detail.ServerFacts? && f in nodes[n[|e| - 1]].detail.factors
  }

  /** Which sentences explain a chain, and that the shared credential comes first. */
  lemma ReasonsIff(n: seq<string>, e: seq<EdgeKind>, nodes: map<string, Node>)
    requires |n| == |e| + 1
    ensures SharedPivot in Reasons(n, e, nodes) <==> SharedWith in e
    ensures ActsUnattended in Reasons(n, e, nodes) <==> ActsWith(n, e, nodes, Autonomy)
    ensures ActsBehindApproval in Reasons(n, e, nodes) <==>
      ActsWith(n, e, nodes, ToolPrivilege) && !ActsWith(n, e, nodes, Autonomy)
    ensures PrivilegedToolOnly in Reasons(n, e, nodes) <==>
      SharedWith !in e && !ActsWith(n, e, nodes, Autonomy) && !ActsWith(n, e, nodes, ToolPrivilege)
    ensures 1 <= |Reasons(n, e, nodes)| <= 2 && (SharedWith in e ==> Reasons(n, e, nodes)[0] == SharedPivot)
  {
  }

  // ---- the orders ---------------------------------------------------------------------------

  /** Worst first, then fewest nodes, then by the node identifiers. */
  lemma RankOrder(p: AttackPath, q: AttackPath)
    ensures KeyLe(RankKey(p), RankKey(q)) <==>
      if p.severity != q.severity then MoreSevere(p.severity, q.severity)
      else if |p.nodes| != |q.nodes| then |p.nodes| < |q.nodes|
      else p.nodes == q.nodes
           || exists k :: FirstDifference(p.nodes, q.nodes, k) && StringLe(p.nodes[k], q.nodes[k])
  {
    var w: int, w': int := p.severity.Weight(), q.severity.Weight();
    assert RankKey(p) == [Number(-w), Number(|p.nodes|)] + IdsKey(p.nodes);
    assert RankKey(q) == [Number(-w'), Number(|q.nodes|)] + IdsKey(q.nodes);
    TwoFirst(Number(-w), Number(|p.nodes|), IdsKey(p.nodes), Number(-w'), Number(|q.nodes|), IdsKey(q.nodes));
    if |p.nodes| == |q.nodes| { IdsOrder(p.nodes, q.nodes); }
    NumberOrder(w, w');
    NumberOrder(|p.nodes|, |q.nodes|);
    WeightOrder(p.severity, q.severity);
  }

  lemma TwoFirst(x: seq<int>, y: seq<int>, r: SortKey, x': seq<int>, y': seq<int>, r': SortKey)
    ensures KeyLe([x, y] + r, [x', y'] + r') <==>
      if x != x' then IntsLe(x, x') else if y != y' then IntsLe(y, y') else KeyLe(r, r')
  {
    assert ([x, y] + r)[1..] == [y] + r && ([x', y'] + r')[1..] == [y'] + r';
    assert ([y] + r)[1..] == r && ([y'] + r')[1..] == r';
  }

  lemma WeightOrder(s: Severity, t: Severity)
    ensures s.Weight() == t.Weight() <==> s == t
    ensures s.Weight() > t.Weight() <==> MoreSevere(s, t)
  {
  }

  lemma NumberOrder(m: int, n: int)
    ensures (IntsLe(Number(-m), Number(-n)) <==> m >= n) && (Number(-m) == Number(-n) <==> m == n)
    ensures (IntsLe(Number(m), Number(n)) <==> m <= n) && (Number(m) == Number(n) <==> m == n)
  {
    assert Number(m)[0] == m && Number(n)[0] == n && Number(-m)[0] == -m && Number(-n)[0] == -n;
  }

  predicate MoreSevere(s: Severity, t: Severity) {
    match t
    case Critical => false
    case High => s == Critical
    case Medium => s == Critical || s == High
    case Low => s == Critical || s == High || s == Medium
    case Info => s != Info
  }

  function IdsKey(ids: seq<string>): SortKey {
    seq(|ids|, i requires 0 <= i < |ids| => Codes(ids[i]))
  }

  lemma IdsOrder(a: seq<string>, b: seq<string>)
    requires |a| == |b|
    ensures KeyLe(IdsKey(a), IdsKey(b)) <==>
      a == b || exists k :: FirstDifference(a, b, k) && StringLe(a[k], b[k])
  {
    KeyOrder(IdsKey(a), IdsKey(b));
    forall k | 0 <= k < |a|
      ensures FirstDifference(IdsKey(a), IdsKey(b), k) <==> FirstDifference(a, b, k)
      ensures IntsLe(IdsKey(a)[k], IdsKey(b)[k]) <==> StringLe(a[k], b[k]) {
      CodesOrder(a[k], b[k]);
      SameUpTo(a, b, k);
      if Codes(a[k]) == Codes(b[k]) { CodesInjective(a[k], b[k]); }
    }
    SameUpTo(a, b, |a|);
    assert a[..|a|] == a && b[..|a|] == b && IdsKey(a)[..|a|] == IdsKey(a) && IdsKey(b)[..|a|] == IdsKey(b);
  }

  lemma SameUpTo(a: seq<string>, b: seq<string>, k: nat)
    requires k <= |a| == |b|
    ensures IdsKey(a)[..k] == IdsKey(b)[..k] <==> a[..k] == b[..k]
  {
    if IdsKey(a)[..k] == IdsKey(b)[..k] {
      forall i | 0 <= i < k ensures a[i] == b[i] {
        assert IdsKey(a)[..k][i] == Codes(a[i]) && IdsKey(b)[..k][i] == Codes(b[i]);
        CodesInjective(a[i], b[i]);
      }
    }
    if a[..k] == b[..k] {
      forall i | 0 <= i < k ensures a[i] == b[i] { assert a[..k][i] == b[..k][i]; }
    }
  }

  /** Successors come by the name of the edge kind, then by destination. */
  lemma SuccOrder(a: Succ, b: Succ)
    ensures KeyLe(SuccKey(a), SuccKey(b)) <==>
      if a.kind == b.kind then StringLe(a.dst, b.dst) else KindPlace(a.kind) < KindPlace(b.kind)
  {
    PairOrder(a.kind.Value(), a.dst, b.kind.Value(), b.dst);
    if a.kind != b.kind {
      CodesOrder(a.kind.Value(), b.kind.Value());
      KindsApart(a.kind, b.kind);
    }
  }

  // ---- determinism --------------------------------------------------------------------------

  /** Only the set of (source, kind, destination) triples matters: order, repetition and detail
      of the edges do not. */
  lemma EdgeOrderIrrelevant(v: View, g: Graph, v': View, g': Graph)
    requires ViewOf(v, g) && ViewOf(v', g') && g.nodes == g'.nodes
    requires forall id, s :: HasEdge(g.edges, id, s) <==> HasEdge(g'.edges, id, s)
    ensures Returned(v, g) == Returned(v', g') && Truncated(v, g) == Truncated(v', g')
  {
    forall id ensures id in v.adjacency <==> id in v'.adjacency {
      if e :| e in g.edges && e.src == id { assert HasEdge(g.edges, id, Succ(e.kind, e.dst)); }
      if e :| e in g'.edges && e.src == id { assert HasEdge(g'.edges, id, Succ(e.kind, e.dst)); }
    }
    forall id | id in v.adjacency ensures v.adjacency[id] == v'.adjacency[id] {
      StrictlyOrderedUnique(v.adjacency[id], v'.adjacency[id], SuccKey);
    }
    assert v.adjacency == v'.adjacency;
    assert v == v';
  }

  /** `analyze_graph`: search, rank, grade and flag. Untruncated, the chains returned are all the
      attacker chains there are. */
  method AnalyzeGraph(g: Graph) returns (paths: seq<AttackPath>, grade: char, truncated: bool)
    requires EdgesInto(g.nodes, g.edges)
    ensures exists v :: Analyzed(v, g, paths, truncated)
    ensures grade == OverallGrade(paths)
    ensures !truncated && UniqueIds(g.nodes) ==> forall n, e :: Chain(g, n, e) <==> Lists(paths, n, e)
  {
    paths, truncated := Enumerate(g.nodes, g.edges);
    grade := OverallGrade(paths);
    ghost var v :| Enumerated(v, g.nodes, g.edges, paths, truncated);
    EnumeratedIsAnalyzed(v, g, paths, truncated);
    if !truncated && UniqueIds(g.nodes) {
      UntruncatedLists(v, g);
    }
  }

  ghost predicate Analyzed(v: View, g: Graph, paths: seq<AttackPath>, truncated: bool) {
    ViewOf(v, g) && paths == Returned(v, g) && truncated == Truncated(v, g)
  }

  lemma EnumeratedIsAnalyzed(v: View, g: Graph, paths: seq<AttackPath>, truncated: bool)
    requires Enumerated(v, g.nodes, g.edges, paths, truncated)
    ensures Analyzed(v, g, paths, truncated)
  {
  }

  ghost predicate Lists(paths: seq<AttackPath>, n: seq<string>, e: seq<EdgeKind>) {
    exists p :: p in paths && p.nodes == n && p.edges == e
  }

  lemma UntruncatedLists(v: View, g: Graph)
    requires ViewOf(v, g) && UniqueIds(g.nodes) && !Truncated(v, g)
    ensures forall n, e :: Chain(g, n, e) <==> Lists(Returned(v, g), n, e)
  {
    UntruncatedIsExact(v, g);
    forall n, e | Chain(g, n, e) ensures Lists(Returned(v, g), n, e) {
      assert MakePath(v, n, e) in Returned(v, g);
    }
  }
}
