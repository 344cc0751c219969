/** Bounded depth-first enumeration of attacker chains (graph/paths.py). */
module Paths {
  import opened GraphModel
  import opened Orders

  const MAX_HOPS := 6
  const MAX_PATHS := 50
  const ENUMERATION_CEILING := MAX_PATHS * 20

  datatype Succ = Succ(kind: EdgeKind, dst: string)

  function SuccKey(s: Succ): SortKey { [Codes(s.kind.Value()), Codes(s.dst)] }

  /** can_act, holds, hosts, reaches, shared_with, unlocks. */
  function KindPlace(k: EdgeKind): nat {
    match k
    case CanAct => 0
    case Holds => 1
    case Hosts => 2
    case Reaches => 3
    case SharedWith => 4
    case Unlocks => 5
  }

  lemma KindsApart(a: EdgeKind, b: EdgeKind)
    requires a != b
    ensures a.Value() != b.Value()
    ensures IntsLe(Codes(a.Value()), Codes(b.Value())) <==> KindPlace(a) < KindPlace(b)
  {
    CodesOrder(a.Value(), b.Value());
    if {a, b} == {Hosts, Holds} {
      assert "holds"[..2] == "hosts"[..2] == "ho";
      DifferenceDecides(a.Value(), b.Value(), 2);
    } else {
      DifferenceDecides(a.Value(), b.Value(), 0);
    }
  }

  function IdKey(id: string): SortKey { [Codes(id)] }

  /** What the search reads: the node table and the successor lists. */
  datatype View = View(nodeById: map<string, Node>, adjacency: map<string, seq<Succ>>) {
    function Next(id: string): seq<Succ> {
      if id in adjacency then adjacency[id] else []
    }

    predicate IsTarget(id: string) {
      id in nodeById && nodeById[id].kind.Target?
    }

    /** Every successor is a known node: the search indexes the node table without a check. */
    ghost predicate Closed() {
      forall id, s :: s in Next(id) ==> s.dst in nodeById
    }
  }

  // ---- grading one chain -------------------------------------------------------------------

  predicate IsPivot(k: EdgeKind) { k.SharedWith? || k.CanAct? }

  predicate IsActionable(edges: seq<EdgeKind>) {
    exists i :: 0 <= i < |edges| && IsPivot(edges[i])
  }

  function EntryReach(nodes: seq<string>, nodeById: map<string, Node>): Reach {
    if nodes == [] then NotStated
    else if nodes[0] in nodeById && nodeById[nodes[0]].kind.Entry? then
      var detail := nodeById[nodes[0]].detail;
      if detail.EntryFacts? then detail.reach else NotStated
    else EntryReach(nodes[1..], nodeById)
  }

  function PathSeverity(nodes: seq<string>, edges: seq<EdgeKind>, nodeById: map<string, Node>): Severity {
    if SharedWith in edges then Critical
    else
      match EntryReach(nodes, nodeById)
      case Wildcard | WildcardOrPublic | PublicRoutable => Critical
      case PrivateLan => High
      case NotStated => Medium
  }

  predicate HasFactor(node: Node, factor: TrustFactor) {
    node.detail.ServerFacts? && factor in node.detail.factors
  }

  function Reasons(nodes: seq<string>, edges: seq<EdgeKind>, nodeById: map<string, Node>): seq<Reason>
    requires |nodes| == |edges| + 1
  {
    var pivot := if SharedWith in edges then [SharedPivot] else [];
    var act :=
      if edges == [] || !edges[|edges| - 1].CanAct? || nodes[|nodes| - 2] !in nodeById then []
      else
        var acting := nodeById[nodes[|nodes| - 2]];
        if HasFactor(acting, Autonomy) then [ActsUnattended]
        else if HasFactor(acting, ToolPrivilege) then [ActsBehindApproval]
        else [];
    if pivot + act == [] then [PrivilegedToolOnly] else pivot + act
  }

  function MakePath(v: View, nodes: seq<string>, edges: seq<EdgeKind>): (p: AttackPath)
    requires |nodes| == |edges| + 1
    ensures p.nodes == nodes && p.edges == edges
  {
    AttackPath(nodes, edges, PathSeverity(nodes, edges, v.nodeById), Reasons(nodes, edges, v.nodeById))
  }

  function Number(n: int): seq<int> { [n] }

  function RankKey(p: AttackPath): SortKey {
    var weight: int := p.severity.Weight();
    [Number(-weight), Number(|p.nodes|)] + seq(|p.nodes|, i requires 0 <= i < |p.nodes| => Codes(p.nodes[i]))
  }

  // ---- what the search finds, without its ceiling -------------------------------------------

  /** The chains recorded below a partial chain, in the order the search records them. */
  function Explore(v: View, nodes: seq<string>, edges: seq<EdgeKind>): seq<AttackPath>
    requires |nodes| == |edges| + 1 && |edges| <= MAX_HOPS
    decreases MAX_HOPS - |edges|, 1, 0
  {
    var current := nodes[|nodes| - 1];
    if v.IsTarget(current) then
      if |nodes| > 1 && IsActionable(edges) then [MakePath(v, nodes, edges)] else []
    else if |edges| >= MAX_HOPS then []
    else ExploreEach(v, nodes, edges, v.Next(current))
  }

  function ExploreEach(v: View, nodes: seq<string>, edges: seq<EdgeKind>, succs: seq<Succ>): seq<AttackPath>
    requires |nodes| == |edges| + 1 && |edges| < MAX_HOPS
    decreases MAX_HOPS - |edges|, 0, |succs|
  {
    if succs == [] then []
    else ExploreOne(v, nodes, edges, succs[0]) + ExploreEach(v, nodes, edges, succs[1..])
  }

  function ExploreOne(v: View, nodes: seq<string>, edges: seq<EdgeKind>, s: Succ): seq<AttackPath>
    requires |nodes| == |edges| + 1 && |edges| < MAX_HOPS
    decreases MAX_HOPS - |edges| - 1, 2, 0
  {
    if s.dst in nodes then [] else Explore(v, nodes + [s.dst], edges + [s.kind])
  }

  /** Whether the hop cap cuts the search short somewhere below a partial chain. */
  predicate Capped(v: View, nodes: seq<string>, edges: seq<EdgeKind>)
    requires |nodes| == |edges| + 1 && |edges| <= MAX_HOPS
    decreases MAX_HOPS - |edges|, 1, 0
  {
    var current := nodes[|nodes| - 1];
    if v.IsTarget(current) then false
    else if |edges| >= MAX_HOPS then exists s :: s in v.Next(current) && s.dst !in nodes
    else CappedEach(v, nodes, edges, v.Next(current))
  }

  predicate CappedEach(v: View, nodes: seq<string>, edges: seq<EdgeKind>, succs: seq<Succ>)
    requires |nodes| == |edges| + 1 && |edges| < MAX_HOPS
    decreases MAX_HOPS - |edges|, 0, |succs|
  {
    succs != [] &&
    (CappedOne(v, nodes, edges, succs[0]) || CappedEach(v, nodes, edges, succs[1..]))
  }

  predicate CappedOne(v: View, nodes: seq<string>, edges: seq<EdgeKind>, s: Succ)
    requires |nodes| == |edges| + 1 && |edges| < MAX_HOPS
    decreases MAX_HOPS - |edges| - 1, 2, 0
  {
    s.dst !in nodes && Capped(v, nodes + [s.dst], edges + [s.kind])
  }

  function ExploreAll(v: View, entries: seq<string>): seq<AttackPath> {
    if entries == [] then [] else Explore(v, [entries[0]], []) + ExploreAll(v, entries[1..])
  }

  predicate CappedAny(v: View, entries: seq<string>) {
    entries != [] && (Capped(v, [entries[0]], []) || CappedAny(v, entries[1..]))
  }

  function Clip(found: seq<AttackPath>): seq<AttackPath> {
    if |found| <= ENUMERATION_CEILING then found else found[..ENUMERATION_CEILING]
  }

  /** The results that a run of the search carries from one visit to the next. */
  datatype Progress = Progress(found: seq<AttackPath>, ceilingHit: bool, depthCapped: bool)

  /** The run went from `before` to `after` by coming across `chains`, up to the ceiling. */
  ghost predicate Advanced(before: Progress, chains: seq<AttackPath>, capped: bool, after: Progress) {
    if before.ceilingHit then after == before
    else
      && after.found == Clip(before.found + chains)
      && after.ceilingHit == (|before.found + chains| > ENUMERATION_CEILING)
      && (!after.ceilingHit ==> after.depthCapped == (before.depthCapped || capped))
  }

  lemma AdvancedTwice(p: Progress, a: seq<AttackPath>, ca: bool, q: Progress, b: seq<AttackPath>, cb: bool, r: Progress)
    requires |p.found| <= ENUMERATION_CEILING
    requires Advanced(p, a, ca, q) && Advanced(q, b, cb, r)
    ensures Advanced(p, a + b, ca || cb, r)
  {
  }

  lemma {:induction false} ExploreEachConcat(v: View, nodes: seq<string>, edges: seq<EdgeKind>, a: seq<Succ>,
                                             b: seq<Succ>)
    requires |nodes| == |edges| + 1 && |edges| < MAX_HOPS
    ensures ExploreEach(v, nodes, edges, a + b) == ExploreEach(v, nodes, edges, a) + ExploreEach(v, nodes, edges, b)
    ensures CappedEach(v, nodes, edges, a + b) == (CappedEach(v, nodes, edges, a) || CappedEach(v, nodes, edges, b))
  {
    if a == [] {
      assert a + b == b;
    } else {
      ExploreEachConcat(v, nodes, edges, a[1..], b);
      assert (a + b)[1..] == a[1..] + b;
    }
  }

  lemma {:induction false} ExploreAllConcat(v: View, a: seq<string>, b: seq<string>)
    ensures ExploreAll(v, a + b) == ExploreAll(v, a) + ExploreAll(v, b)
    ensures CappedAny(v, a + b) == (CappedAny(v, a) || CappedAny(v, b))
  {
    if a == [] {
      assert a + b == b;
    } else {
      ExploreAllConcat(v, a[1..], b);
      assert (a + b)[1..] == a[1..] + b;
    }
  }

  // ---- the search itself --------------------------------------------------------------------

  function NodeById(nodes: seq<Node>): map<string, Node> {
    if nodes == [] then map[]
    else NodeById(nodes[..|nodes| - 1])[nodes[|nodes| - 1].id := nodes[|nodes| - 1]]
  }

  function EntryIds(nodes: seq<Node>): seq<string> {
    if nodes == [] then []
    else (if nodes[0].kind.Entry? then [nodes[0].id] else []) + EntryIds(nodes[1..])
  }

  ghost predicate IsAdjacency(adjacency: map<string, seq<Succ>>, edges: seq<Edge>) {
    && (forall id :: id in adjacency <==> exists e :: e in edges && e.src == id)
    && (forall id :: id in adjacency ==> StrictlyOrdered(adjacency[id], SuccKey))
    && (forall id, s :: id in adjacency ==> (s in adjacency[id] <==> HasEdge(edges, id, s)))
  }

  ghost predicate HasEdge(edges: seq<Edge>, src: string, s: Succ) {
    exists e :: e in edges && e.src == src && e.kind == s.kind && e.dst == s.dst
  }

  lemma SuccKeyInjective(s: set<Succ>)
    ensures InjectiveOn(s, SuccKey)
  {
    forall x, y | x in s && y in s && SuccKey(x) == SuccKey(y) ensures x == y {
      assert SuccKey(x)[0] == SuccKey(y)[0] && SuccKey(x)[1] == SuccKey(y)[1];
      CodesInjective(x.kind.Value(), y.kind.Value());
      CodesInjective(x.dst, y.dst);
      KindValuesDistinct(x.kind, y.kind);
    }
  }

  method Adjacency(edges: seq<Edge>) returns (adjacency: map<string, seq<Succ>>)
    ensures IsAdjacency(adjacency, edges)
  {
    var seen: map<string, set<Succ>> := map[];
    for i := 0 to |edges|
      invariant forall id :: id in seen <==> exists e :: e in edges[..i] && e.src == id
      invariant forall id, s :: id in seen ==> (s in seen[id] <==> HasEdge(edges[..i], id, s))
    {
      var e := edges[i];
      var old' := if e.src in seen then seen[e.src] else {};
      assert edges[..i + 1] == edges[..i] + [e];
      forall id, s ensures HasEdge(edges[..i + 1], id, s) <==>
          HasEdge(edges[..i], id, s) || (id == e.src && s == Succ(e.kind, e.dst)) {
        if id == e.src && s == Succ(e.kind, e.dst) { assert e in edges[..i + 1]; }
      }
      seen := seen[e.src := old' + {Succ(e.kind, e.dst)}];
    }
    assert edges[..|edges|] == edges;
    adjacency := map[];
    var todo := seen.Keys;
    while todo != {}
      invariant todo <= seen.Keys
      invariant adjacency.Keys == seen.Keys - todo
      invariant forall id :: id in adjacency ==> StrictlyOrdered(adjacency[id], SuccKey)
      invariant forall id, s :: id in adjacency ==> (s in adjacency[id] <==> s in seen[id])
      decreases todo
    {
      var src :| src in todo;
      SuccKeyInjective(seen[src]);
      var succs := SortSet(seen[src], SuccKey);
      adjacency := adjacency[src := succs];
      todo := todo - {src};
    }
  }

  class Enumeration {
    const view: View
    var found: seq<AttackPath>
    var ceilingHit: bool
    var depthCapped: bool
    // The accumulators of the walk in progress.
    var visited: set<string>
    var nodesAcc: seq<string>
    var edgesAcc: seq<EdgeKind>

    constructor (view: View)
      ensures this.view == view
      ensures found == [] && !ceilingHit && !depthCapped
    {
      this.view := view;
      found, ceilingHit, depthCapped := [], false, false;
      visited, nodesAcc, edgesAcc := {}, [], [];
    }

    ghost predicate WalkingAt(current: string)
      reads this
    {
      && |nodesAcc| == |edgesAcc| + 1 && |edgesAcc| <= MAX_HOPS
      && nodesAcc[|nodesAcc| - 1] == current
      && current in view.nodeById
      && visited == (set id | id in nodesAcc)
      && |found| <= ENUMERATION_CEILING
      && view.Closed()
    }

    ghost function Now(): Progress
      reads this
    {
      Progress(found, ceilingHit, depthCapped)
    }

    /** One step of the walk. Whatever happens below, ceiling exit included, the accumulators
        come back as they were, and what was recorded is what Explore lists, up to the ceiling. */
    method Visit(current: string)
      requires WalkingAt(current)
      modifies this
      ensures visited == old(visited) && nodesAcc == old(nodesAcc) && edgesAcc == old(edgesAcc)
      ensures |found| <= ENUMERATION_CEILING
      ensures Advanced(old(Now()), Explore(view, nodesAcc, edgesAcc), Capped(view, nodesAcc, edgesAcc), Now())
      decreases MAX_HOPS - |edgesAcc|
    {
      if ceilingHit {
        return;
      }
      var node := view.nodeById[current];
      if node.kind.Target? {
        if |nodesAcc| > 1 && IsActionable(edgesAcc) {
          if |found| >= ENUMERATION_CEILING {
            ceilingHit := true;
            return;
          }
          found := found + [MakePath(view, nodesAcc, edgesAcc)];
        }
        return;
      }
      if |edgesAcc| >= MAX_HOPS {
        if exists s :: s in view.Next(current) && s.dst !in visited {
          depthCapped := true;
        }
        return;
      }
      var succs := view.Next(current);
      for i := 0 to |succs|
        invariant visited == old(visited) && nodesAcc == old(nodesAcc) && edgesAcc == old(edgesAcc)
        invariant |found| <= ENUMERATION_CEILING
        invariant Advanced(old(Now()), ExploreEach(view, nodesAcc, edgesAcc, succs[..i]),
                           CappedEach(view, nodesAcc, edgesAcc, succs[..i]), Now())
        invariant !ceilingHit
      {
        ghost var before := Now();
        if succs[i].dst !in visited {
          VisitSucc(succs[i]);
        }
        StepEach(view, nodesAcc, edgesAcc, succs, i, old(Now()), before, Now());
        if ceilingHit {
          return;
        }
      }
      assert succs[..|succs|] == succs;
    }

    /** Push one successor, walk below it, and pop it again. */
    method VisitSucc(s: Succ)
      requires |nodesAcc| == |edgesAcc| + 1 <= MAX_HOPS && WalkingAt(nodesAcc[|nodesAcc| - 1])
      requires s in view.Next(nodesAcc[|nodesAcc| - 1]) && s.dst !in visited
      modifies this
      ensures visited == old(visited) && nodesAcc == old(nodesAcc) && edgesAcc == old(edgesAcc)
      ensures |found| <= ENUMERATION_CEILING
      ensures Advanced(old(Now()), ExploreOne(view, nodesAcc, edgesAcc, s), CappedOne(view, nodesAcc, edgesAcc, s),
          Now())
      decreases MAX_HOPS - |edgesAcc|, 0
    {
      visited := visited + {s.dst};
      nodesAcc := nodesAcc + [s.dst];
      edgesAcc := edgesAcc + [s.kind];
      Visit(s.dst);
      edgesAcc := edgesAcc[..|edgesAcc| - 1];
      nodesAcc := nodesAcc[..|nodesAcc| - 1];
      visited := visited - {s.dst};
    }
  }

  /** One successor more: a skipped one adds nothing, and once the ceiling is hit the successors
      that are never looked at make no difference. */
  lemma StepEach(v: View, nodes: seq<string>, edges: seq<EdgeKind>, succs: seq<Succ>, i: nat,
                 p: Progress, q: Progress, r: Progress)
    requires |nodes| == |edges| + 1 && |edges| < MAX_HOPS && i < |succs|
    requires |p.found| <= ENUMERATION_CEILING && |q.found| <= ENUMERATION_CEILING
    requires Advanced(p, ExploreEach(v, nodes, edges, succs[..i]), CappedEach(v, nodes, edges, succs[..i]), q)
    requires if succs[i].dst in nodes then q == r
             else Advanced(q, ExploreOne(v, nodes, edges, succs[i]), CappedOne(v, nodes, edges, succs[i]), r)
    requires !q.ceilingHit
    ensures Advanced(p, ExploreEach(v, nodes, edges, succs[..i + 1]), CappedEach(v, nodes, edges, succs[..i + 1]), r)
    ensures r.ceilingHit ==>
        Advanced(p, ExploreEach(v, nodes, edges, succs), CappedEach(v, nodes, edges, succs), r)
  {
    var s := succs[i];
    assert ExploreEach(v, nodes, edges, [s]) == ExploreOne(v, nodes, edges, s) + [];
    assert CappedEach(v, nodes, edges, [s]) == CappedOne(v, nodes, edges, s);
    assert succs[..i + 1] == succs[..i] + [s];
    ExploreEachConcat(v, nodes, edges, succs[..i], [s]);
    assert Advanced(q, ExploreOne(v, nodes, edges, s), CappedOne(v, nodes, edges, s), r) by {
      assert q.found + [] == q.found;
    }
    AdvancedTwice(p, ExploreEach(v, nodes, edges, succs[..i]), CappedEach(v, nodes, edges, succs[..i]), q,
                  ExploreOne(v, nodes, edges, s), CappedOne(v, nodes, edges, s), r);
    if r.ceilingHit {
      assert succs == succs[..i + 1] + succs[i + 1..];
      ExploreEachConcat(v, nodes, edges, succs[..i + 1], succs[i + 1..]);
      AdvancedTwice(p, ExploreEach(v, nodes, edges, succs[..i + 1]), CappedEach(v, nodes, edges, succs[..i + 1]), r,
                    ExploreEach(v, nodes, edges, succs[i + 1..]), CappedEach(v, nodes, edges, succs[i + 1..]), r);
    }
  }

  /** The loop over the entry surfaces. */
  method SearchFrom(v: View, entries: seq<string>) returns (r: Progress)
    requires v.Closed() && forall id :: id in entries ==> id in v.nodeById
    ensures r.found == Clip(ExploreAll(v, entries))
    ensures r.ceilingHit == (|ExploreAll(v, entries)| > ENUMERATION_CEILING)
    ensures !r.ceilingHit ==> r.depthCapped == CappedAny(v, entries)
  {
    var search := new Enumeration(v);
    ghost var start := search.Now();
    for i := 0 to |entries|
      invariant |search.found| <= ENUMERATION_CEILING
      invariant Advanced(start, ExploreAll(v, entries[..i]), CappedAny(v, entries[..i]), search.Now())
    {
      var entry := entries[i];
      ghost var before := search.Now();
      search.visited, search.nodesAcc, search.edgesAcc := {entry}, [entry], [];
      search.Visit(entry);
      OneEntryMore(v, entries, i, start, before, search.Now());
    }
    assert entries[..|entries|] == entries;
    assert [] + ExploreAll(v, entries) == ExploreAll(v, entries);
    r := Progress(search.found, search.ceilingHit, search.depthCapped);
  }

  lemma OneEntryMore(v: View, entries: seq<string>, i: nat, p: Progress, q: Progress, r: Progress)
    requires i < |entries| && |p.found| <= ENUMERATION_CEILING
    requires Advanced(p, ExploreAll(v, entries[..i]), CappedAny(v, entries[..i]), q)
    requires Advanced(q, Explore(v, [entries[i]], []), Capped(v, [entries[i]], []), r)
    ensures Advanced(p, ExploreAll(v, entries[..i + 1]), CappedAny(v, entries[..i + 1]), r)
  {
    ExploreAllConcat(v, entries[..i], [entries[i]]);
    assert entries[..i + 1] == entries[..i] + [entries[i]];
    assert ExploreAll(v, [entries[i]]) == Explore(v, [entries[i]], []) + [];
    AdvancedTwice(p, ExploreAll(v, entries[..i]), CappedAny(v, entries[..i]), q,
                  Explore(v, [entries[i]], []), Capped(v, [entries[i]], []), r);
  }

  /** What the builder must supply: an edge never points outside the node table. */
  ghost predicate EdgesInto(nodes: seq<Node>, edges: seq<Edge>) {
    forall e :: e in edges ==> exists n :: n in nodes && n.id == e.dst
  }

  ghost predicate IsViewOf(v: View, nodes: seq<Node>, edges: seq<Edge>) {
    v.nodeById == NodeById(nodes) && IsAdjacency(v.adjacency, edges)
  }

  lemma ViewClosed(v: View, nodes: seq<Node>, edges: seq<Edge>)
    requires EdgesInto(nodes, edges) && IsViewOf(v, nodes, edges)
    ensures v.Closed()
  {
    NodeByIdKeys(nodes);
    forall id, s | s in v.Next(id) ensures s.dst in v.nodeById {
      assert HasEdge(edges, id, s);
    }
  }

  function Entries(nodes: seq<Node>): seq<string> {
    SortBy(EntryIds(nodes), IdKey)
  }

  /** The whole of `_enumerate`: search from every entry, rank, cap and flag. */
  method Enumerate(nodes: seq<Node>, edges: seq<Edge>) returns (paths: seq<AttackPath>, truncated: bool)
    requires EdgesInto(nodes, edges)
    ensures exists v :: Enumerated(v, nodes, edges, paths, truncated)
  {
    var adjacency := Adjacency(edges);
    var view := View(NodeById(nodes), adjacency);
    ViewClosed(view, nodes, edges);
    var entries := Entries(nodes);
    forall id | id in entries ensures id in view.nodeById { EntryIsNode(nodes, id); }
    var r := SearchFrom(view, entries);
    paths := Best(SortBy(r.found, RankKey));
    truncated := r.ceilingHit || r.depthCapped || |r.found| > MAX_PATHS;
    assert Enumerated(view, nodes, edges, paths, truncated);
  }

  /** The result and the flag of a search over the view v of a graph. */
  ghost predicate Enumerated(v: View, nodes: seq<Node>, edges: seq<Edge>, paths: seq<AttackPath>, truncated: bool) {
    && IsViewOf(v, nodes, edges)
    && paths == Best(SortBy(Clip(ExploreAll(v, Entries(nodes))), RankKey))
    && truncated == (CappedAny(v, Entries(nodes)) || |ExploreAll(v, Entries(nodes))| > MAX_PATHS)
  }

  function Best(ranked: seq<AttackPath>): seq<AttackPath> {
    if |ranked| <= MAX_PATHS then ranked else ranked[..MAX_PATHS]
  }

  lemma {:induction false} NodeByIdKeys(nodes: seq<Node>)
    ensures forall id :: id in NodeById(nodes) <==> exists n :: n in nodes && n.id == id
    ensures forall id :: id in NodeById(nodes) ==> NodeById(nodes)[id] in nodes && NodeById(nodes)[id].id == id
  {
    if nodes != [] {
      NodeByIdKeys(nodes[..|nodes| - 1]);
      assert nodes == nodes[..|nodes| - 1] + [nodes[|nodes| - 1]];
      assert nodes[|nodes| - 1] in nodes;
    }
  }

  lemma {:induction false} EntryIdsAre(nodes: seq<Node>, id: string)
    ensures id in EntryIds(nodes) <==> exists n :: n in nodes && n.kind.Entry? && n.id == id
  {
    if nodes != [] {
      EntryIdsAre(nodes[1..], id);
      assert nodes == [nodes[0]] + nodes[1..];
    }
  }

  lemma EntryIsNode(nodes: seq<Node>, id: string)
    requires id in Entries(nodes)
    ensures id in NodeById(nodes)
  {
    MultisetMembers(Entries(nodes), EntryIds(nodes));
    EntryIdsAre(nodes, id);
    NodeByIdKeys(nodes);
  }
}
