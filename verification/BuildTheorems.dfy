/** Builder and search together: what chains the graphs that the builder makes can have. */
module BuildTheorems {
  import opened GraphModel
  import opened Trust
  import opened Numerals
  import opened Build
  import opened Paths
  import T = PathTheorems

  /** The search indexes its node table unchecked; the builder never gives it a dangling edge,
      nor two nodes with one identifier. */
  lemma BuilderMeetsSearch(inp: Inputs, g: Graph)
    requires BuiltFrom(inp, g)
    ensures EdgesInto(g.nodes, g.edges) && T.UniqueIds(g.nodes)
  {
  }

  ghost predicate Joins(src: string, kind: EdgeKind, dst: string) {
    match kind
    case Hosts => KindOf(src).AgentHost? && KindOf(dst).McpServer?
    case Reaches => KindOf(src).Entry? && KindOf(dst).McpServer?
    case Holds => KindOf(src).McpServer? && KindOf(dst).Credential?
    case SharedWith => KindOf(src).Credential? && KindOf(dst).McpServer?
    case Unlocks => KindOf(src).Credential? && KindOf(dst).Target?
    case CanAct => KindOf(src).McpServer? && KindOf(dst).Target?
  }

  predicate Known(g: Graph, id: string) {
    && id in NodeById(g.nodes) && NodeById(g.nodes)[id].kind == KindOf(id)
    && NodeById(g.nodes)[id].id == id && NodeById(g.nodes)[id] in g.nodes
  }

  /** Identifiers tell kinds, and every edge joins two known nodes of the kinds it should. */
  ghost predicate WellTyped(g: Graph) {
    && (forall n :: n in g.nodes ==> n.kind == KindOf(n.id))
    && (forall id :: id in NodeById(g.nodes) ==> Known(g, id))
    && (forall src, s: Succ :: HasEdge(g.edges, src, s) ==>
          Joins(src, s.kind, s.dst) && Known(g, src) && Known(g, s.dst))
  }

  lemma BuiltIsWellTyped(inp: Inputs, g: Graph)
    requires BuiltFrom(inp, g)
    ensures WellTyped(g)
  {
    NodeByIdKeys(g.nodes);
    forall src, s: Succ | HasEdge(g.edges, src, s)
      ensures Joins(src, s.kind, s.dst) && Known(g, src) && Known(g, s.dst) {
      assert s == Succ(s.kind, s.dst) && EdgeSpec(inp, src, s.kind, s.dst);
      SpecifiedJoins(inp, src, s.kind, s.dst);
      assert HasNode(g, src) && HasNode(g, s.dst);
    }
  }

  lemma SpecifiedJoins(inp: Inputs, src: string, kind: EdgeKind, dst: string)
    requires EdgeSpec(inp, src, kind, dst)
    ensures Joins(src, kind, dst)
  {
  }

  lemma ChainStep(g: Graph, n: seq<string>, e: seq<EdgeKind>, i: nat)
    requires WellTyped(g) && T.Walk(g, n, e) && i < |e|
    ensures Joins(n[i], e[i], n[i + 1]) && Known(g, n[i]) && Known(g, n[i + 1])
  {
  }

  /** No attacker chain passes through an agent host, and only its last step enters a target. */
  lemma ChainKinds(g: Graph, n: seq<string>, e: seq<EdgeKind>)
    requires WellTyped(g) && T.Chain(g, n, e)
    ensures forall i :: 0 <= i < |n| ==> Known(g, n[i]) && !KindOf(n[i]).AgentHost?
    ensures forall i :: 0 <= i < |e| && (e[i].CanAct? || e[i].Unlocks?) ==> i == |e| - 1
  {
    var x :| x in g.nodes && x.kind.Entry? && x.id == n[0];
    NodeByIdKeys(g.nodes);
    forall i | 0 <= i < |n| ensures Known(g, n[i]) && !KindOf(n[i]).AgentHost? {
      if i > 0 { ChainStep(g, n, e, i - 1); } else { ChainStep(g, n, e, 0); }
    }
    forall i | 0 <= i < |e| && (e[i].CanAct? || e[i].Unlocks?) ensures i == |e| - 1 {
      ChainStep(g, n, e, i);
      assert T.TargetId(g, n[i + 1]);
    }
  }

  // ---- the hops of a built graph ------------------------------------------------------------

  lemma HopReaches(inp: Inputs, g: Graph, p: Profile)
    requires BuiltFrom(inp, g) && p in inp.profiles && p.Has(ExposureReach)
    ensures HasEdge(g.edges, EntryId(p.subject), Succ(Reaches, ServerId(p.subject)))
  {
  }

  lemma HopHolds(inp: Inputs, g: Graph, s: string, k: CredKey)
    requires BuiltFrom(inp, g) && Holder(inp, s, k)
    ensures HasEdge(g.edges, ServerId(s), Succ(Holds, CredId(k)))
  {
  }

  lemma HopShared(inp: Inputs, g: Graph, s: string, other: string, k: CredKey)
    requires BuiltFrom(inp, g) && Holder(inp, s, k) && Holder(inp, other, k) && s != other
    ensures HasEdge(g.edges, CredId(k), Succ(SharedWith, ServerId(s)))
  {
    assert SharedBy(inp, s, k);
    assert EdgeSpec(inp, CredId(k), SharedWith, ServerId(s));
  }

  lemma HopActs(inp: Inputs, g: Graph, p: Profile, t: TargetInfo)
    requires BuiltFrom(inp, g) && p in inp.profiles && CanActOn(inp, p, t)
    ensures HasEdge(g.edges, ServerId(p.subject), Succ(CanAct, TargetId(t.id)))
  {
  }

  // ---- the four-hop chain -------------------------------------------------------------------

  function FourHops(a: Profile, b: Profile, k: CredKey, t: TargetInfo): seq<string> {
    ["entry:" + a.subject, "server:" + a.subject, "cred:" + k.0 + ":" + Digits(k.1), "server:" + b.subject,
     "target:" + t.id]
  }

  const FOUR_KINDS: seq<EdgeKind> := [Reaches, Holds, SharedWith, CanAct]

  /** An exposed server and another, privileged server hold one credential that unlocks a target:
      the four-hop chain is there, it is critical, and the graph fails. */
  lemma SharedCredentialFails(inp: Inputs, g: Graph, v: View, a: Profile, b: Profile, k: CredKey, t: TargetInfo)
    requires BuiltFrom(inp, g) && T.ViewOf(v, g)
    requires a in inp.profiles && b in inp.profiles && a.subject != b.subject
    requires a.Has(ExposureReach) && b.Has(ToolPrivilege)
    requires Holder(inp, a.subject, k) && Holder(inp, b.subject, k) && Opens(inp, k, t)
    ensures T.Chain(g, FourHops(a, b, k, t), FOUR_KINDS)
    ensures PathSeverity(FourHops(a, b, k, t), FOUR_KINDS, v.nodeById) == Critical
    ensures |T.AllFound(v, g)| <= 1000 ==> T.OverallGrade(T.Returned(v, g)) == 'F'
  {
    assert FOUR_KINDS[2] == SharedWith;
    HopReaches(inp, g, a);
    HopHolds(inp, g, a.subject, k);
    HopShared(inp, g, b.subject, a.subject, k);
    assert CanActOn(inp, b, t);
    HopActs(inp, g, b, t);
    BuiltIsWellTyped(inp, g);
    FourHopChain(g, a, b, k, t);
    if |T.AllFound(v, g)| <= 1000 {
      CriticalChainFails(v, g, FourHops(a, b, k, t), FOUR_KINDS);
    }
  }

  lemma CriticalChainFails(v: View, g: Graph, n: seq<string>, e: seq<EdgeKind>)
    requires T.ViewOf(v, g) && |T.AllFound(v, g)| <= 1000
    requires T.Chain(g, n, e) && |e| <= 6 && PathSeverity(n, e, v.nodeById) == Critical
    ensures T.OverallGrade(T.Returned(v, g)) == 'F'
  {
    T.ChainNoWorse(v, g, n, e);
    CriticalIsF(T.Returned(v, g));
  }

  lemma CriticalIsF(paths: seq<AttackPath>)
    requires paths != [] && T.Worst(paths).severity.Weight() >= Critical.Weight()
    ensures T.OverallGrade(paths) == 'F'
  {
  }

  lemma FourHopChain(g: Graph, a: Profile, b: Profile, k: CredKey, t: TargetInfo)
    requires WellTyped(g) && a.subject != b.subject
    requires HasEdge(g.edges, EntryId(a.subject), Succ(Reaches, ServerId(a.subject)))
    requires HasEdge(g.edges, ServerId(a.subject), Succ(Holds, CredId(k)))
    requires HasEdge(g.edges, CredId(k), Succ(SharedWith, ServerId(b.subject)))
    requires HasEdge(g.edges, ServerId(b.subject), Succ(CanAct, TargetId(t.id)))
    ensures T.Chain(g, FourHops(a, b, k, t), FOUR_KINDS)
  {
    var n, e := FourHops(a, b, k, t), FOUR_KINDS;
    if ServerId(a.subject) == ServerId(b.subject) { ServerIdInjective(a.subject, b.subject); }
    IdsTellKinds(a.subject, k);
    IdsTellKinds(b.subject, k);
    IdsTellKinds(t.id, k);
    forall i | 0 <= i < 4 ensures HasEdge(g.edges, n[i], Succ(e[i], n[i + 1])) { }
    assert Known(g, n[0]) && Known(g, n[1]) && Known(g, n[2]) && Known(g, n[3]) && Known(g, n[4]);
    assert e[2] == SharedWith;
  }

  // ---- the five-hop chain -------------------------------------------------------------------

  lemma HopUnlocks(inp: Inputs, g: Graph, k: CredKey, t: TargetInfo)
    requires BuiltFrom(inp, g) && Opens(inp, k, t)
    ensures HasEdge(g.edges, CredId(k), Succ(Unlocks, TargetId(t.id)))
  {
    assert EdgeSpec(inp, CredId(k), Unlocks, TargetId(t.id));
  }

  function FiveHops(a: Profile, b: Profile, k: CredKey, l: CredKey, t: TargetInfo): seq<string> {
    ["entry:" + a.subject, "server:" + a.subject, "cred:" + k.0 + ":" + Digits(k.1), "server:" + b.subject,
     "cred:" + l.0 + ":" + Digits(l.1), "target:" + t.id]
  }

  const FIVE_KINDS: seq<EdgeKind> := [Reaches, Holds, SharedWith, Holds, Unlocks]

  /** Without any privileged tool: an exposed server shares a credential with another one, whose own
      credential is named after a target. The five-hop chain is found, it is critical, and the graph
      fails. */
  lemma UnlockedBehindAPeerFails(inp: Inputs, g: Graph, v: View, a: Profile, b: Profile, k: CredKey, l: CredKey,
                                 name: string, t: TargetInfo)
    requires BuiltFrom(inp, g) && T.ViewOf(v, g)
    requires a in inp.profiles && a.subject != b.subject && a.Has(ExposureReach) && k != l
    requires Holder(inp, a.subject, k) && Holder(inp, b.subject, k)
    requires HasRef(inp, b.subject, l, name) && InferTarget(name) == Some(t)
    ensures T.Chain(g, FiveHops(a, b, k, l, t), FIVE_KINDS)
    ensures MakePath(v, FiveHops(a, b, k, l, t), FIVE_KINDS) in T.AllFound(v, g)
    ensures PathSeverity(FiveHops(a, b, k, l, t), FIVE_KINDS, v.nodeById) == Critical
    ensures |T.AllFound(v, g)| <= 1000 ==> T.OverallGrade(T.Returned(v, g)) == 'F'
  {
    assert FIVE_KINDS[2] == SharedWith;
    HopReaches(inp, g, a);
    HopHolds(inp, g, a.subject, k);
    HopShared(inp, g, b.subject, a.subject, k);
    assert Holder(inp, b.subject, l) && Opens(inp, l, t);
    HopHolds(inp, g, b.subject, l);
    HopUnlocks(inp, g, l, t);
    BuiltIsWellTyped(inp, g);
    FiveHopChain(g, a, b, k, l, t);
    T.AllFoundComplete(v, g, FiveHops(a, b, k, l, t), FIVE_KINDS);
    if |T.AllFound(v, g)| <= 1000 {
      CriticalChainFails(v, g, FiveHops(a, b, k, l, t), FIVE_KINDS);
    }
  }

  /** For one, when the key is called "GITHUB_TOKEN". */
  lemma GithubTokenBehindAPeer(inp: Inputs, g: Graph, v: View, a: Profile, b: Profile, k: CredKey, l: CredKey)
    requires BuiltFrom(inp, g) && T.ViewOf(v, g)
    requires a in inp.profiles && a.subject != b.subject && a.Has(ExposureReach) && k != l
    requires Holder(inp, a.subject, k) && Holder(inp, b.subject, k) && HasRef(inp, b.subject, l, "GITHUB_TOKEN")
    ensures |T.AllFound(v, g)| <= 1000 ==> T.OverallGrade(T.Returned(v, g)) == 'F'
  {
    GithubTokenSays();
    InferTargetIs("GITHUB_TOKEN");
    UnlockedBehindAPeerFails(inp, g, v, a, b, k, l, "GITHUB_TOKEN", TargetInfo("github", "GitHub"));
  }

  lemma GithubTokenSays()
    ensures SaysOne("GITHUB_TOKEN", ["GITHUB", "GH_TOKEN"])
  {
    assert SaysAt("GITHUB_TOKEN", "GITHUB", 0);
    assert ["GITHUB", "GH_TOKEN"][0] == "GITHUB";
  }

  lemma FiveHopChain(g: Graph, a: Profile, b: Profile, k: CredKey, l: CredKey, t: TargetInfo)
    requires WellTyped(g) && a.subject != b.subject && k != l
    requires HasEdge(g.edges, EntryId(a.subject), Succ(Reaches, ServerId(a.subject)))
    requires HasEdge(g.edges, ServerId(a.subject), Succ(Holds, CredId(k)))
    requires HasEdge(g.edges, CredId(k), Succ(SharedWith, ServerId(b.subject)))
    requires HasEdge(g.edges, ServerId(b.subject), Succ(Holds, CredId(l)))
    requires HasEdge(g.edges, CredId(l), Succ(Unlocks, TargetId(t.id)))
    ensures T.Chain(g, FiveHops(a, b, k, l, t), FIVE_KINDS)
  {
    var n, e := FiveHops(a, b, k, l, t), FIVE_KINDS;
    if ServerId(a.subject) == ServerId(b.subject) { ServerIdInjective(a.subject, b.subject); }
    if CredId(k) == CredId(l) { CredIdInjective(k, l); }
    IdsTellKinds(a.subject, k);
    IdsTellKinds(b.subject, l);
    IdsTellKinds(t.id, k);
    forall i | 0 <= i < 5 ensures HasEdge(g.edges, n[i], Succ(e[i], n[i + 1])) { }
    assert Known(g, n[0]) && Known(g, n[1]) && Known(g, n[2]) && Known(g, n[3]) && Known(g, n[4]) && Known(g, n[5]);
    assert e[2] == SharedWith;
  }

  // ---- what a declaration puts into the graph -----------------------------------------------

  /** The local shell is a target of exactly those declared servers that auto-approve a dangerous
      tool. */
  lemma DangerousIff(d: ServerDecl, path: string, host: string)
    ensures HasDangerousTools(ProfileServer(d, path, host)) <==> GrantsDanger(d)
  {
    GrantsNeedATool(d.autoApprove, IsDangerous);
    SecondFactor(ProfileServer(d, path, host).factors);
    DangerousEvidence(d);
  }

  lemma DangerousEvidence(d: ServerDecl)
    ensures var f := PrivilegeFactor(d);
      f.Present() && f.evidence.Grants? && f.evidence.dangerous > 0 <==> CountGrants(d.autoApprove, IsDangerous) > 0
  {
  }

  lemma SecondFactor(f: seq<FactorScore>)
    requires |f| == 5 && f[0].factor == SecretAccess && f[1].factor == ToolPrivilege && f[2].factor == Autonomy
    requires f[3].factor == CodeProvenance && f[4].factor == ExposureReach
    ensures FactorEvidence(f, ToolPrivilege) == if f[1].Present() then f[1].evidence else Nothing
  {
    assert f[1..][0] == f[1] && f[1..][1..] == f[2..];
    NoneLeft(f[2..]);
  }

  lemma {:induction false} NoneLeft(f: seq<FactorScore>)
    requires forall x :: x in f ==> x.factor != ToolPrivilege
    ensures FactorEvidence(f, ToolPrivilege) == Nothing
  {
    if f != [] { NoneLeft(f[1..]); }
  }

  /** A node with the server's identifier that shows its name, grade and factors. */
  ghost predicate ShowsServer(x: Node, d: ServerDecl, path: string, host: string) {
    && x.id == "server:" + path + "#" + d.name && x.name == d.name
    && x.detail == ServerFacts(ProfileServer(d, path, host).grade, ActiveFactors(ProfileServer(d, path, host).factors))
  }

  /** An entry node with the server's name and the reach of its bind hint. */
  ghost predicate ShowsEntry(x: Node, d: ServerDecl, path: string) {
    && x.id == "entry:" + path + "#" + d.name && x.name == d.name && x.detail.EntryFacts?
    && x.detail.reach == if d.bindHint == Some(PrivateLanTier) then PrivateLan else WildcardOrPublic
  }

  /** The nodes and edges of one declared server, by their identifiers. */
  lemma DeclaredServerIsDrawn(inp: Inputs, g: Graph, d: ServerDecl, path: string, host: string)
    requires BuiltFrom(inp, g) && ProfileServer(d, path, host) in inp.profiles && UniqueSubjects(inp.profiles)
    ensures HasEdge(g.edges, "host:" + path, Succ(Hosts, "server:" + path + "#" + d.name))
    ensures GrantsDanger(d) ==> HasEdge(g.edges, "server:" + path + "#" + d.name, Succ(CanAct, "target:local_shell"))
    ensures d.bindHint.Some? ==>
      HasEdge(g.edges, "entry:" + path + "#" + d.name, Succ(Reaches, "server:" + path + "#" + d.name))
    ensures exists x :: x in g.nodes && ShowsServer(x, d, path, host)
    ensures d.bindHint.Some? ==> exists x :: x in g.nodes && ShowsEntry(x, d, path)
  {
    var p := ProfileServer(d, path, host);
    SubjectIds(d, path, host);
    ProfileFactors(d, path, host);
    DangerousIff(d, path, host);
    HopHosts(inp, g, p);
    if GrantsDanger(d) { HopActs(inp, g, p, SHELL); }
    ServerIs(inp, g, p);
    if d.bindHint.Some? {
      HopReaches(inp, g, p);
      EntryIs(inp, g, p);
    }
    ServerShown(d, path, host);
  }

  lemma SubjectIds(d: ServerDecl, path: string, host: string)
    ensures var p := ProfileServer(d, path, host);
      && ServerId(p.subject) == "server:" + path + "#" + d.name && EntryId(p.subject) == "entry:" + path + "#" + d.name
      && HostId(p.location) == "host:" + path && TargetId(SHELL.id) == "target:local_shell"
  {
    Joined("server:", path, "#", d.name);
    Joined("entry:", path, "#", d.name);
    ShellTarget();
  }

  lemma ShellTarget()
    ensures TargetId(SHELL.id) == "target:local_shell"
  {
    assert "target:" + "local_shell" == "target:local_shell";
  }

  lemma Joined(a: string, b: string, c: string, d: string)
    ensures a + (b + c + d) == a + b + c + d
  {
  }

  lemma ServerShown(d: ServerDecl, path: string, host: string)
    ensures ShowsServer(ServerNode(ProfileServer(d, path, host)), d, path, host)
    ensures d.bindHint.Some? ==> ShowsEntry(EntryNode(ProfileServer(d, path, host)), d, path)
  {
    SubjectIds(d, path, host);
    ProfileFactors(d, path, host);
    ReachIsStated(d, path, host);
  }

  lemma HopHosts(inp: Inputs, g: Graph, p: Profile)
    requires BuiltFrom(inp, g) && p in inp.profiles
    ensures HasEdge(g.edges, HostId(p.location), Succ(Hosts, ServerId(p.subject)))
  {
  }

  lemma ServerIs(inp: Inputs, g: Graph, p: Profile)
    requires BuiltFrom(inp, g) && p in inp.profiles && UniqueSubjects(inp.profiles)
    ensures ServerNode(p) in g.nodes
  {
    LastOfSubject(inp.profiles, p.subject);
    var last := LastOf(inp.profiles, p.subject).value;
    assert last == p;
  }

  lemma {:induction false} ExposedAre(profiles: seq<Profile>)
    ensures forall p :: p in Exposed(profiles) <==> p in profiles && p.Has(ExposureReach)
  {
    if profiles != [] {
      ExposedAre(profiles[..|profiles| - 1]);
      assert profiles == profiles[..|profiles| - 1] + [profiles[|profiles| - 1]];
    }
  }

  lemma EntryIs(inp: Inputs, g: Graph, p: Profile)
    requires BuiltFrom(inp, g) && p in inp.profiles && UniqueSubjects(inp.profiles) && p.Has(ExposureReach)
    ensures EntryNode(p) in g.nodes
    ensures EntryId(p.subject) in NodeById(g.nodes) && NodeById(g.nodes)[EntryId(p.subject)] == EntryNode(p)
  {
    ExposedAre(inp.profiles);
    LastOfSubject(Exposed(inp.profiles), p.subject);
    var last := LastOf(Exposed(inp.profiles), p.subject).value;
    assert last == p;
    NodeIs(g, EntryNode(p));
  }

  // ---- who acts at the end of a chain -------------------------------------------------------

  /** Every server that can act on a target is drawn as an autonomous one. */
  ghost predicate ActorsAutonomous(inp: Inputs) {
    forall p, t :: p in inp.profiles && CanActOn(inp, p, t) && LastOf(inp.profiles, p.subject).Some? ==>
      LastOf(inp.profiles, p.subject).value.Has(Autonomy)
  }

  lemma ActiveIsHas(p: Profile, f: TrustFactor)
    ensures f in ActiveFactors(p.factors) <==> p.Has(f)
  {
  }

  lemma ServerFactsOf(inp: Inputs, g: Graph, p: Profile)
    requires BuiltFrom(inp, g) && p in inp.profiles
    ensures LastOf(inp.profiles, p.subject).Some? && ServerId(p.subject) in NodeById(g.nodes)
    ensures forall f :: HasFactor(NodeById(g.nodes)[ServerId(p.subject)], f) <==>
        LastOf(inp.profiles, p.subject).value.Has(f)
  {
    LastOfSubject(inp.profiles, p.subject);
    var last := LastOf(inp.profiles, p.subject).value;
    NodeIs(g, ServerNode(last));
    forall f ensures f in ActiveFactors(last.factors) <==> last.Has(f) { ActiveIsHas(last, f); }
  }

  lemma NodeIs(g: Graph, n: Node)
    requires UniqueNodes(g) && n in g.nodes
    ensures n.id in NodeById(g.nodes) && NodeById(g.nodes)[n.id] == n
  {
    NodeByIdKeys(g.nodes);
    var i :| 0 <= i < |g.nodes| && g.nodes[i] == n;
    var m := NodeById(g.nodes)[n.id];
    var j :| 0 <= j < |g.nodes| && g.nodes[j] == m;
  }

  lemma ActorOf(inp: Inputs, g: Graph, src: string, dst: string) returns (p: Profile, t: TargetInfo)
    requires BuiltFrom(inp, g) && HasEdge(g.edges, src, Succ(CanAct, dst))
    ensures p in inp.profiles && CanActOn(inp, p, t) && src == ServerId(p.subject) && dst == TargetId(t.id)
  {
    assert EdgeSpec(inp, src, CanAct, dst);
    p, t :| p in inp.profiles && CanActOn(inp, p, t) && src == ServerId(p.subject) && dst == TargetId(t.id);
  }

  /** Then no chain is explained by an approval gate or by the fallback sentence. */
  lemma NoApprovalGate(inp: Inputs, g: Graph, n: seq<string>, e: seq<EdgeKind>)
    requires BuiltFrom(inp, g) && T.Chain(g, n, e) && ActorsAutonomous(inp)
    ensures ActsBehindApproval !in Reasons(n, e, NodeById(g.nodes))
    ensures PrivilegedToolOnly !in Reasons(n, e, NodeById(g.nodes))
    ensures ActsUnattended in Reasons(n, e, NodeById(g.nodes)) <==> e[|e| - 1].CanAct?
  {
    if e[|e| - 1].CanAct? {
      LastActorAutonomous(inp, g, n, e);
      ReasonsWhenUnattended(n, e, NodeById(g.nodes));
    } else {
      BuiltIsWellTyped(inp, g);
      OtherwiseShared(g, n, e);
      ReasonsWhenShared(n, e, NodeById(g.nodes));
    }
  }

  lemma LastActorAutonomous(inp: Inputs, g: Graph, n: seq<string>, e: seq<EdgeKind>)
    requires BuiltFrom(inp, g) && T.Walk(g, n, e) && ActorsAutonomous(inp) && e != [] && e[|e| - 1].CanAct?
    ensures n[|e| - 1] in NodeById(g.nodes) && HasFactor(NodeById(g.nodes)[n[|e| - 1]], Autonomy)
  {
    var i := |e| - 1;
    assert HasEdge(g.edges, n[i], Succ(e[i], n[i + 1]));
    var p, t := ActorOf(inp, g, n[i], n[i + 1]);
    ServerFactsOf(inp, g, p);
  }

  lemma OtherwiseShared(g: Graph, n: seq<string>, e: seq<EdgeKind>)
    requires WellTyped(g) && T.Chain(g, n, e) && !e[|e| - 1].CanAct?
    ensures SharedWith in e
  {
    ChainKinds(g, n, e);
    var i :| 0 <= i < |e| && (e[i] == SharedWith || e[i] == CanAct);
    assert e[i] == SharedWith;
  }

  lemma ReasonsWhenUnattended(n: seq<string>, e: seq<EdgeKind>, nodes: map<string, Node>)
    requires |n| == |e| + 1 && |e| > 0 && e[|e| - 1].CanAct?
    requires n[|e| - 1] in nodes && HasFactor(nodes[n[|e| - 1]], Autonomy)
    ensures Reasons(n, e, nodes) == (if SharedWith in e then [SharedPivot] else []) + [ActsUnattended]
  {
  }

  lemma ReasonsWhenShared(n: seq<string>, e: seq<EdgeKind>, nodes: map<string, Node>)
    requires |n| == |e| + 1 && |e| > 0 && !e[|e| - 1].CanAct? && SharedWith in e
    ensures Reasons(n, e, nodes) == [SharedPivot]
  {
  }

  ghost predicate UniqueSubjects(profiles: seq<Profile>) {
    forall p, q :: p in profiles && q in profiles && p.subject == q.subject ==> p == q
  }

  ghost predicate FromProfileServer(p: Profile) {
    exists d, path, host :: p == ProfileServer(d, path, host)
  }

  /** One profile per server, each made by `profile_server`: every actor is autonomous. */
  lemma ProfiledActorsAreAutonomous(inp: Inputs)
    requires UniqueSubjects(inp.profiles) && forall p :: p in inp.profiles ==> FromProfileServer(p)
    ensures ActorsAutonomous(inp)
  {
    forall p, t | p in inp.profiles && CanActOn(inp, p, t)
      ensures LastOf(inp.profiles, p.subject).Some? && LastOf(inp.profiles, p.subject).value.Has(Autonomy) {
      LastOfSubject(inp.profiles, p.subject);
      var d, path, host :| p == ProfileServer(d, path, host);
      ProfileFactors(d, path, host);
      if HasDangerousTools(p) { DangerousIsPrivileged(p.factors, p); }
    }
  }

  lemma {:induction false} DangerousIsPrivileged(factors: seq<FactorScore>, p: Profile)
    requires FactorEvidence(factors, ToolPrivilege).Grants?
    requires forall f :: f in factors ==> f in p.factors
    ensures p.Has(ToolPrivilege)
  {
    if factors[0].factor == ToolPrivilege && factors[0].Present() {
      assert factors[0] in p.factors;
      var i :| 0 <= i < |p.factors| && p.factors[i] == factors[0];
    } else {
      DangerousIsPrivileged(factors[1..], p);
    }
  }

  // ---- when a chain is not explained as unattended -------------------------------------------

  /** A chain within the hop limit that ends in an action which its explanation does not call
      unattended. */
  ghost predicate HidesAutonomy(g: Graph, n: seq<string>, e: seq<EdgeKind>) {
    && T.Chain(g, n, e) && |e| <= 6
    && e[|e| - 1].CanAct? && ActsUnattended !in Reasons(n, e, NodeById(g.nodes))
  }

  /** Some walk from an entry reaches the node with a hop to spare. */
  ghost predicate Reached(g: Graph, id: string) {
    exists n, e :: ReachedBy(g, n, e, id)
  }

  ghost predicate ReachedBy(g: Graph, n: seq<string>, e: seq<EdgeKind>, id: string) {
    T.Walk(g, n, e) && |e| < 6 && T.EntryId(g, n[0]) && n[|e|] == id
  }

  /** A profile that can act, whose subject was profiled again, last without autonomy. */
  ghost predicate StaleActor(inp: Inputs, p: Profile) {
    && p in inp.profiles && (exists t :: CanActOn(inp, p, t))
    && LastOf(inp.profiles, p.subject).Some? && !LastOf(inp.profiles, p.subject).value.Has(Autonomy)
  }

  /** A recorded chain whose explanation does not call its last action unattended. */
  predicate ExplainedAway(q: AttackPath) {
    q.edges != [] && q.edges[|q.edges| - 1].CanAct? && ActsUnattended !in q.reasons
  }

  /** Exactly when a chain within the hop cap ends in an action and is not explained as unattended:
      a profile that can act on a target has a last profile without autonomy, and an entry reaches
      its server in fewer than six hops. */
  lemma HidesAutonomyIff(inp: Inputs, g: Graph, v: View)
    requires BuiltFrom(inp, g) && T.ViewOf(v, g)
    ensures (exists q :: q in T.AllFound(v, g) && ExplainedAway(q))
        <==> exists p :: StaleActor(inp, p) && Reached(g, ServerId(p.subject))
  {
    if q :| q in T.AllFound(v, g) && ExplainedAway(q) {
      FoundHides(v, g, q);
      var p := HiddenActor(inp, g, q.nodes, q.edges);
    }
    if p :| StaleActor(inp, p) && Reached(g, ServerId(p.subject)) {
      var n, e := StaleActorHides(inp, g, p);
      var q := HidingIsFound(v, g, n, e);
    }
  }

  lemma FoundHides(v: View, g: Graph, q: AttackPath)
    requires T.ViewOf(v, g) && q in T.AllFound(v, g) && ExplainedAway(q)
    ensures HidesAutonomy(g, q.nodes, q.edges)
  {
    T.AllFoundSound(v, g, q);
  }

  lemma HidingIsFound(v: View, g: Graph, n: seq<string>, e: seq<EdgeKind>) returns (q: AttackPath)
    requires T.ViewOf(v, g) && HidesAutonomy(g, n, e)
    ensures q in T.AllFound(v, g) && ExplainedAway(q)
  {
    T.AllFoundComplete(v, g, n, e);
    q := MakePath(v, n, e);
  }

  lemma StaleActorHides(inp: Inputs, g: Graph, p: Profile) returns (n: seq<string>, e: seq<EdgeKind>)
    requires BuiltFrom(inp, g) && StaleActor(inp, p) && Reached(g, ServerId(p.subject))
    ensures HidesAutonomy(g, n, e)
  {
    n, e :| ReachedBy(g, n, e, ServerId(p.subject));
    var t :| CanActOn(inp, p, t);
    StrikeFrom(inp, g, p, t, n, e);
    n, e := n + [TargetId(t.id)], e + [CanAct];
  }

  lemma HiddenActor(inp: Inputs, g: Graph, n: seq<string>, e: seq<EdgeKind>) returns (p: Profile)
    requires BuiltFrom(inp, g) && HidesAutonomy(g, n, e)
    ensures StaleActor(inp, p) && Reached(g, ServerId(p.subject))
  {
    var i := |e| - 1;
    assert HasEdge(g.edges, n[i], Succ(e[i], n[i + 1]));
    var t;
    p, t := ActorOf(inp, g, n[i], n[i + 1]);
    ServerFactsOf(inp, g, p);
    if HasFactor(NodeById(g.nodes)[n[i]], Autonomy) { ReasonsWhenUnattended(n, e, NodeById(g.nodes)); }
    BeforeTheStrike(g, n, e);
  }

  lemma BeforeTheStrike(g: Graph, n: seq<string>, e: seq<EdgeKind>)
    requires T.Chain(g, n, e) && |e| <= 6
    ensures Reached(g, n[|e| - 1])
  {
    var n', e' := n[..|e|], e[..|e| - 1];
    forall i | 0 <= i < |e'| ensures HasEdge(g.edges, n'[i], Succ(e'[i], n'[i + 1])) {
      assert HasEdge(g.edges, n[i], Succ(e[i], n[i + 1]));
    }
    assert ReachedBy(g, n', e', n[|e| - 1]);
  }

  /** A walk to the server of an actor goes on to the target. */
  lemma StrikeFrom(inp: Inputs, g: Graph, p: Profile, t: TargetInfo, n: seq<string>, e: seq<EdgeKind>)
    requires BuiltFrom(inp, g) && StaleActor(inp, p) && CanActOn(inp, p, t) && ReachedBy(g, n, e, ServerId(p.subject))
    ensures HidesAutonomy(g, n + [TargetId(t.id)], e + [CanAct])
  {
    var n', e' := n + [TargetId(t.id)], e + [CanAct];
    HopActs(inp, g, p, t);
    BuiltIsWellTyped(inp, g);
    IdsTellKinds(p.subject, ("", 0));
    IdsTellKinds(t.id, ("", 0));
    WalkToTarget(g, n, e, TargetId(t.id));
    ServerFactsOf(inp, g, p);
    NotUnattended(n', e', NodeById(g.nodes));
  }

  lemma NotUnattended(n: seq<string>, e: seq<EdgeKind>, nodes: map<string, Node>)
    requires |n| == |e| + 1 > 1 && n[|e| - 1] in nodes && !HasFactor(nodes[n[|e| - 1]], Autonomy)
    ensures ActsUnattended !in Reasons(n, e, nodes)
  {
  }

  lemma WalkToTarget(g: Graph, n: seq<string>, e: seq<EdgeKind>, target: string)
    requires WellTyped(g) && T.Walk(g, n, e) && T.EntryId(g, n[0]) && KindOf(n[|e|]).McpServer?
      && KindOf(target).Target?
    requires HasEdge(g.edges, n[|e|], Succ(CanAct, target))
    ensures T.Chain(g, n + [target], e + [CanAct])
  {
    var n', e' := n + [target], e + [CanAct];
    assert Known(g, n[|e|]) && Known(g, target);
    forall i | 0 <= i < |n| ensures n[i] != target {
      assert i < |e| ==> !T.TargetId(g, n[i]);
    }
    forall i | 0 <= i < |e'| ensures HasEdge(g.edges, n'[i], Succ(e'[i], n'[i + 1])) {
      assert i < |e| ==> HasEdge(g.edges, n[i], Succ(e[i], n[i + 1]));
    }
    assert e'[|e|] == CanAct;
  }

  /** Profiles from `profile_server`, of one subject or of many, never call for the approval gate:
      what privilege they show comes with autonomy. */
  lemma NeverBehindApproval(inp: Inputs, g: Graph, n: seq<string>, e: seq<EdgeKind>)
    requires BuiltFrom(inp, g) && T.Chain(g, n, e) && forall p :: p in inp.profiles ==> FromProfileServer(p)
    ensures ActsBehindApproval !in Reasons(n, e, NodeById(g.nodes))
  {
    var i := |e| - 1;
    if e[i].CanAct? {
      assert HasEdge(g.edges, n[i], Succ(e[i], n[i + 1]));
      var p, t := ActorOf(inp, g, n[i], n[i + 1]);
      ServerFactsOf(inp, g, p);
      LastOfSubject(inp.profiles, p.subject);
      PrivilegeIsAutonomous(LastOf(inp.profiles, p.subject).value);
      NotBehindApproval(n, e, NodeById(g.nodes));
    }
  }

  lemma PrivilegeIsAutonomous(p: Profile)
    requires FromProfileServer(p)
    ensures p.Has(ToolPrivilege) ==> p.Has(Autonomy)
  {
    var d, path, host :| p == ProfileServer(d, path, host);
    ProfileFactors(d, path, host);
  }

  lemma NotBehindApproval(n: seq<string>, e: seq<EdgeKind>, nodes: map<string, Node>)
    requires |n| == |e| + 1 > 1 && n[|e| - 1] in nodes
    requires HasFactor(nodes[n[|e| - 1]], ToolPrivilege) ==> HasFactor(nodes[n[|e| - 1]], Autonomy)
    ensures ActsBehindApproval !in Reasons(n, e, nodes)
  {
  }

  /** A server listed twice under one name: reachable and with a dangerous grant, then without. */
  function ListedTwice(path: string, name: string, host: string): Inputs {
    var first := ServerDecl(name, [Grant(true, false)], 0, false, Some(WildcardTier));
    var second := ServerDecl(name, [], 0, false, None);
    Inputs([ProfileServer(first, path, host), ProfileServer(second, path, host)], None, map[])
  }

  lemma DangerousGrant(d: ServerDecl, path: string, host: string)
    requires d.autoApprove == [Grant(true, false)]
    ensures HasDangerousTools(ProfileServer(d, path, host))
  {
    var f := ProfileServer(d, path, host).factors;
    assert d.autoApprove[1..] == [];
    assert CountGrants(d.autoApprove, IsDangerous) == 1 && CountGrants(d.autoApprove, IsWildcard) == 0;
    assert f[1..][0] == f[1] == PrivilegeFactor(d);
    assert FactorEvidence(f, ToolPrivilege) == FactorEvidence(f[1..], ToolPrivilege) == Grants(1, 0);
  }

  /** So two entries of one config under one name are enough for the fallback sentence, although
      the chain's actor is autonomous. */
  lemma StaleProfileHidesAutonomy(g: Graph, path: string, name: string, host: string)
    requires BuiltFrom(ListedTwice(path, name, host), g)
    ensures var s := Subject(path, name);
      var n, e := [EntryId(s), ServerId(s), TargetId(SHELL.id)], [Reaches, CanAct];
      HidesAutonomy(g, n, e) && Reasons(n, e, NodeById(g.nodes)) == [PrivilegedToolOnly]
  {
    var inp := ListedTwice(path, name, host);
    var p := ListedTwiceIsStale(path, name, host);
    HopReaches(inp, g, p);
    HopActs(inp, g, p, SHELL);
    BuiltIsWellTyped(inp, g);
    TwoHopChain(g, p, SHELL);
    ServerFactsOf(inp, g, p);
    FallbackReason([EntryId(p.subject), ServerId(p.subject), TargetId(SHELL.id)], NodeById(g.nodes));
  }

  lemma ListedTwiceIsStale(path: string, name: string, host: string) returns (p: Profile)
    ensures var inp := ListedTwice(path, name, host);
      && StaleActor(inp, p) && p.subject == Subject(path, name) && p.Has(ExposureReach) && CanActOn(inp, p, SHELL)
      && !LastOf(inp.profiles, p.subject).value.Has(ToolPrivilege)
  {
    var inp := ListedTwice(path, name, host);
    p := inp.profiles[0];
    var first := ServerDecl(name, [Grant(true, false)], 0, false, Some(WildcardTier));
    ProfileFactors(first, path, host);
    ProfileFactors(ServerDecl(name, [], 0, false, None), path, host);
    DangerousGrant(first, path, host);
    assert p in inp.profiles && LastOf(inp.profiles, p.subject) == Some(inp.profiles[1]);
    assert CanActOn(inp, p, SHELL);
  }

  lemma FallbackReason(n: seq<string>, nodes: map<string, Node>)
    requires |n| == 3 && n[1] in nodes && !HasFactor(nodes[n[1]], Autonomy) && !HasFactor(nodes[n[1]], ToolPrivilege)
    ensures Reasons(n, [Reaches, CanAct], nodes) == [PrivilegedToolOnly]
  {
  }

  lemma TwoHopChain(g: Graph, p: Profile, t: TargetInfo)
    requires WellTyped(g)
    requires HasEdge(g.edges, EntryId(p.subject), Succ(Reaches, ServerId(p.subject)))
    requires HasEdge(g.edges, ServerId(p.subject), Succ(CanAct, TargetId(t.id)))
    ensures T.Chain(g, [EntryId(p.subject), ServerId(p.subject), TargetId(t.id)], [Reaches, CanAct])
  {
    var n, e := [EntryId(p.subject), ServerId(p.subject), TargetId(t.id)], [Reaches, CanAct];
    IdsTellKinds(p.subject, ("", 0));
    IdsTellKinds(t.id, ("", 0));
    assert Known(g, n[0]) && Known(g, n[1]) && Known(g, n[2]);
    assert n[0] != n[1] && n[0] != n[2] && n[1] != n[2];
    assert e[1] == CanAct;
  }

  // ---- no chain is merely MEDIUM ------------------------------------------------------------

  lemma FirstEntryReach(g: Graph, n: seq<string>, e: seq<EdgeKind>)
    requires WellTyped(g) && T.Chain(g, n, e)
    ensures n[0] in NodeById(g.nodes) && NodeById(g.nodes)[n[0]] in g.nodes && NodeById(g.nodes)[n[0]].kind.Entry?
    ensures EntryReach(n, NodeById(g.nodes)) ==
      var detail := NodeById(g.nodes)[n[0]].detail; if detail.EntryFacts? then detail.reach else NotStated
  {
    ChainKinds(g, n, e);
    var x :| x in g.nodes && x.kind.Entry? && x.id == n[0];
    assert Known(g, n[0]);
  }

  lemma ReachIsStated(d: ServerDecl, path: string, host: string)
    ensures var p := ProfileServer(d, path, host);
      p.Has(ExposureReach) ==>
        ReachLabel(p) == if d.bindHint.value.PrivateLanTier? then PrivateLan else WildcardOrPublic
  {
    var p := ProfileServer(d, path, host);
    ProfileFactors(d, path, host);
    var f := p.factors;
    if p.Has(ExposureReach) {
      assert f[4] == ReachFactor(d) && f[4].Present();
      SkipFactors(f);
    }
  }

  lemma SkipFactors(f: seq<FactorScore>)
    requires |f| == 5 && f[4].factor == ExposureReach && f[4].Present()
    requires f[0].factor == SecretAccess && f[1].factor == ToolPrivilege && f[2].factor == Autonomy
    requires f[3].factor == CodeProvenance
    ensures FactorEvidence(f, ExposureReach) == f[4].evidence
  {
    assert f[1..][1..] == f[2..] && f[2..][1..] == f[3..] && f[3..][1..] == f[4..];
    assert FactorEvidence(f, ExposureReach) == FactorEvidence(f[1..], ExposureReach)
        == FactorEvidence(f[2..], ExposureReach) == FactorEvidence(f[3..], ExposureReach);
    assert FactorEvidence(f[4..], ExposureReach) == f[4].evidence;
  }

  /** Every entry surface that the tool draws states its reach, so the MEDIUM branch ("no
      network-reachable entry") is never taken: a chain is CRITICAL or HIGH, a graph A, D or F. */
  lemma NeverMedium(inp: Inputs, g: Graph, n: seq<string>, e: seq<EdgeKind>)
    requires BuiltFrom(inp, g) && T.Chain(g, n, e)
    requires forall p :: p in inp.profiles ==> FromProfileServer(p)
    ensures PathSeverity(n, e, NodeById(g.nodes)) in {Critical, High}
  {
    BuiltIsWellTyped(inp, g);
    FirstEntryReach(g, n, e);
    var x := NodeById(g.nodes)[n[0]];
    assert EntryStated(inp.profiles, x);
    if p :| p in inp.profiles && p.Has(ExposureReach) && ReachLabel(p) == NotStated {
      var d, path, host :| p == ProfileServer(d, path, host);
      ReachIsStated(d, path, host);
      assert false;
    }
  }

  /** Severity in terms of the declarations: a chain of profiled servers, each profiled once, starts
      at the entry of one of them, and is HIGH exactly when that one is bound to the local network
      and no shared credential is crossed. */
  lemma SeverityIsReach(inp: Inputs, g: Graph, n: seq<string>, e: seq<EdgeKind>)
    requires BuiltFrom(inp, g) && T.Chain(g, n, e) && UniqueSubjects(inp.profiles)
    requires forall p :: p in inp.profiles ==> FromProfileServer(p)
    ensures exists d, path, host :: StartsAt(inp, n, d, path, host) && RatedBy(g, n, e, d)
  {
    var p := FirstHop(inp, g, n, e);
    var d, path, host :| p == ProfileServer(d, path, host);
    ProfileFactors(d, path, host);
    SubjectIds(d, path, host);
    EntryIs(inp, g, p);
    BuiltIsWellTyped(inp, g);
    RatedByReach(g, n, e, d, path, host);
    assert StartsAt(inp, n, d, path, host);
  }

  lemma RatedByReach(g: Graph, n: seq<string>, e: seq<EdgeKind>, d: ServerDecl, path: string, host: string)
    requires WellTyped(g) && T.Chain(g, n, e) && d.bindHint.Some?
    requires n[0] in NodeById(g.nodes) && NodeById(g.nodes)[n[0]] == EntryNode(ProfileServer(d, path, host))
    ensures RatedBy(g, n, e, d)
  {
    ServerShown(d, path, host);
    FirstEntryReach(g, n, e);
  }

  lemma FirstHop(inp: Inputs, g: Graph, n: seq<string>, e: seq<EdgeKind>) returns (p: Profile)
    requires BuiltFrom(inp, g) && T.Chain(g, n, e)
    ensures p in inp.profiles && p.Has(ExposureReach) && n[0] == EntryId(p.subject)
  {
    BuiltIsWellTyped(inp, g);
    var x :| x in g.nodes && x.kind.Entry? && x.id == n[0];
    ChainStep(g, n, e, 0);
    assert HasEdge(g.edges, n[0], Succ(e[0], n[1])) && EdgeSpec(inp, n[0], e[0], n[1]);
    assert KindOf(n[0]).Entry? && e[0] == Reaches;
    p :| p in inp.profiles && p.Has(ExposureReach) && n[0] == EntryId(p.subject) && n[1] == ServerId(p.subject);
  }

  ghost predicate RatedBy(g: Graph, n: seq<string>, e: seq<EdgeKind>, d: ServerDecl)
  {
    PathSeverity(n, e, NodeById(g.nodes))
      == if SharedWith !in e && d.bindHint == Some(PrivateLanTier) then High else Critical
  }

  ghost predicate StartsAt(inp: Inputs, n: seq<string>, d: ServerDecl, path: string, host: string) {
    && ProfileServer(d, path, host) in inp.profiles && d.bindHint.Some?
    && n != [] && n[0] == "entry:" + path + "#" + d.name
  }

  // ---- two joins over the same credentials --------------------------------------------------

  /** Both analyses were handed the same references. */
  ghost predicate SameReferences(inp: Inputs, fingerprints: map<string, seq<CredKey>>) {
    && fingerprints.Keys == inp.holders.Keys
    && forall s, k :: s in fingerprints ==> (k in fingerprints[s] <==> exists r :: r in inp.holders[s] && r.Key() == k)
  }

  lemma HolderIsFingerprinted(inp: Inputs, fingerprints: map<string, seq<CredKey>>, s: string, k: CredKey)
    requires SameReferences(inp, fingerprints)
    ensures Holder(inp, s, k) <==> Profiled(inp, s) && s in fingerprints && k in fingerprints[s]
  {
    if Profiled(inp, s) && s in inp.holders {
      SubjectHolds(inp, s, k);
    }
  }

  /** A SHARED_WITH edge enters a profile's server exactly when the trust analysis finds it a
      peer that is itself profiled. */
  lemma SharedEdgeIffProfiledPeer(inp: Inputs, g: Graph, fingerprints: map<string, seq<CredKey>>, p: Profile)
    requires BuiltFrom(inp, g) && SameReferences(inp, fingerprints) && p in inp.profiles
    ensures (exists src :: HasEdge(g.edges, src, Succ(SharedWith, ServerId(p.subject))))
        <==> exists q :: q in Peers(fingerprints, p.subject) && Profiled(inp, q)
  {
    if src :| HasEdge(g.edges, src, Succ(SharedWith, ServerId(p.subject))) {
      var s, k :| SharedBy(inp, s, k) && src == CredId(k) && ServerId(p.subject) == ServerId(s);
      ServerIdInjective(p.subject, s);
      var q :| q != s && Holder(inp, q, k);
      HolderIsFingerprinted(inp, fingerprints, s, k);
      HolderIsFingerprinted(inp, fingerprints, q, k);
      assert q in Peers(fingerprints, p.subject);
    }
    if q :| q in Peers(fingerprints, p.subject) && Profiled(inp, q) {
      var k :| k in fingerprints[p.subject] && k in fingerprints[q];
      assert Profiled(inp, p.subject);
      HolderIsFingerprinted(inp, fingerprints, p.subject, k);
      HolderIsFingerprinted(inp, fingerprints, q, k);
      assert SharedBy(inp, p.subject, k);
      assert EdgeSpec(inp, CredId(k), SharedWith, ServerId(p.subject));
      assert HasEdge(g.edges, CredId(k), Succ(SharedWith, ServerId(p.subject)));
    }
  }

  /** The two independent joins agree whenever every holder is a profiled subject. */
  lemma JoinsAgree(inp: Inputs, g: Graph, fingerprints: map<string, seq<CredKey>>, p: Profile)
    requires BuiltFrom(inp, g) && SameReferences(inp, fingerprints) && p in inp.profiles
    requires forall s :: s in fingerprints ==> Profiled(inp, s)
    ensures Shared(p, fingerprints) != p <==> exists src :: HasEdge(g.edges, src, Succ(SharedWith, ServerId(p.subject)))
  {
    SharedEdgeIffProfiledPeer(inp, g, fingerprints, p);
    assert |p.relationships + [SharedCredential(|Peers(fingerprints, p.subject)|)]| != |p.relationships|;
    if Peers(fingerprints, p.subject) != {} {
      var q :| q in Peers(fingerprints, p.subject);
      assert Profiled(inp, q);
    }
  }

  /** Build, then analyze: the builder's output is always fit for the search. */
  method BuildAndAnalyze(inp: Inputs) returns (g: Graph, paths: seq<AttackPath>, grade: char, truncated: bool)
    ensures BuiltFrom(inp, g)
    ensures exists v :: T.Analyzed(v, g, paths, truncated)
    ensures grade == T.OverallGrade(paths)
    ensures !truncated ==> forall n, e :: T.Chain(g, n, e) <==> T.Lists(paths, n, e)
  {
    g := BuildGraph(inp);
    BuilderMeetsSearch(inp, g);
    paths, grade, truncated := T.AnalyzeGraph(g);
  }
}
