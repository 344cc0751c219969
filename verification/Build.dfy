/** Construction of the attack-path graph from trust profiles, inventory and credential
    references (graph/build.py). */
module Build {
  import opened GraphModel
  import opened Orders
  import opened Trust
  import opened Numerals
  import Paths

  datatype CredRef = CredRef(envKey: string, digest: string, length: nat) {
    function Key(): CredKey { (digest, length) }
  }

  /** One inventoried component. `bind` is the reachability tier of its bind address, when it is
      a socket with one. */
  datatype Asset = Asset(isAgentHost: bool, location: string, product: string, host: string, bind: Option<Tier>)

  datatype Inputs = Inputs(profiles: seq<Profile>, inventory: Option<seq<Asset>>, holders: map<string, seq<CredRef>>)

  datatype TargetInfo = TargetInfo(id: string, name: string)

  // ---- identifiers --------------------------------------------------------------------------

  function HostId(location: string): string { "host:" + location }

  function ServerId(subject: string): string { "server:" + subject }

  function EntryId(subject: string): string { "entry:" + subject }

  function CredId(k: CredKey): string { "cred:" + k.0 + ":" + Digits(k.1) }

  function TargetId(id: string): string { "target:" + id }

  const SHELL := TargetInfo("local_shell", "Local filesystem / shell")

  /** The five prefixes differ in their first letter, so an identifier tells its node's kind. */
  function KindOf(id: string): NodeKind {
    if id == "" then Target
    else
      match id[0]
      case 'h' => AgentHost
      case 's' => McpServer
      case 'e' => Entry
      case 'c' => Credential
      case _ => Target
  }

  lemma IdsTellKinds(s: string, k: CredKey)
    ensures KindOf(HostId(s)) == AgentHost && KindOf(ServerId(s)) == McpServer && KindOf(EntryId(s)) == Entry
    ensures KindOf(CredId(k)) == Credential && KindOf(TargetId(s)) == Target
  {
  }

  lemma ServerIdInjective(a: string, b: string)
    requires ServerId(a) == ServerId(b)
    ensures a == b
  {
    assert a == ServerId(a)[7..] && b == ServerId(b)[7..];
  }

  // ---- what a credential's key name unlocks -------------------------------------------------

  predicate Mentions(hay: string, needle: string) {
    needle <= hay || (hay != "" && Mentions(hay[1..], needle))
  }

  function Upper(s: string): string {
    seq(|s|, i requires 0 <= i < |s| => if 'a' <= s[i] <= 'z' then s[i] - 'a' + 'A' else s[i])
  }

  const TARGET_CATALOG: seq<(seq<string>, TargetInfo)> := [
    (["GITHUB", "GH_TOKEN"], TargetInfo("github", "GitHub")),
    (["AWS"], TargetInfo("aws", "AWS")),
    (["GCP", "GOOGLE"], TargetInfo("gcp", "Google Cloud")),
    (["AZURE"], TargetInfo("azure", "Azure")),
    (["SLACK"], TargetInfo("slack", "Slack")),
    (["POSTGRES", "MYSQL", "DATABASE_URL", "DB_PASS"], TargetInfo("database", "Database")),
    (["OPENAI", "ANTHROPIC", "API_KEY"], TargetInfo("llm_provider", "LLM provider API")),
    (["NPM", "PYPI", "REGISTRY"], TargetInfo("package_registry", "Package registry"))
  ]

  function FirstMatch(upper: string, catalog: seq<(seq<string>, TargetInfo)>): Option<TargetInfo> {
    if catalog == [] then None
    else if Matches(upper, catalog[0].0) then Some(catalog[0].1)
    else FirstMatch(upper, catalog[1..])
  }

  predicate Matches(upper: string, needles: seq<string>) {
    exists i :: 0 <= i < |needles| && Mentions(upper, needles[i])
  }

  /** The first matching group wins, and only a name that matches no group has no target. */
  lemma {:induction false} FirstMatchWins(upper: string, catalog: seq<(seq<string>, TargetInfo)>)
    ensures FirstMatch(upper, catalog).None? <==> forall i :: 0 <= i < |catalog| ==> !Matches(upper, catalog[i].0)
    ensures FirstMatch(upper, catalog).Some? ==>
      exists i :: 0 <= i < |catalog| && Matches(upper, catalog[i].0) && FirstMatch(upper, catalog) == Some(catalog[i].1)
        && forall j :: 0 <= j < i ==> !Matches(upper, catalog[j].0)
  {
    if catalog != [] && !Matches(upper, catalog[0].0) {
      var rest := catalog[1..];
      FirstMatchWins(upper, rest);
      if FirstMatch(upper, rest).Some? {
        var i :| 0 <= i < |rest| && Matches(upper, rest[i].0) && FirstMatch(upper, rest) == Some(rest[i].1)
          && forall j :: 0 <= j < i ==> !Matches(upper, rest[j].0);
        forall j | 0 <= j < i + 1 ensures !Matches(upper, catalog[j].0) {
          if j > 0 { assert catalog[j] == rest[j - 1]; }
        }
        assert catalog[i + 1] == rest[i];
      } else {
        forall j | 0 <= j < |catalog| ensures !Matches(upper, catalog[j].0) {
          if j > 0 { assert catalog[j] == rest[j - 1]; }
        }
      }
    }
  }

  function InferTarget(envKey: string): Option<TargetInfo> {
    FirstMatch(Upper(envKey), TARGET_CATALOG)
  }

  /** Upper- and lower-case ASCII letters count as the same. */
  predicate SameLetter(c: char, upper: char) {
    c == upper || ('A' <= upper <= 'Z' && c as int == upper as int + 32)
  }

  /** The key name has the word in it, in whatever case. */
  ghost predicate Says(key: string, word: string) {
    exists i :: SaysAt(key, word, i)
  }

  ghost predicate SaysAt(key: string, word: string, i: int) {
    0 <= i <= |key| - |word| && forall j :: 0 <= j < |word| ==> SameLetter(key[i + j], word[j])
  }

  lemma {:induction false} MentionsIff(hay: string, needle: string)
    ensures Mentions(hay, needle) <==> exists i :: 0 <= i <= |hay| - |needle| && needle <= hay[i..]
  {
    assert hay[0..] == hay;
    if !(needle <= hay) && hay != "" {
      MentionsIff(hay[1..], needle);
      if i :| 0 <= i <= |hay| - |needle| && needle <= hay[i..] {
        if i > 0 { assert hay[1..][i - 1..] == hay[i..]; }
      }
      if i :| 0 <= i <= |hay[1..]| - |needle| && needle <= hay[1..][i..] {
        assert hay[1..][i..] == hay[i + 1..];
      }
    }
  }

  predicate IsWord(word: string) { forall c :: c in word ==> c == '_' || 'A' <= c <= 'Z' }

  lemma MentionsIsSays(key: string, word: string)
    requires IsWord(word)
    ensures Mentions(Upper(key), word) <==> Says(key, word)
  {
    MentionsIff(Upper(key), word);
    forall i | 0 <= i <= |key| - |word| ensures word <= Upper(key)[i..] <==> SaysAt(key, word, i) {
      UpperAt(key, word, i);
    }
  }

  lemma UpperAt(key: string, word: string, i: nat)
    requires IsWord(word) && i <= |key| - |word|
    ensures word <= Upper(key)[i..] <==> SaysAt(key, word, i)
  {
    forall j | 0 <= j < |word| ensures Upper(key)[i..][j] == word[j] <==> SameLetter(key[i + j], word[j]) {
      assert word[j] in word;
    }
  }

  ghost predicate SaysOne(key: string, words: seq<string>) { exists i :: 0 <= i < |words| && Says(key, words[i]) }

  lemma MatchesIsSays(key: string, words: seq<string>)
    requires forall i :: 0 <= i < |words| ==> IsWord(words[i])
    ensures Matches(Upper(key), words) <==> SaysOne(key, words)
  {
    forall i | 0 <= i < |words| ensures Mentions(Upper(key), words[i]) <==> Says(key, words[i]) {
      MentionsIsSays(key, words[i]);
    }
  }

  /** Which target a key name unlocks, whatever the case of its letters. */
  lemma InferTargetIs(key: string)
    ensures InferTarget(key) ==
      if SaysOne(key, ["GITHUB", "GH_TOKEN"]) then Some(TargetInfo("github", "GitHub"))
      else if SaysOne(key, ["AWS"]) then Some(TargetInfo("aws", "AWS"))
      else if SaysOne(key, ["GCP", "GOOGLE"]) then Some(TargetInfo("gcp", "Google Cloud"))
      else if SaysOne(key, ["AZURE"]) then Some(TargetInfo("azure", "Azure"))
      else if SaysOne(key, ["SLACK"]) then Some(TargetInfo("slack", "Slack"))
      else if SaysOne(key, ["POSTGRES", "MYSQL", "DATABASE_URL", "DB_PASS"]) then
        Some(TargetInfo("database", "Database"))
      else if SaysOne(key, ["OPENAI", "ANTHROPIC", "API_KEY"]) then
        Some(TargetInfo("llm_provider", "LLM provider API"))
      else if SaysOne(key, ["NPM", "PYPI", "REGISTRY"]) then
        Some(TargetInfo("package_registry", "Package registry"))
      else None
  {
    CatalogWords();
    CatalogChain(key, TARGET_CATALOG);
  }

  ghost predicate AllWords(c: seq<(seq<string>, TargetInfo)>) {
    forall i, j :: 0 <= i < |c| && 0 <= j < |c[i].0| ==> IsWord(c[i].0[j])
  }

  lemma CatalogWords()
    ensures AllWords(TARGET_CATALOG)
  {
  }

  lemma CatalogChain(key: string, c: seq<(seq<string>, TargetInfo)>)
    requires |c| == 8 && AllWords(c)
    ensures FirstMatch(Upper(key), c) ==
      if SaysOne(key, c[0].0) then Some(c[0].1) else if SaysOne(key, c[1].0) then Some(c[1].1)
      else if SaysOne(key, c[2].0) then Some(c[2].1) else if SaysOne(key, c[3].0) then Some(c[3].1)
      else if SaysOne(key, c[4].0) then Some(c[4].1) else if SaysOne(key, c[5].0) then Some(c[5].1)
      else if SaysOne(key, c[6].0) then Some(c[6].1) else if SaysOne(key, c[7].0) then Some(c[7].1) else None
  {
    assert c[0..] == c;
    CatalogFrom(key, c, 0);
    CatalogFrom(key, c, 1);
    CatalogFrom(key, c, 2);
    CatalogFrom(key, c, 3);
    LastFour(key, c);
  }

  lemma LastFour(key: string, c: seq<(seq<string>, TargetInfo)>)
    requires |c| == 8 && AllWords(c)
    ensures FirstMatch(Upper(key), c[4..]) ==
      if SaysOne(key, c[4].0) then Some(c[4].1) else if SaysOne(key, c[5].0) then Some(c[5].1)
      else if SaysOne(key, c[6].0) then Some(c[6].1) else if SaysOne(key, c[7].0) then Some(c[7].1) else None
  {
    CatalogFrom(key, c, 4);
    CatalogFrom(key, c, 5);
    CatalogFrom(key, c, 6);
    CatalogFrom(key, c, 7);
  }

  lemma CatalogFrom(key: string, c: seq<(seq<string>, TargetInfo)>, i: nat)
    requires i < |c| && forall j :: 0 <= j < |c[i].0| ==> IsWord(c[i].0[j])
    ensures FirstMatch(Upper(key), c[i..])
         == if SaysOne(key, c[i].0) then Some(c[i].1) else FirstMatch(Upper(key), c[i + 1..])
  {
    MatchesIsSays(key, c[i].0);
    assert c[i..][1..] == c[i + 1..];
  }

  // ---- reading a profile --------------------------------------------------------------------

  function FactorEvidence(factors: seq<FactorScore>, factor: TrustFactor): Evidence {
    if factors == [] then Nothing
    else if factors[0].factor == factor && factors[0].Present() then factors[0].evidence
    else FactorEvidence(factors[1..], factor)
  }

  predicate HasDangerousTools(p: Profile) {
    var e := FactorEvidence(p.factors, ToolPrivilege);
    e.Grants? && e.dangerous > 0
  }

  function ReachLabel(p: Profile): Reach {
    match FactorEvidence(p.factors, ExposureReach)
    case Nothing => NotStated
    case BindsPrivateLan => PrivateLan
    case _ => WildcardOrPublic
  }

  function ReachText(r: Reach): string {
    match r
    case NotStated => ""
    case PrivateLan => "private LAN"
    case PublicRoutable => "public_routable"
    case Wildcard => "wildcard"
    case WildcardOrPublic => "wildcard / public"
  }

  function ServerNode(p: Profile): Node {
    Node(ServerId(p.subject), McpServer, p.serverName, ServerFacts(p.grade, ActiveFactors(p.factors)))
  }

  function HostNode(location: string, host: string): Node {
    Node(HostId(location), AgentHost, host, HostFacts(location, host))
  }

  function EntryNode(p: Profile): Node {
    Node(EntryId(p.subject), Entry, p.serverName, EntryFacts(ReachLabel(p), "network bind hint"))
  }

  function TierReach(t: Tier): Reach {
    match t
    case LoopbackTier => NotStated
    case PrivateLanTier => PrivateLan
    case PublicRoutableTier => PublicRoutable
    case WildcardTier => Wildcard
  }

  function SocketNode(a: Asset): Node
    requires a.bind.Some?
  {
    Node(EntryId(a.location), Entry, a.product, EntryFacts(TierReach(a.bind.value), a.location))
  }

  function TargetNode(t: TargetInfo, origin: string): Node {
    Node(TargetId(t.id), Target, t.name, TargetFacts(origin))
  }

  // ---- the graph, declaratively -------------------------------------------------------------

  /** Profiled subject s holds credential k under the key name `name`. */
  ghost predicate HasRef(inp: Inputs, s: string, k: CredKey, name: string) {
    Profiled(inp, s) && s in inp.holders && CredRef(name, k.0, k.1) in inp.holders[s]
  }

  ghost predicate Profiled(inp: Inputs, s: string) {
    exists p :: p in inp.profiles && p.subject == s
  }

  ghost predicate Holder(inp: Inputs, s: string, k: CredKey) {
    exists name :: HasRef(inp, s, k, name)
  }

  ghost predicate Opens(inp: Inputs, k: CredKey, t: TargetInfo) {
    exists s, name :: HasRef(inp, s, k, name) && InferTarget(name) == Some(t)
  }

  /** HOSTS and REACHES edges. */
  ghost predicate DeclaredEdge(p: Profile, src: string, kind: EdgeKind, dst: string) {
    dst == ServerId(p.subject) &&
    ((kind.Hosts? && src == HostId(p.location))
     || (kind.Reaches? && p.Has(ExposureReach) && src == EntryId(p.subject)))
  }

  /** HOLDS, SHARED_WITH and UNLOCKS edges of one credential, given its holders and targets. */
  ghost predicate CredentialEdge(k: CredKey, holders: set<string>, targets: set<TargetInfo>,
                                 src: string, kind: EdgeKind, dst: string) {
    match kind
    case Holds => exists s :: s in holders && src == ServerId(s) && dst == CredId(k)
    case SharedWith => exists s :: s in holders && holders != {s} && src == CredId(k) && dst == ServerId(s)
    case Unlocks => exists t :: t in targets && src == CredId(k) && dst == TargetId(t.id)
    case _ => false
  }

  /** CAN_ACT edges of one profile, given its references and the targets of each credential. */
  ghost predicate ActionEdge(p: Profile, refs: seq<CredRef>, targets: map<CredKey, set<TargetInfo>>,
                             src: string, kind: EdgeKind, dst: string) {
    kind.CanAct? && src == ServerId(p.subject) &&
    ((p.Has(ToolPrivilege)
      && exists r, t :: r in refs && r.Key() in targets && t in targets[r.Key()] && dst == TargetId(t.id))
     || (HasDangerousTools(p) && dst == TargetId(SHELL.id)))
  }

  ghost predicate EdgeIn(edges: set<Edge>, src: string, kind: EdgeKind, dst: string) {
    exists e :: e in edges && e.src == src && e.kind == kind && e.dst == dst
  }

  ghost predicate Typed(nodes: map<string, Node>) {
    forall id :: id in nodes ==> nodes[id].id == id && nodes[id].kind == KindOf(id)
  }

  ghost predicate ClosedOver(nodes: map<string, Node>, edges: set<Edge>) {
    forall e :: e in edges ==> e.src in nodes && e.dst in nodes
  }

  /** No node is lost, and none but a credential's is drawn again. */
  ghost predicate Keeps(before: map<string, Node>, after: map<string, Node>) {
    forall id :: id in before ==> id in after && (KindOf(id).Credential? || after[id] == before[id])
  }

  // ---- section by section -------------------------------------------------------------------

  function LastOf(profiles: seq<Profile>, s: string): Option<Profile> {
    if profiles == [] then None
    else if profiles[|profiles| - 1].subject == s then Some(profiles[|profiles| - 1])
    else LastOf(profiles[..|profiles| - 1], s)
  }

  function Exposed(profiles: seq<Profile>): seq<Profile> {
    if profiles == [] then []
    else
      var last := profiles[|profiles| - 1];
      Exposed(profiles[..|profiles| - 1]) + (if last.Has(ExposureReach) then [last] else [])
  }

  ghost predicate DeclaredNode(p: Profile, id: string) {
    id == ServerId(p.subject) || id == HostId(p.location) || (p.Has(ExposureReach) && id == EntryId(p.subject))
  }

  function SetDefault(nodes: map<string, Node>, node: Node): map<string, Node> {
    if node.id in nodes then nodes else nodes[node.id := node]
  }

  function DrawProfile(p: Profile, nodes: map<string, Node>): map<string, Node> {
    var withServer := nodes[ServerId(p.subject) := ServerNode(p)];
    var withHost := SetDefault(withServer, HostNode(p.location, p.host));
    if p.Has(ExposureReach) then withHost[EntryId(p.subject) := EntryNode(p)] else withHost
  }

  function ProfileEdges(p: Profile): set<Edge> {
    {Edge(HostId(p.location), ServerId(p.subject), Hosts, "declares")}
    + (if p.Has(ExposureReach)
       then {Edge(EntryId(p.subject), ServerId(p.subject), Reaches, ReachText(ReachLabel(p)))} else {})
  }

  ghost predicate ServersDrawn(profiles: seq<Profile>, nodes: map<string, Node>) {
    forall s :: LastOf(profiles, s).Some? ==>
      ServerId(s) in nodes && nodes[ServerId(s)] == ServerNode(LastOf(profiles, s).value)
  }

  ghost predicate EntriesDrawn(profiles: seq<Profile>, nodes: map<string, Node>) {
    forall s :: LastOf(Exposed(profiles), s).Some? ==>
      EntryId(s) in nodes && nodes[EntryId(s)] == EntryNode(LastOf(Exposed(profiles), s).value)
  }

  /** An entry node states its reach, unless some exposed profile gave no evidence for its own. */
  ghost predicate EntryStated(profiles: seq<Profile>, n: Node) {
    n.detail.EntryFacts? &&
    (n.detail.reach.NotStated? ==> exists p :: p in profiles && p.Has(ExposureReach) && ReachLabel(p).NotStated?)
  }

  ghost predicate EntriesStated(profiles: seq<Profile>, nodes: map<string, Node>) {
    forall id :: id in nodes && KindOf(id).Entry? ==> EntryStated(profiles, nodes[id])
  }

  lemma StatedStep(profiles: seq<Profile>, p: Profile, nodes: map<string, Node>)
    requires EntriesStated(profiles, nodes)
    ensures EntriesStated(profiles + [p], DrawProfile(p, nodes))
  {
  }

  lemma ServersStep(profiles: seq<Profile>, p: Profile, nodes: map<string, Node>)
    requires ServersDrawn(profiles, nodes)
    ensures ServersDrawn(profiles + [p], DrawProfile(p, nodes))
  {
    assert (profiles + [p])[..|profiles|] == profiles;
    forall s | LastOf(profiles + [p], s).Some?
      ensures ServerId(s) in DrawProfile(p, nodes)
      ensures DrawProfile(p, nodes)[ServerId(s)] == ServerNode(LastOf(profiles + [p], s).value)
    {
      IdsTellKinds(s, ("", 0));
      IdsTellKinds(p.subject, ("", 0));
      IdsTellKinds(p.location, ("", 0));
      if s != p.subject && ServerId(s) == ServerId(p.subject) { ServerIdInjective(s, p.subject); }
    }
  }

  lemma EntriesStep(profiles: seq<Profile>, p: Profile, nodes: map<string, Node>)
    requires EntriesDrawn(profiles, nodes)
    ensures EntriesDrawn(profiles + [p], DrawProfile(p, nodes))
  {
    assert (profiles + [p])[..|profiles|] == profiles;
    var last := if p.Has(ExposureReach) then [p] else [];
    assert Exposed(profiles + [p]) == Exposed(profiles) + last;
    assert (Exposed(profiles) + [p])[..|Exposed(profiles)|] == Exposed(profiles);
    assert Exposed(profiles) + [] == Exposed(profiles);
    forall s | LastOf(Exposed(profiles + [p]), s).Some?
      ensures EntryId(s) in DrawProfile(p, nodes)
      ensures DrawProfile(p, nodes)[EntryId(s)] == EntryNode(LastOf(Exposed(profiles + [p]), s).value)
    {
      IdsTellKinds(s, ("", 0));
      IdsTellKinds(p.subject, ("", 0));
      IdsTellKinds(p.location, ("", 0));
      assert s == EntryId(s)[6..] && p.subject == EntryId(p.subject)[6..];
    }
  }

  /** Server, host and entry nodes, HOSTS and REACHES edges. A subject profiled twice keeps the
      node of its last profile. */
  method AddProfiles(profiles: seq<Profile>) returns (nodes: map<string, Node>, edges: set<Edge>)
    ensures Typed(nodes) && ClosedOver(nodes, edges)
    ensures forall id :: id in nodes <==> exists p :: p in profiles && DeclaredNode(p, id)
    ensures forall src, kind, dst :: EdgeIn(edges, src, kind, dst) <==>
        exists p :: p in profiles && DeclaredEdge(p, src, kind, dst)
    ensures ServersDrawn(profiles, nodes) && EntriesDrawn(profiles, nodes) && EntriesStated(profiles, nodes)
  {
    nodes, edges := map[], {};
    for i := 0 to |profiles|
      invariant Typed(nodes) && ClosedOver(nodes, edges)
      invariant forall id :: id in nodes <==> exists p :: p in profiles[..i] && DeclaredNode(p, id)
      invariant forall src, kind, dst :: EdgeIn(edges, src, kind, dst) <==>
          exists p :: p in profiles[..i] && DeclaredEdge(p, src, kind, dst)
      invariant ServersDrawn(profiles[..i], nodes) && EntriesDrawn(profiles[..i], nodes)
        && EntriesStated(profiles[..i], nodes)
    {
      var p := profiles[i];
      assert profiles[..i + 1] == profiles[..i] + [p];
      ServersStep(profiles[..i], p, nodes);
      EntriesStep(profiles[..i], p, nodes);
      StatedStep(profiles[..i], p, nodes);
      DrawnShape(p, nodes);
      ProfileEdgesAre(p);
      EdgesJoin(edges, ProfileEdges(p));
      nodes := DrawProfile(p, nodes);
      edges := edges + ProfileEdges(p);
    }
    assert profiles[..|profiles|] == profiles;
  }

  lemma DrawnShape(p: Profile, nodes: map<string, Node>)
    requires Typed(nodes)
    ensures Typed(DrawProfile(p, nodes)) && ClosedOver(DrawProfile(p, nodes), ProfileEdges(p))
    ensures forall id :: id in DrawProfile(p, nodes) <==> id in nodes || DeclaredNode(p, id)
  {
    var withServer := nodes[ServerId(p.subject) := ServerNode(p)];
    var withHost := SetDefault(withServer, HostNode(p.location, p.host));
    IdsTellKinds(p.subject, ("", 0));
    IdsTellKinds(p.location, ("", 0));
    assert Typed(withServer);
    assert Typed(withHost);
  }

  lemma ProfileEdgesAre(p: Profile)
    ensures forall src, kind, dst :: EdgeIn(ProfileEdges(p), src, kind, dst) <==> DeclaredEdge(p, src, kind, dst)
  {
  }

  lemma EdgesJoin(a: set<Edge>, b: set<Edge>)
    ensures forall src, kind, dst :: EdgeIn(a + b, src, kind, dst) <==>
        EdgeIn(a, src, kind, dst) || EdgeIn(b, src, kind, dst)
  {
  }

  // ---- inventory ----------------------------------------------------------------------------

  predicate IsHostAsset(a: Asset) { a.isAgentHost && a.location != "" }

  predicate IsOpenSocket(a: Asset) { !IsHostAsset(a) && a.bind.Some? && !a.bind.value.LoopbackTier? }

  ghost predicate InventoryNode(a: Asset, id: string) {
    (IsHostAsset(a) && id == HostId(a.location)) || (IsOpenSocket(a) && id == EntryId(a.location))
  }

  function DrawAsset(a: Asset, nodes: map<string, Node>): map<string, Node> {
    if IsHostAsset(a) then SetDefault(nodes, HostNode(a.location, if a.host != "" then a.host else a.product))
    else if IsOpenSocket(a) then SetDefault(nodes, SocketNode(a))
    else nodes
  }

  function AssetNode(a: Asset): Node
    requires IsHostAsset(a) || IsOpenSocket(a)
  {
    if IsHostAsset(a) then HostNode(a.location, if a.host != "" then a.host else a.product) else SocketNode(a)
  }

  /** An asset is drawn as a host when it is an agent host with a location, and otherwise as an
      entry when it is bound to anything but loopback. */
  lemma AssetDrawnIff(a: Asset, id: string)
    ensures InventoryNode(a, id) <==>
      if a.isAgentHost && a.location != "" then id == "host:" + a.location
      else a.bind in {Some(PrivateLanTier), Some(PublicRoutableTier), Some(WildcardTier)} && id == "entry:" + a.location
  {
  }

  /** What such a node shows: the host's name, or the product's in its place, and the reach of a
      socket's address. */
  lemma AssetNodeShows(a: Asset)
    requires IsHostAsset(a) || IsOpenSocket(a)
    ensures AssetNode(a) ==
      if a.isAgentHost && a.location != "" then
        var name := if a.host == "" then a.product else a.host;
        Node("host:" + a.location, AgentHost, name, HostFacts(a.location, name))
      else
        var reach :=
          if a.bind == Some(PrivateLanTier) then PrivateLan
          else if a.bind == Some(PublicRoutableTier) then PublicRoutable else Wildcard;
        Node("entry:" + a.location, Entry, a.product, EntryFacts(reach, a.location))
  {
  }

  /** Asset i is the first with the node's identifier, and the node is drawn from it. */
  ghost predicate DrawnFrom(assets: seq<Asset>, i: nat, n: Node) {
    i < |assets| && InventoryNode(assets[i], n.id) && n == AssetNode(assets[i]) && !InventoriedBy(assets, i, n.id)
  }

  /** One of the first k assets has the identifier. */
  ghost predicate InventoriedBy(assets: seq<Asset>, k: nat, id: string) {
    exists j :: 0 <= j < k && j < |assets| && InventoryNode(assets[j], id)
  }

  /** Host and socket nodes from the inventory: those of the first asset with each identifier. What
      is already drawn stays. */
  method AddInventory(assets: seq<Asset>, before: map<string, Node>, ghost profiles: seq<Profile>)
    returns (nodes: map<string, Node>)
    requires Typed(before) && EntriesStated(profiles, before)
    ensures Typed(nodes) && Keeps(before, nodes) && EntriesStated(profiles, nodes)
    ensures forall id :: id in nodes <==> id in before || InventoriedBy(assets, |assets|, id)
    ensures forall id :: id in nodes && id !in before ==> exists i :: DrawnFrom(assets, i, nodes[id])
  {
    nodes := before;
    for i := 0 to |assets|
      invariant Typed(nodes) && Keeps(before, nodes) && EntriesStated(profiles, nodes)
      invariant forall id :: id in nodes <==> id in before || InventoriedBy(assets, i, id)
      invariant forall id :: id in nodes && id !in before ==> exists j :: DrawnFrom(assets, j, nodes[id])
    {
      AssetShape(profiles, assets[i], nodes);
      forall id ensures InventoriedBy(assets, i + 1, id) <==>
          InventoriedBy(assets, i, id) || InventoryNode(assets[i], id) { }
      forall id | InventoryNode(assets[i], id) && id !in nodes ensures DrawnFrom(assets, i, AssetNode(assets[i])) { }
      nodes := DrawAsset(assets[i], nodes);
    }
  }

  lemma AssetShape(profiles: seq<Profile>, a: Asset, nodes: map<string, Node>)
    requires Typed(nodes) && EntriesStated(profiles, nodes)
    ensures var after := DrawAsset(a, nodes);
      && Typed(after) && EntriesStated(profiles, after) && Keeps(nodes, after)
      && forall id :: id in after <==> id in nodes || InventoryNode(a, id)
    ensures forall id :: InventoryNode(a, id) && id !in nodes ==> DrawAsset(a, nodes)[id] == AssetNode(a)
  {
    IdsTellKinds(a.location, ("", 0));
  }

  // ---- credentials joined across every holder -----------------------------------------------

  predicate Named(names: map<CredKey, multiset<string>>, k: CredKey, name: string) {
    k in names && name in names[k]
  }

  /** How often a credential goes by a name. */
  function Times(names: map<CredKey, multiset<string>>, k: CredKey, name: string): nat {
    if k in names then names[k][name] else 0
  }

  /** How often one subject lists a reference, when the subject is profiled at all. */
  ghost function ListedBy(inp: Inputs, s: string, r: CredRef): nat {
    if Profiled(inp, s) && s in inp.holders then multiset(inp.holders[s])[r] else 0
  }

  /** How often a set of subjects lists a reference. */
  ghost function Listed(inp: Inputs, subjects: set<string>, r: CredRef): nat {
    if subjects == {} then 0
    else
      var s :| s in subjects;
      Listed(inp, subjects - {s}, r) + ListedBy(inp, s, r)
  }

  lemma {:induction false} ListedWithout(inp: Inputs, subjects: set<string>, r: CredRef, s: string)
    requires s in subjects
    ensures Listed(inp, subjects, r) == Listed(inp, subjects - {s}, r) + ListedBy(inp, s, r)
  {
    var t :| t in subjects && Listed(inp, subjects, r) == Listed(inp, subjects - {t}, r) + ListedBy(inp, t, r);
    if t != s {
      ListedWithout(inp, subjects - {t}, r, s);
      ListedWithout(inp, subjects - {s}, r, t);
      assert subjects - {t} - {s} == subjects - {s} - {t};
    }
  }

  /** Who holds each credential, and how often under which key names, whatever the order of the
      subjects. */
  method JoinCredentials(inp: Inputs, serverIds: set<string>)
    returns (holders: map<CredKey, set<string>>, names: map<CredKey, multiset<string>>)
    requires forall s :: ServerId(s) in serverIds <==> Profiled(inp, s)
    ensures forall k, s :: InRow(holders, k, s) <==> Holder(inp, s, k)
    ensures forall k, name :: Named(names, k, name) <==> exists s :: HasRef(inp, s, k, name)
    ensures forall k, name :: Times(names, k, name) == Listed(inp, inp.holders.Keys, CredRef(name, k.0, k.1))
    ensures holders.Keys == names.Keys
    ensures forall k :: k in names ==> names[k] != multiset{}
  {
    holders, names := map[], map[];
    var todo := inp.holders.Keys;
    while todo != {}
      invariant todo <= inp.holders.Keys
      invariant forall k, s :: InRow(holders, k, s) <==> s !in todo && Holder(inp, s, k)
      invariant forall k, name :: Named(names, k, name) <==> exists s :: s !in todo && HasRef(inp, s, k, name)
      invariant forall k, name :: Times(names, k, name) == Listed(inp, inp.holders.Keys - todo, CredRef(name, k.0, k.1))
      invariant holders.Keys == names.Keys
      invariant forall k :: k in names ==> names[k] != multiset{}
      decreases todo
    {
      var subject :| subject in todo;
      assert inp.holders.Keys - (todo - {subject}) - {subject} == inp.holders.Keys - todo;
      forall r { ListedWithout(inp, inp.holders.Keys - (todo - {subject}), r, subject); }
      todo := todo - {subject};
      if ServerId(subject) !in serverIds {
        assert forall k, name :: !HasRef(inp, subject, k, name);
        continue;
      }
      ghost var holders0, names0 := holders, names;
      holders, names := JoinSubject(subject, inp.holders[subject], holders, names);
      forall k, s ensures InRow(holders, k, s) <==> s !in todo && Holder(inp, s, k) {
        if s == subject {
          SubjectHolds(inp, subject, k);
        }
      }
      forall k, name ensures Named(names, k, name) <==> exists s :: s !in todo && HasRef(inp, s, k, name) {
        assert HasRef(inp, subject, k, name) <==> CredRef(name, k.0, k.1) in multiset(inp.holders[subject]);
        assert Named(names, k, name) <==> Times(names, k, name) > 0;
        assert Named(names0, k, name) <==> Times(names0, k, name) > 0;
      }
    }
    assert inp.holders.Keys - todo == inp.holders.Keys;
  }

  lemma SubjectHolds(inp: Inputs, s: string, k: CredKey)
    requires Profiled(inp, s) && s in inp.holders
    ensures Holder(inp, s, k) <==> exists r :: r in inp.holders[s] && r.Key() == k
  {
    if r :| r in inp.holders[s] && r.Key() == k {
      assert r == CredRef(r.envKey, k.0, k.1);
      assert HasRef(inp, s, k, r.envKey);
    }
    if Holder(inp, s, k) {
      var name :| HasRef(inp, s, k, name);
      assert CredRef(name, k.0, k.1).Key() == k;
    }
  }

  function AlsoHeld(holders: map<CredKey, set<string>>, key: CredKey, subject: string): map<CredKey, set<string>> {
    holders[key := (if key in holders then holders[key] else {}) + {subject}]
  }

  function AlsoNamed(names: map<CredKey, multiset<string>>, key: CredKey, name: string)
    : map<CredKey, multiset<string>>
  {
    names[key := (if key in names then names[key] else multiset{}) + multiset{name}]
  }

  lemma AlsoHeldRows(holders: map<CredKey, set<string>>, key: CredKey, subject: string)
    ensures forall k, s :: InRow(AlsoHeld(holders, key, subject), k, s) <==>
      InRow(holders, k, s) || (s == subject && k == key)
  {
  }

  lemma AlsoNamedTimes(names: map<CredKey, multiset<string>>, r: CredRef)
    ensures forall k, name ::
      Times(AlsoNamed(names, r.Key(), r.envKey), k, name)
        == Times(names, k, name) + (if CredRef(name, k.0, k.1) == r then 1 else 0)
  {
    forall k, name ensures (k == r.Key() && name == r.envKey) <==> CredRef(name, k.0, k.1) == r { }
  }

  ghost predicate Refers(refs: seq<CredRef>, k: CredKey) { exists r :: r in refs && r.Key() == k }

  lemma OneMoreRef(refs: seq<CredRef>, i: nat)
    requires i < |refs|
    ensures forall r :: multiset(refs[..i + 1])[r] == multiset(refs[..i])[r] + (if r == refs[i] then 1 else 0)
    ensures forall k :: Refers(refs[..i + 1], k) <==> Refers(refs[..i], k) || k == refs[i].Key()
  {
    assert refs[..i + 1] == refs[..i] + [refs[i]];
    forall k ensures Refers(refs[..i + 1], k) <==> Refers(refs[..i], k) || k == refs[i].Key() {
      assert refs[i] in refs[..i + 1];
      if Refers(refs[..i], k) {
        var r :| r in refs[..i] && r.Key() == k;
        assert r in refs[..i + 1];
      }
    }
  }

  method JoinSubject(subject: string, refs: seq<CredRef>, holders0: map<CredKey, set<string>>,
                     names0: map<CredKey, multiset<string>>)
    returns (holders: map<CredKey, set<string>>, names: map<CredKey, multiset<string>>)
    requires holders0.Keys == names0.Keys && forall k :: k in names0 ==> names0[k] != multiset{}
    ensures forall k, s :: InRow(holders, k, s) <==>
        InRow(holders0, k, s) || (s == subject && Refers(refs, k))
    ensures forall k, name :: Times(names, k, name) == Times(names0, k, name) + multiset(refs)[CredRef(name, k.0, k.1)]
    ensures holders.Keys == names.Keys && forall k :: k in names ==> names[k] != multiset{}
  {
    holders, names := holders0, names0;
    for i := 0 to |refs|
      invariant forall k, s :: InRow(holders, k, s) <==>
          InRow(holders0, k, s) || (s == subject && Refers(refs[..i], k))
      invariant forall k, name ::
          Times(names, k, name) == Times(names0, k, name) + multiset(refs[..i])[CredRef(name, k.0, k.1)]
      invariant holders.Keys == names.Keys && forall k :: k in names ==> names[k] != multiset{}
    {
      var r := refs[i];
      OneMoreRef(refs, i);
      AlsoHeldRows(holders, r.Key(), subject);
      AlsoNamedTimes(names, r);
      holders, names := AlsoHeld(holders, r.Key(), subject), AlsoNamed(names, r.Key(), r.envKey);
    }
    assert refs[..|refs|] == refs;
  }

  /** The most frequent key name; among equally frequent ones, the smallest. */
  ghost predicate BestName(names: multiset<string>, best: string) {
    best in names && forall n :: n in names ==>
      names[n] < names[best] || (names[n] == names[best] && KeyLe([Codes(best)], [Codes(n)]))
  }

  method MostCommon(names: multiset<string>) returns (best: string)
    requires names != multiset{}
    ensures BestName(names, best)
  {
    var todo := set n | n in names;
    best :| best in names;
    KeyTotal([Codes(best)], [Codes(best)]);
    todo := todo - {best};
    while todo != {}
      invariant best in names
      invariant forall n :: n in names && n !in todo ==>
          names[n] < names[best] || (names[n] == names[best] && KeyLe([Codes(best)], [Codes(n)]))
      decreases todo
    {
      var n :| n in todo;
      KeyTotal([Codes(best)], [Codes(n)]);
      KeyTotal([Codes(n)], [Codes(n)]);
      if names[n] > names[best] || (names[n] == names[best] && !KeyLe([Codes(best)], [Codes(n)])) {
        forall m | m in names && m !in todo && names[m] == names[best] == names[n]
          ensures KeyLe([Codes(n)], [Codes(m)]) {
          KeyTransitive([Codes(n)], [Codes(best)], [Codes(m)]);
        }
        best := n;
      }
      todo := todo - {n};
    }
  }

  function TargetsOf(names: multiset<string>): set<TargetInfo> {
    set n | n in names && InferTarget(n).Some? :: InferTarget(n).value
  }

  function CredentialNode(k: CredKey, holders: set<string>, name: string): Node {
    Node(CredId(k), Credential, name, CredentialFacts("sha256:" + k.0, |holders|, k.1))
  }

  /** What is drawn and noted of one credential. */
  ghost predicate CredentialDone(k: CredKey, holders: set<string>, names: multiset<string>, nodes: map<string, Node>,
                                 labels: map<CredKey, string>, targets: map<CredKey, set<TargetInfo>>) {
    && k in labels && BestName(names, labels[k])
    && CredId(k) in nodes && nodes[CredId(k)] == CredentialNode(k, holders, labels[k])
    && k in targets && targets[k] == TargetsOf(names)
  }

  lemma CredIdInjective(a: CredKey, b: CredKey)
    requires CredId(a) == CredId(b)
    ensures a == b
  {
    assert "cred:" + a.0 + [':'] + Digits(a.1) == "cred:" + b.0 + [':'] + Digits(b.1);
    LastSeparator(':', "cred:" + a.0, Digits(a.1), "cred:" + b.0, Digits(b.1));
    DigitsInjective(a.1, b.1);
    assert a.0 == ("cred:" + a.0)[5..] && b.0 == ("cred:" + b.0)[5..];
  }

  lemma OthersStayDone(k: CredKey, j: CredKey, holders: set<string>, names: multiset<string>, nodes: map<string, Node>,
                       labels: map<CredKey, string>, targets: map<CredKey, set<TargetInfo>>, node: Node,
                       best: string, found: set<TargetInfo>)
    requires CredentialDone(j, holders, names, nodes, labels, targets) && j != k
    ensures CredentialDone(j, holders, names, nodes[CredId(k) := node], labels[k := best], targets[k := found])
  {
    if CredId(j) == CredId(k) { CredIdInjective(j, k); }
  }

  ghost predicate AllDone(keys: set<CredKey>, holders: map<CredKey, set<string>>,
                          names: map<CredKey, multiset<string>>, nodes: map<string, Node>,
                          labels: map<CredKey, string>, targets: map<CredKey, set<TargetInfo>>)
  {
    forall k :: k in keys ==>
      k in holders && k in names && CredentialDone(k, holders[k], names[k], nodes, labels, targets)
  }

  lemma OneMoreDone(keys: set<CredKey>, k: CredKey, holders: map<CredKey, set<string>>,
                    names: map<CredKey, multiset<string>>, nodes: map<string, Node>, labels: map<CredKey, string>,
                    targets: map<CredKey, set<TargetInfo>>, best: string)
    requires AllDone(keys, holders, names, nodes, labels, targets) && k in holders && k in names && k !in keys
    requires BestName(names[k], best)
    ensures AllDone(keys + {k}, holders, names, nodes[CredId(k) := CredentialNode(k, holders[k], best)],
                    labels[k := best], targets[k := TargetsOf(names[k])])
  {
    forall j | j in keys
      ensures CredentialDone(j, holders[j], names[j], nodes[CredId(k) := CredentialNode(k, holders[k], best)],
                             labels[k := best], targets[k := TargetsOf(names[k])]) {
      OthersStayDone(k, j, holders[j], names[j], nodes, labels, targets, CredentialNode(k, holders[k], best), best,
                     TargetsOf(names[k]));
    }
  }

  /** Credential nodes, their labels and the targets their key names infer. */
  method AddCredentials(holders: map<CredKey, set<string>>, names: map<CredKey, multiset<string>>,
                        before: map<string, Node>)
    returns (nodes: map<string, Node>, labels: map<CredKey, string>, targets: map<CredKey, set<TargetInfo>>)
    requires Typed(before) && holders.Keys == names.Keys && forall k :: k in names ==> names[k] != multiset{}
    ensures CredentialsDrawn(before, names.Keys, nodes)
    ensures labels.Keys == targets.Keys == names.Keys
    ensures AllDone(names.Keys, holders, names, nodes, labels, targets)
  {
    nodes, labels, targets := before, map[], map[];
    var todo := names.Keys;
    ghost var done: set<CredKey> := {};
    while todo != {}
      invariant done !! todo && done + todo == names.Keys && labels.Keys == targets.Keys == done
      invariant CredentialsDrawn(before, done, nodes) && AllDone(done, holders, names, nodes, labels, targets)
      decreases todo
    {
      var k :| k in todo;
      MoveOver(done, todo, k);
      nodes, labels, targets := DrawCredential(k, holders, names, nodes, labels, targets, before, done);
      todo, done := todo - {k}, done + {k};
    }
  }

  lemma MoveOver<T>(done: set<T>, todo: set<T>, x: T)
    requires done !! todo && x in todo
    ensures done + {x} !! todo - {x} && done + {x} + (todo - {x}) == done + todo
  {
  }

  /** Draws and notes one credential. */
  method DrawCredential(k: CredKey, holders: map<CredKey, set<string>>, names: map<CredKey, multiset<string>>,
                        nodes0: map<string, Node>, labels0: map<CredKey, string>,
                        targets0: map<CredKey, set<TargetInfo>>, ghost before: map<string, Node>,
                        ghost done: set<CredKey>)
    returns (nodes: map<string, Node>, labels: map<CredKey, string>, targets: map<CredKey, set<TargetInfo>>)
    requires k in holders && k in names && k !in done && names[k] != multiset{}
    requires CredentialsDrawn(before, done, nodes0) && AllDone(done, holders, names, nodes0, labels0, targets0)
    ensures CredentialsDrawn(before, done + {k}, nodes) && AllDone(done + {k}, holders, names, nodes, labels, targets)
    ensures labels.Keys == labels0.Keys + {k} && targets.Keys == targets0.Keys + {k}
  {
    var best := MostCommon(names[k]);
    OneMoreDrawn(before, done, k, holders[k], nodes0, best);
    OneMoreDone(done, k, holders, names, nodes0, labels0, targets0, best);
    nodes := nodes0[CredId(k) := CredentialNode(k, holders[k], best)];
    labels, targets := labels0[k := best], targets0[k := TargetsOf(names[k])];
  }

  ghost predicate CredentialsDrawn(before: map<string, Node>, keys: set<CredKey>, nodes: map<string, Node>) {
    && Typed(nodes) && Keeps(before, nodes)
    && forall id :: id in nodes <==> id in before || InCredIds(keys, id)
  }

  lemma OneMoreDrawn(before: map<string, Node>, keys: set<CredKey>, k: CredKey, holders: set<string>,
                     nodes: map<string, Node>, best: string)
    requires CredentialsDrawn(before, keys, nodes)
    ensures CredentialsDrawn(before, keys + {k}, nodes[CredId(k) := CredentialNode(k, holders, best)])
  {
    CredentialDrawn(nodes, k, CredentialNode(k, holders, best));
    CredIdsGrow(keys, k);
  }

  ghost predicate InCredIds(keys: set<CredKey>, id: string) {
    exists k :: k in keys && id == CredId(k)
  }

  lemma CredIdsGrow(keys: set<CredKey>, k: CredKey)
    ensures forall id :: InCredIds(keys + {k}, id) <==> InCredIds(keys, id) || id == CredId(k)
  {
  }

  lemma CredentialDrawn(nodes: map<string, Node>, k: CredKey, node: Node)
    requires Typed(nodes) && node.id == CredId(k) && node.kind == Credential
    ensures Typed(nodes[CredId(k) := node]) && Keeps(nodes, nodes[CredId(k) := node])
  {
  }

  // ---- edges from credentials ---------------------------------------------------------------

  function HoldsEdges(k: CredKey, holders: set<string>, name: string): set<Edge> {
    set s | s in holders :: Edge(ServerId(s), CredId(k), Holds, name)
  }

  function SharedEdges(k: CredKey, holders: set<string>): set<Edge> {
    if |holders| < 2 then {}
    else set s | s in holders :: Edge(CredId(k), ServerId(s), SharedWith,
        "shared across " + Digits(|holders|) + " tools")
  }

  function UnlocksEdges(k: CredKey, targets: set<TargetInfo>): set<Edge> {
    set t | t in targets :: Edge(CredId(k), TargetId(t.id), Unlocks, t.name)
  }

  function CredentialEdges(k: CredKey, holders: set<string>, targets: set<TargetInfo>, name: string): set<Edge> {
    HoldsEdges(k, holders, name) + SharedEdges(k, holders) + UnlocksEdges(k, targets)
  }

  lemma HoldsEdgesAre(k: CredKey, holders: set<string>, name: string, src: string, kind: EdgeKind, dst: string)
    ensures EdgeIn(HoldsEdges(k, holders, name), src, kind, dst) <==>
      (kind.Holds? && exists s :: s in holders && src == ServerId(s) && dst == CredId(k))
  {
    if s :| s in holders && src == ServerId(s) && dst == CredId(k) {
      assert Edge(ServerId(s), CredId(k), Holds, name) in HoldsEdges(k, holders, name);
    }
  }

  lemma SharedEdgesAre(k: CredKey, holders: set<string>, src: string, kind: EdgeKind, dst: string)
    ensures EdgeIn(SharedEdges(k, holders), src, kind, dst) <==>
      (kind.SharedWith? && exists s :: s in holders && holders != {s} && src == CredId(k) && dst == ServerId(s))
  {
    forall s | s in holders ensures holders == {s} <==> |holders| < 2 {
      assert |holders - {s}| == |holders| - 1;
      assert |holders - {s}| == 0 ==> holders == {s};
    }
    if s :| s in holders && holders != {s} && src == CredId(k) && dst == ServerId(s) {
      assert Edge(CredId(k), ServerId(s), SharedWith,
          "shared across " + Digits(|holders|) + " tools") in SharedEdges(k, holders);
    }
  }

  lemma UnlocksEdgesAre(k: CredKey, targets: set<TargetInfo>, src: string, kind: EdgeKind, dst: string)
    ensures EdgeIn(UnlocksEdges(k, targets), src, kind, dst) <==>
      (kind.Unlocks? && exists t :: t in targets && src == CredId(k) && dst == TargetId(t.id))
  {
    if t :| t in targets && src == CredId(k) && dst == TargetId(t.id) {
      assert Edge(CredId(k), TargetId(t.id), Unlocks, t.name) in UnlocksEdges(k, targets);
    }
  }

  lemma CredentialEdgesAre(k: CredKey, holders: set<string>, targets: set<TargetInfo>, name: string)
    ensures forall src, kind, dst :: (EdgeIn(CredentialEdges(k, holders, targets, name), src, kind, dst)
        <==> CredentialEdge(k, holders, targets, src, kind, dst))
  {
    forall src, kind, dst ensures (EdgeIn(CredentialEdges(k, holders, targets, name), src, kind, dst)
        <==> CredentialEdge(k, holders, targets, src, kind, dst))
    {
      HoldsEdgesAre(k, holders, name, src, kind, dst);
      SharedEdgesAre(k, holders, src, kind, dst);
      UnlocksEdgesAre(k, targets, src, kind, dst);
      EdgesJoin(HoldsEdges(k, holders, name), SharedEdges(k, holders));
      EdgesJoin(HoldsEdges(k, holders, name) + SharedEdges(k, holders), UnlocksEdges(k, targets));
    }
  }

  method AddTargets(targets: set<TargetInfo>, before: map<string, Node>) returns (nodes: map<string, Node>)
    requires Typed(before)
    ensures Typed(nodes) && Keeps(before, nodes)
    ensures forall id :: id in nodes <==> id in before || exists t :: t in targets && id == TargetId(t.id)
  {
    nodes := before;
    var todo := targets;
    while todo != {}
      invariant todo <= targets && Typed(nodes) && Keeps(before, nodes)
      invariant forall id :: id in nodes <==> id in before || exists t :: t in targets - todo && id == TargetId(t.id)
      decreases todo
    {
      var t :| t in todo;
      IdsTellKinds(t.id, ("", 0));
      nodes := SetDefault(nodes, TargetNode(t, "credential-unlocked"));
      todo := todo - {t};
    }
  }

  ghost predicate PivotEdge(holders: map<CredKey, set<string>>, targets: map<CredKey, set<TargetInfo>>,
                            keys: set<CredKey>,
                            src: string, kind: EdgeKind, dst: string) {
    exists k :: k in keys && k in holders && k in targets && CredentialEdge(k, holders[k], targets[k], src, kind, dst)
  }

  ghost predicate PivotTarget(targets: map<CredKey, set<TargetInfo>>, keys: set<CredKey>, id: string) {
    exists k, t :: k in keys && k in targets && t in targets[k] && id == TargetId(t.id)
  }

  /** HOLDS, SHARED_WITH and UNLOCKS edges, and the targets they need, credential by credential. */
  method AddPivots(holders: map<CredKey, set<string>>, labels: map<CredKey, string>,
                   targets: map<CredKey, set<TargetInfo>>,
                   nodes0: map<string, Node>, edges0: set<Edge>)
    returns (nodes: map<string, Node>, edges: set<Edge>)
    requires labels.Keys == targets.Keys == holders.Keys && Typed(nodes0) && ClosedOver(nodes0, edges0)
    requires forall k :: k in holders ==> CredId(k) in nodes0
    requires forall k, s :: InRow(holders, k, s) ==> ServerId(s) in nodes0
    ensures Typed(nodes) && Keeps(nodes0, nodes) && ClosedOver(nodes, edges)
    ensures forall src, kind, dst :: EdgeIn(edges, src, kind, dst) <==>
        EdgeIn(edges0, src, kind, dst) || PivotEdge(holders, targets, holders.Keys, src, kind, dst)
    ensures forall id :: id in nodes <==> id in nodes0 || PivotTarget(targets, holders.Keys, id)
  {
    nodes, edges := nodes0, edges0;
    var todo := holders.Keys;
    while todo != {}
      invariant todo <= holders.Keys
      invariant Typed(nodes) && Keeps(nodes0, nodes) && ClosedOver(nodes, edges)
      invariant forall src, kind, dst :: EdgeIn(edges, src, kind, dst) <==>
          EdgeIn(edges0, src, kind, dst) || PivotEdge(holders, targets, holders.Keys - todo, src, kind, dst)
      invariant forall id :: id in nodes <==> id in nodes0 || PivotTarget(targets, holders.Keys - todo, id)
      decreases todo
    {
      var k :| k in todo;
      forall s | s in holders[k] ensures ServerId(s) in nodes0 { assert InRow(holders, k, s); }
      ghost var done := holders.Keys - todo;
      ghost var nodes1, edges1 := nodes, edges;
      nodes, edges := AddCredential(k, holders[k], targets[k], labels[k], nodes, edges);
      todo := todo - {k};
      assert holders.Keys - todo == done + {k};
      PivotRound(holders, targets, done, k, edges0, edges1, edges);
      TargetRound(targets, done, k, nodes0, nodes1, nodes);
    }
    assert holders.Keys - todo == holders.Keys;
  }

  lemma PivotRound(holders: map<CredKey, set<string>>, targets: map<CredKey, set<TargetInfo>>, done: set<CredKey>,
                   k: CredKey,
                   edges0: set<Edge>, edges1: set<Edge>, edges: set<Edge>)
    requires k in holders && k in targets
    requires forall src, kind, dst :: EdgeIn(edges1, src, kind, dst) <==>
        EdgeIn(edges0, src, kind, dst) || PivotEdge(holders, targets, done, src, kind, dst)
    requires forall src, kind, dst :: EdgeIn(edges, src, kind, dst) <==>
        EdgeIn(edges1, src, kind, dst) || CredentialEdge(k, holders[k], targets[k], src, kind, dst)
    ensures forall src, kind, dst :: EdgeIn(edges, src, kind, dst) <==>
        EdgeIn(edges0, src, kind, dst) || PivotEdge(holders, targets, done + {k}, src, kind, dst)
  {
  }

  lemma TargetRound(targets: map<CredKey, set<TargetInfo>>, done: set<CredKey>, k: CredKey,
                    nodes0: map<string, Node>, nodes1: map<string, Node>, nodes: map<string, Node>)
    requires k in targets
    requires forall id :: id in nodes1 <==> id in nodes0 || PivotTarget(targets, done, id)
    requires forall id :: id in nodes <==> id in nodes1 || exists t :: t in targets[k] && id == TargetId(t.id)
    ensures forall id :: id in nodes <==> id in nodes0 || PivotTarget(targets, done + {k}, id)
  {
  }

  method AddCredential(k: CredKey, holders: set<string>, targets: set<TargetInfo>, name: string,
                       nodes0: map<string, Node>, edges0: set<Edge>)
    returns (nodes: map<string, Node>, edges: set<Edge>)
    requires Typed(nodes0) && ClosedOver(nodes0, edges0)
    requires CredId(k) in nodes0 && forall s :: s in holders ==> ServerId(s) in nodes0
    ensures Typed(nodes) && Keeps(nodes0, nodes) && ClosedOver(nodes, edges)
    ensures forall src, kind, dst :: EdgeIn(edges, src, kind, dst) <==>
        EdgeIn(edges0, src, kind, dst) || CredentialEdge(k, holders, targets, src, kind, dst)
    ensures forall id :: id in nodes <==> id in nodes0 || exists t :: t in targets && id == TargetId(t.id)
  {
    var more := CredentialEdges(k, holders, targets, name);
    CredentialEdgesAre(k, holders, targets, name);
    EdgesJoin(edges0, more);
    nodes := AddTargets(targets, nodes0);
    edges := edges0 + more;
  }

  // ---- what privileged servers can do -------------------------------------------------------

  function ActionEdges(p: Profile, refs: seq<CredRef>, targets: map<CredKey, set<TargetInfo>>): set<Edge> {
    (if p.Has(ToolPrivilege)
     then set r, t | r in refs && r.Key() in targets && t in targets[r.Key()] ::
            Edge(ServerId(p.subject), TargetId(t.id), CanAct, "wields privileged tools")
     else {})
    + (if HasDangerousTools(p)
       then {Edge(ServerId(p.subject), TargetId(SHELL.id), CanAct, "auto-approved dangerous tool")} else {})
  }

  lemma ActionEdgesAre(p: Profile, refs: seq<CredRef>, targets: map<CredKey, set<TargetInfo>>)
    ensures forall src, kind, dst :: (EdgeIn(ActionEdges(p, refs, targets), src, kind, dst)
        <==> ActionEdge(p, refs, targets, src, kind, dst))
  {
  }

  /** The texts that edges and drawn nodes carry. */
  lemma EdgeTexts(p: Profile, e: Edge, refs: seq<CredRef>, targets: map<CredKey, set<TargetInfo>>)
    ensures e in ProfileEdges(p) ==>
      e.detail == (if e.kind == Hosts then "declares"
                   else if ReachLabel(p) == PrivateLan then "private LAN"
                   else if ReachLabel(p) == WildcardOrPublic then "wildcard / public" else "")
    ensures e in ActionEdges(p, refs, targets) ==>
      e.detail == "wields privileged tools"
      || (e.detail == "auto-approved dangerous tool" && HasDangerousTools(p) && e.dst == "target:local_shell")
    ensures SHELL.name == "Local filesystem / shell" && EntryNode(p).detail.surface == "network bind hint"
  {
  }

  function RefsOf(inp: Inputs, s: string): seq<CredRef> {
    if s in inp.holders then inp.holders[s] else []
  }

  ghost predicate ActedOn(inp: Inputs, profiles: seq<Profile>, targets: map<CredKey, set<TargetInfo>>,
                          src: string, kind: EdgeKind, dst: string) {
    exists p :: p in profiles && ActionEdge(p, RefsOf(inp, p.subject), targets, src, kind, dst)
  }

  function DrawShell(p: Profile, nodes: map<string, Node>): map<string, Node> {
    if HasDangerousTools(p) then SetDefault(nodes, TargetNode(SHELL, "dangerous-tool")) else nodes
  }

  lemma ShellShape(p: Profile, nodes: map<string, Node>)
    requires Typed(nodes)
    ensures Typed(DrawShell(p, nodes)) && Keeps(nodes, DrawShell(p, nodes))
    ensures forall id :: id in DrawShell(p, nodes) <==>
        id in nodes || (id == TargetId(SHELL.id) && HasDangerousTools(p))
  {
  }

  lemma ActionsClosed(p: Profile, refs: seq<CredRef>, targets: map<CredKey, set<TargetInfo>>, nodes: map<string, Node>)
    requires ServerId(p.subject) in nodes && (HasDangerousTools(p) ==> TargetId(SHELL.id) in nodes)
    requires forall k, t :: k in targets && t in targets[k] ==> TargetId(t.id) in nodes
    ensures ClosedOver(nodes, ActionEdges(p, refs, targets))
  {
  }

  lemma ActedRound(inp: Inputs, targets: map<CredKey, set<TargetInfo>>, i: nat, edges0: set<Edge>, edges: set<Edge>)
    requires i < |inp.profiles|
    requires forall src, kind, dst :: EdgeIn(edges, src, kind, dst) <==>
        EdgeIn(edges0, src, kind, dst) || ActedOn(inp, inp.profiles[..i], targets, src, kind, dst)
    ensures var p := inp.profiles[i];
      forall src, kind, dst :: EdgeIn(edges + ActionEdges(p, RefsOf(inp, p.subject), targets), src, kind, dst) <==>
        EdgeIn(edges0, src, kind, dst) || ActedOn(inp, inp.profiles[..i + 1], targets, src, kind, dst)
  {
    var p := inp.profiles[i];
    assert inp.profiles[..i + 1] == inp.profiles[..i] + [p];
    ActionEdgesAre(p, RefsOf(inp, p.subject), targets);
    EdgesJoin(edges, ActionEdges(p, RefsOf(inp, p.subject), targets));
  }

  method AddActions(inp: Inputs, targets: map<CredKey, set<TargetInfo>>, nodes0: map<string, Node>, edges0: set<Edge>)
    returns (nodes: map<string, Node>, edges: set<Edge>)
    requires Typed(nodes0) && ClosedOver(nodes0, edges0)
    requires forall p :: p in inp.profiles ==> ServerId(p.subject) in nodes0
    requires forall k, t :: k in targets && t in targets[k] ==> TargetId(t.id) in nodes0
    ensures Typed(nodes) && Keeps(nodes0, nodes) && ClosedOver(nodes, edges)
    ensures forall src, kind, dst :: EdgeIn(edges, src, kind, dst) <==>
        EdgeIn(edges0, src, kind, dst) || ActedOn(inp, inp.profiles, targets, src, kind, dst)
    ensures forall id :: id in nodes <==> id in nodes0 || (id == TargetId(SHELL.id) && SomeDangerous(inp.profiles))
  {
    nodes, edges := nodes0, edges0;
    for i := 0 to |inp.profiles|
      invariant Typed(nodes) && Keeps(nodes0, nodes) && ClosedOver(nodes, edges)
      invariant forall src, kind, dst :: EdgeIn(edges, src, kind, dst) <==>
          EdgeIn(edges0, src, kind, dst) || ActedOn(inp, inp.profiles[..i], targets, src, kind, dst)
      invariant forall id :: id in nodes <==>
          id in nodes0 || (id == TargetId(SHELL.id) && SomeDangerous(inp.profiles[..i]))
    {
      var p := inp.profiles[i];
      assert inp.profiles[..i + 1] == inp.profiles[..i] + [p];
      var more := ActionEdges(p, RefsOf(inp, p.subject), targets);
      ActedRound(inp, targets, i, edges0, edges);
      ShellShape(p, nodes);
      nodes := DrawShell(p, nodes);
      ActionsClosed(p, RefsOf(inp, p.subject), targets, nodes);
      edges := edges + more;
    }
    assert inp.profiles[..|inp.profiles|] == inp.profiles;
  }

  ghost predicate SomeDangerous(profiles: seq<Profile>) {
    exists p :: p in profiles && HasDangerousTools(p)
  }

  // ---- the whole builder --------------------------------------------------------------------

  /** Exactly which edges the graph has, in terms of the inputs. */
  ghost predicate EdgeSpec(inp: Inputs, src: string, kind: EdgeKind, dst: string) {
    match kind
    case Hosts => exists p :: p in inp.profiles && src == HostId(p.location) && dst == ServerId(p.subject)
    case Reaches => exists p ::
      p in inp.profiles && p.Has(ExposureReach) && src == EntryId(p.subject) && dst == ServerId(p.subject)
    case Holds => exists s, k :: Holder(inp, s, k) && src == ServerId(s) && dst == CredId(k)
    case SharedWith => exists s, k :: SharedBy(inp, s, k) && src == CredId(k) && dst == ServerId(s)
    case Unlocks => exists k, t :: Opens(inp, k, t) && src == CredId(k) && dst == TargetId(t.id)
    case CanAct => exists p, t ::
      p in inp.profiles && CanActOn(inp, p, t) && src == ServerId(p.subject) && dst == TargetId(t.id)
  }

  /** s holds k and so does some other profiled subject. */
  ghost predicate SharedBy(inp: Inputs, s: string, k: CredKey) {
    Holder(inp, s, k) && exists other :: other != s && Holder(inp, other, k)
  }

  ghost predicate CanActOn(inp: Inputs, p: Profile, t: TargetInfo) {
    || (p.Has(ToolPrivilege) && exists k :: Holder(inp, p.subject, k) && Opens(inp, k, t))
    || (HasDangerousTools(p) && t == SHELL)
  }

  /** Exactly which nodes the graph has. */
  ghost predicate NodeSpec(inp: Inputs, id: string) {
    || DeclaredOrInventoried(inp, id)
    || CredentialOrTarget(inp, id)
    || (id == TargetId(SHELL.id) && exists p :: p in inp.profiles && HasDangerousTools(p))
  }

  function NodeKey(n: Node): SortKey { [Codes(n.kind.Value()), Codes(n.id)] }

  function EdgeKey(e: Edge): SortKey { [Codes(e.kind.Value()), Codes(e.src), Codes(e.dst), Codes(e.detail)] }

  /** agent_host, credential, entry, mcp_server, target. */
  function NodePlace(k: NodeKind): nat {
    match k
    case AgentHost => 0
    case Credential => 1
    case Entry => 2
    case McpServer => 3
    case Target => 4
  }

  /** Nodes come in the alphabetical order of their kinds, then by identifier. */
  lemma NodeOrder(x: Node, y: Node)
    ensures KeyLe(NodeKey(x), NodeKey(y)) <==>
      if x.kind != y.kind then NodePlace(x.kind) < NodePlace(y.kind) else StringLe(x.id, y.id)
  {
    PairOrder(x.kind.Value(), x.id, y.kind.Value(), y.id);
    if x.kind != y.kind {
      assert FirstDifference(x.kind.Value(), y.kind.Value(), 0);
      DifferenceDecides(x.kind.Value(), y.kind.Value(), 0);
    }
  }

  /** Edges come in the alphabetical order of their kinds, then by source, destination and
      detail. */
  lemma EdgeOrder(x: Edge, y: Edge)
    ensures KeyLe(EdgeKey(x), EdgeKey(y)) <==>
      if x.kind != y.kind then Paths.KindPlace(x.kind) < Paths.KindPlace(y.kind)
      else if x.src != y.src then StringLe(x.src, y.src)
      else if x.dst != y.dst then StringLe(x.dst, y.dst)
      else StringLe(x.detail, y.detail)
  {
    PairOrder(x.dst, x.detail, y.dst, y.detail);
    assert EdgeKey(x)[1..][1..] == [Codes(x.dst), Codes(x.detail)];
    assert EdgeKey(y)[1..][1..] == [Codes(y.dst), Codes(y.detail)];
    CodesOrder(x.src, y.src);
    if Codes(x.src) == Codes(y.src) { CodesInjective(x.src, y.src); }
    if x.kind != y.kind {
      Paths.KindsApart(x.kind, y.kind);
      if Codes(x.kind.Value()) == Codes(y.kind.Value()) { CodesInjective(x.kind.Value(), y.kind.Value()); }
    }
  }

  /** The contract of the builder. */
  ghost predicate BuiltFrom(inp: Inputs, g: Graph) {
    && (forall src, kind, dst :: Paths.HasEdge(g.edges, src, Paths.Succ(kind, dst)) <==> EdgeSpec(inp, src, kind, dst))
    && (forall n :: n in g.nodes ==> n.kind == KindOf(n.id) && NodeSpec(inp, n.id))
    && (forall id :: NodeSpec(inp, id) ==> HasNode(g, id))
    && (forall e :: e in g.edges ==> HasNode(g, e.src) && HasNode(g, e.dst))
    && (forall s :: LastOf(inp.profiles, s).Some? ==> ServerNode(LastOf(inp.profiles, s).value) in g.nodes)
    && (forall s :: LastOf(Exposed(inp.profiles), s).Some? ==>
          EntryNode(LastOf(Exposed(inp.profiles), s).value) in g.nodes)
    && (forall n :: n in g.nodes && n.kind.Entry? ==> EntryStated(inp.profiles, n))
    && StrictlyOrdered(g.nodes, NodeKey) && StrictlyOrdered(g.edges, EdgeKey) && UniqueNodes(g)
  }

  ghost predicate HasNode(g: Graph, id: string) {
    exists n :: n in g.nodes && n.id == id
  }

  ghost predicate UniqueNodes(g: Graph) {
    forall i, j :: 0 <= i < j < |g.nodes| ==> g.nodes[i].id != g.nodes[j].id
  }

  ghost predicate DeclaredOrInventoried(inp: Inputs, id: string) {
    || (exists p :: p in inp.profiles && DeclaredNode(p, id))
    || (inp.inventory.Some? && InventoriedBy(inp.inventory.value, |inp.inventory.value|, id))
  }

  ghost predicate CredentialOrTarget(inp: Inputs, id: string) {
    || (exists s, k :: Holder(inp, s, k) && id == CredId(k))
    || (exists k, t :: Opens(inp, k, t) && id == TargetId(t.id))
  }

  predicate IsCredentialKind(kind: EdgeKind) { kind.Holds? || kind.SharedWith? || kind.Unlocks? }

  /** The nodes and edges read off profiles and inventory. */
  method DrawDeclared(inp: Inputs) returns (nodes: map<string, Node>, edges: set<Edge>)
    ensures Typed(nodes) && ClosedOver(nodes, edges)
    ensures ServersDrawn(inp.profiles, nodes) && EntriesDrawn(inp.profiles, nodes) && EntriesStated(inp.profiles, nodes)
    ensures forall id :: id in nodes <==> DeclaredOrInventoried(inp, id)
    ensures forall src, kind, dst :: EdgeIn(edges, src, kind, dst) <==>
        (kind.Hosts? || kind.Reaches?) && EdgeSpec(inp, src, kind, dst)
  {
    nodes, edges := AddProfiles(inp.profiles);
    forall src, kind, dst ensures EdgeIn(edges, src, kind, dst) <==>
        (kind.Hosts? || kind.Reaches?) && EdgeSpec(inp, src, kind, dst) {
      DeclaredSpec(inp, src, kind, dst);
    }
    if inp.inventory.Some? {
      ghost var drawn := nodes;
      nodes := AddInventory(inp.inventory.value, nodes, inp.profiles);
      DrawnStays(inp.profiles, drawn, nodes);
    }
  }

  lemma DrawnStays(profiles: seq<Profile>, before: map<string, Node>, after: map<string, Node>)
    requires ServersDrawn(profiles, before) && EntriesDrawn(profiles, before) && Keeps(before, after)
    ensures ServersDrawn(profiles, after) && EntriesDrawn(profiles, after)
  {
  }

  /** The nodes and edges joined from credential references. */
  method DrawCredentials(inp: Inputs, nodes0: map<string, Node>, edges0: set<Edge>)
    returns (nodes: map<string, Node>, edges: set<Edge>, targets: map<CredKey, set<TargetInfo>>)
    requires Typed(nodes0) && ClosedOver(nodes0, edges0)
    requires forall id :: DeclaredOrInventoried(inp, id) ==> id in nodes0
    ensures Typed(nodes) && ClosedOver(nodes, edges) && Keeps(nodes0, nodes) && TargetsAre(inp, targets)
    ensures forall id :: id in nodes <==> id in nodes0 || CredentialOrTarget(inp, id)
    ensures forall src, kind, dst :: EdgeIn(edges, src, kind, dst) <==>
        EdgeIn(edges0, src, kind, dst) || (IsCredentialKind(kind) && EdgeSpec(inp, src, kind, dst))
  {
    var serverIds := set p | p in inp.profiles :: ServerId(p.subject);
    ServerIdsAre(inp, serverIds);
    var holders, names := JoinCredentials(inp, serverIds);
    var nodes1, labels;
    nodes1, labels, targets := AddCredentials(holders, names, nodes0);
    TargetsAreOpened(inp, names, targets);
    forall k, s | InRow(holders, k, s) ensures ServerId(s) in nodes1 { HolderIsDrawn(inp, s, k); }
    nodes, edges := AddPivots(holders, labels, targets, nodes1, edges0);
    forall src, kind, dst ensures EdgeIn(edges, src, kind, dst) <==>
        EdgeIn(edges0, src, kind, dst) || (IsCredentialKind(kind) && EdgeSpec(inp, src, kind, dst)) {
      PivotSpec(inp, holders, targets, src, kind, dst);
    }
    forall id ensures id in nodes <==> id in nodes0 || CredentialOrTarget(inp, id) {
      CredentialNodes(inp, holders, names, targets, id);
    }
  }

  /** `build_graph`. */
  method BuildGraph(inp: Inputs) returns (g: Graph)
    ensures BuiltFrom(inp, g)
  {
    var nodes1, edges1 := DrawDeclared(inp);
    var nodes2, edges2, targets := DrawCredentials(inp, nodes1, edges1);
    DrawnStays(inp.profiles, nodes1, nodes2);
    forall p | p in inp.profiles ensures ServerId(p.subject) in nodes2 { assert DeclaredNode(p, ServerId(p.subject)); }
    forall k, t: TargetInfo | k in targets && t in targets[k] ensures TargetId(t.id) in nodes2 {
      assert Opens(inp, k, t);
      assert CredentialOrTarget(inp, TargetId(t.id));
    }
    var nodes3, edges3 := AddActions(inp, targets, nodes2, edges2);
    DrawnStays(inp.profiles, nodes2, nodes3);
    forall src, kind, dst ensures EdgeIn(edges3, src, kind, dst) <==> EdgeSpec(inp, src, kind, dst) {
      ActionSpec(inp, targets, src, kind, dst);
    }
    forall id | id in nodes3 && KindOf(id).Entry? ensures EntryStated(inp.profiles, nodes3[id]) {
      EntryWasDeclared(inp, nodes1, nodes2, nodes3, id);
    }
    g := Freeze(nodes3, edges3);
    Frozen(inp, nodes3, edges3, g);
  }

  lemma EntryWasDeclared(inp: Inputs, nodes1: map<string, Node>, nodes2: map<string, Node>,
                         nodes3: map<string, Node>, id: string)
    requires KindOf(id).Entry? && id in nodes3 && Keeps(nodes1, nodes2) && Keeps(nodes2, nodes3)
    requires id in nodes3 ==> id in nodes2 || id == TargetId(SHELL.id)
    requires id in nodes2 ==> id in nodes1 || CredentialOrTarget(inp, id)
    ensures id in nodes1 && nodes3[id] == nodes1[id]
  {
  }

  lemma HolderIsDrawn(inp: Inputs, s: string, k: CredKey)
    requires Holder(inp, s, k)
    ensures exists p :: p in inp.profiles && DeclaredNode(p, ServerId(s))
  {
  }

  lemma CredentialNodes(inp: Inputs, holders: map<CredKey, set<string>>, names: map<CredKey, multiset<string>>,
                        targets: map<CredKey, set<TargetInfo>>, id: string)
    requires HoldersAre(inp, holders) && TargetsAre(inp, targets) && holders.Keys == targets.Keys == names.Keys
    requires forall k, name :: Named(names, k, name) <==> exists s :: HasRef(inp, s, k, name)
    requires forall k :: k in names ==> names[k] != multiset{}
    ensures (exists k :: k in names && id == CredId(k)) || PivotTarget(targets, holders.Keys, id)
        <==> CredentialOrTarget(inp, id)
  {
    if k :| k in names && id == CredId(k) {
      var name :| name in names[k];
      assert Named(names, k, name);
      var s :| HasRef(inp, s, k, name);
      assert Holder(inp, s, k);
    }
    if s, k :| Holder(inp, s, k) && id == CredId(k) {
      assert InRow(holders, k, s);
    }
    if PivotTarget(targets, holders.Keys, id) {
      var k, t :| k in holders.Keys && t in targets[k] && id == TargetId(t.id);
      assert Opens(inp, k, t);
    }
    if k, t :| Opens(inp, k, t) && id == TargetId(t.id) {
      assert k in targets && t in targets[k];
    }
  }

  lemma Frozen(inp: Inputs, nodes: map<string, Node>, edges: set<Edge>, g: Graph)
    requires Typed(nodes) && ClosedOver(nodes, edges)
    requires ServersDrawn(inp.profiles, nodes) && EntriesDrawn(inp.profiles, nodes)
      && EntriesStated(inp.profiles, nodes)
    requires forall id :: id in nodes <==> NodeSpec(inp, id)
    requires forall src, kind, dst :: EdgeIn(edges, src, kind, dst) <==> EdgeSpec(inp, src, kind, dst)
    requires forall n :: n in g.nodes <==> n.id in nodes && nodes[n.id] == n
    requires forall e :: e in g.edges <==> e in edges
    requires StrictlyOrdered(g.nodes, NodeKey) && StrictlyOrdered(g.edges, EdgeKey) && UniqueNodes(g)
    ensures BuiltFrom(inp, g)
  {
    forall src, kind, dst
      ensures Paths.HasEdge(g.edges, src, Paths.Succ(kind, dst)) <==> EdgeSpec(inp, src, kind, dst) {
      assert Paths.HasEdge(g.edges, src, Paths.Succ(kind, dst)) <==> EdgeIn(edges, src, kind, dst);
    }
    forall id | NodeSpec(inp, id) ensures HasNode(g, id) { assert nodes[id] in g.nodes; }
    forall e | e in g.edges ensures HasNode(g, e.src) && HasNode(g, e.dst) {
      assert nodes[e.src] in g.nodes && nodes[e.dst] in g.nodes;
    }
    forall s | LastOf(inp.profiles, s).Some? ensures ServerNode(LastOf(inp.profiles, s).value) in g.nodes {
      LastOfSubject(inp.profiles, s);
    }
    forall s | LastOf(Exposed(inp.profiles), s).Some?
      ensures EntryNode(LastOf(Exposed(inp.profiles), s).value) in g.nodes {
      LastOfSubject(Exposed(inp.profiles), s);
    }
  }

  lemma {:induction false} LastOfSubject(profiles: seq<Profile>, s: string)
    ensures LastOf(profiles, s).Some? <==> exists p :: p in profiles && p.subject == s
    ensures LastOf(profiles, s).Some? ==>
        LastOf(profiles, s).value in profiles && LastOf(profiles, s).value.subject == s
  {
    if profiles != [] {
      LastOfSubject(profiles[..|profiles| - 1], s);
      assert profiles == profiles[..|profiles| - 1] + [profiles[|profiles| - 1]];
      assert profiles[|profiles| - 1] in profiles;
    }
  }

  method Freeze(nodes: map<string, Node>, edges: set<Edge>) returns (g: Graph)
    requires Typed(nodes)
    ensures forall n :: n in g.nodes <==> n.id in nodes && nodes[n.id] == n
    ensures forall e :: e in g.edges <==> e in edges
    ensures StrictlyOrdered(g.nodes, NodeKey) && StrictlyOrdered(g.edges, EdgeKey) && UniqueNodes(g)
  {
    var all := set id | id in nodes :: nodes[id];
    forall x, y | x in all && y in all && NodeKey(x) == NodeKey(y) ensures x == y {
      assert NodeKey(x)[1] == NodeKey(y)[1];
      CodesInjective(x.id, y.id);
    }
    forall x, y | x in edges && y in edges && EdgeKey(x) == EdgeKey(y) ensures x == y {
      assert EdgeKey(x)[0] == EdgeKey(y)[0] && EdgeKey(x)[1] == EdgeKey(y)[1];
      assert EdgeKey(x)[2] == EdgeKey(y)[2] && EdgeKey(x)[3] == EdgeKey(y)[3];
      CodesInjective(x.kind.Value(), y.kind.Value());
      KindValuesDistinct(x.kind, y.kind);
      CodesInjective(x.src, y.src);
      CodesInjective(x.dst, y.dst);
      CodesInjective(x.detail, y.detail);
    }
    var ordered := SortSet(all, NodeKey);
    var orderedEdges := SortSet(edges, EdgeKey);
    g := Graph(ordered, orderedEdges);
    forall i, j | 0 <= i < j < |g.nodes| ensures g.nodes[i].id != g.nodes[j].id {
      assert g.nodes[i] in all && g.nodes[j] in all && KeyLt(NodeKey(g.nodes[i]), NodeKey(g.nodes[j]));
    }
  }

  lemma ServerIdsAre(inp: Inputs, serverIds: set<string>)
    requires serverIds == set p | p in inp.profiles :: ServerId(p.subject)
    ensures forall s :: ServerId(s) in serverIds <==> Profiled(inp, s)
  {
    forall s ensures ServerId(s) in serverIds <==> Profiled(inp, s) {
      if ServerId(s) in serverIds {
        var p :| p in inp.profiles && ServerId(p.subject) == ServerId(s);
        ServerIdInjective(p.subject, s);
      }
    }
  }

  // ---- from the sections' contracts to the builder's ----------------------------------------

  ghost predicate HoldersAre(inp: Inputs, holders: map<CredKey, set<string>>) {
    forall k, s :: InRow(holders, k, s) <==> Holder(inp, s, k)
  }

  ghost predicate TargetsAre(inp: Inputs, targets: map<CredKey, set<TargetInfo>>) {
    forall k, t :: (k in targets && t in targets[k]) <==> Opens(inp, k, t)
  }

  lemma TargetsAreOpened(inp: Inputs, names: map<CredKey, multiset<string>>, targets: map<CredKey, set<TargetInfo>>)
    requires forall k, name :: Named(names, k, name) <==> exists s :: HasRef(inp, s, k, name)
    requires targets.Keys == names.Keys && forall k :: k in names ==> targets[k] == TargetsOf(names[k])
    ensures TargetsAre(inp, targets)
  {
    forall k, t ensures (k in targets && t in targets[k]) <==> Opens(inp, k, t) {
      if k in targets && t in targets[k] {
        var name :| name in names[k] && InferTarget(name) == Some(t);
        assert Named(names, k, name);
      }
      if Opens(inp, k, t) {
        var s, name :| HasRef(inp, s, k, name) && InferTarget(name) == Some(t);
        assert Named(names, k, name);
      }
    }
  }

  lemma DeclaredSpec(inp: Inputs, src: string, kind: EdgeKind, dst: string)
    ensures (exists p :: p in inp.profiles && DeclaredEdge(p, src, kind, dst)) <==>
      (kind.Hosts? || kind.Reaches?) && EdgeSpec(inp, src, kind, dst)
  {
  }

  lemma PivotSpec(inp: Inputs, holders: map<CredKey, set<string>>, targets: map<CredKey, set<TargetInfo>>,
                  src: string, kind: EdgeKind, dst: string)
    requires HoldersAre(inp, holders) && TargetsAre(inp, targets) && holders.Keys == targets.Keys
    ensures PivotEdge(holders, targets, holders.Keys, src, kind, dst) <==>
      (kind.Holds? || kind.SharedWith? || kind.Unlocks?) && EdgeSpec(inp, src, kind, dst)
  {
    if PivotEdge(holders, targets, holders.Keys, src, kind, dst) {
      var k :| k in holders.Keys && CredentialEdge(k, holders[k], targets[k], src, kind, dst);
      PivotIsSpecified(inp, holders, targets, k, src, kind, dst);
    }
    if (kind.Holds? || kind.SharedWith? || kind.Unlocks?) && EdgeSpec(inp, src, kind, dst) {
      SpecifiedIsPivot(inp, holders, targets, src, kind, dst);
    }
  }

  lemma PivotIsSpecified(inp: Inputs, holders: map<CredKey, set<string>>, targets: map<CredKey, set<TargetInfo>>,
                         k: CredKey,
                         src: string, kind: EdgeKind, dst: string)
    requires HoldersAre(inp, holders) && TargetsAre(inp, targets) && k in holders && k in targets
    requires CredentialEdge(k, holders[k], targets[k], src, kind, dst)
    ensures (kind.Holds? || kind.SharedWith? || kind.Unlocks?) && EdgeSpec(inp, src, kind, dst)
  {
    if kind.Holds? {
      var s :| s in holders[k] && src == ServerId(s) && dst == CredId(k);
      assert InRow(holders, k, s);
    } else if kind.SharedWith? {
      var s :| s in holders[k] && holders[k] != {s} && src == CredId(k) && dst == ServerId(s);
      var other :| other in holders[k] && other != s;
      assert InRow(holders, k, s) && InRow(holders, k, other);
      assert SharedBy(inp, s, k);
    }
  }

  lemma SpecifiedIsPivot(inp: Inputs, holders: map<CredKey, set<string>>, targets: map<CredKey, set<TargetInfo>>,
                         src: string, kind: EdgeKind, dst: string)
    requires HoldersAre(inp, holders) && TargetsAre(inp, targets) && holders.Keys == targets.Keys
    requires (kind.Holds? || kind.SharedWith? || kind.Unlocks?) && EdgeSpec(inp, src, kind, dst)
    ensures PivotEdge(holders, targets, holders.Keys, src, kind, dst)
  {
  }

  lemma RefHolds(inp: Inputs, s: string, k: CredKey)
    requires Profiled(inp, s)
    ensures Holder(inp, s, k) <==> exists r :: r in RefsOf(inp, s) && r.Key() == k
  {
    if s in inp.holders { SubjectHolds(inp, s, k); }
  }

  lemma ActionSpec(inp: Inputs, targets: map<CredKey, set<TargetInfo>>, src: string, kind: EdgeKind, dst: string)
    requires TargetsAre(inp, targets)
    ensures ActedOn(inp, inp.profiles, targets, src, kind, dst) <==> kind.CanAct? && EdgeSpec(inp, src, kind, dst)
  {
    if p :| p in inp.profiles && ActionEdge(p, RefsOf(inp, p.subject), targets, src, kind, dst) {
      if HasDangerousTools(p) && dst == TargetId(SHELL.id) {
        assert CanActOn(inp, p, SHELL);
      } else {
        var r, t :| r in RefsOf(inp, p.subject) && r.Key() in targets && t in targets[r.Key()] && dst == TargetId(t.id);
        RefHolds(inp, p.subject, r.Key());
        assert CanActOn(inp, p, t);
      }
    }
    if p, t :|
      kind.CanAct? && p in inp.profiles && CanActOn(inp, p, t) && src == ServerId(p.subject) && dst == TargetId(t.id) {
      if !(HasDangerousTools(p) && t == SHELL) {
        var k :| Holder(inp, p.subject, k) && Opens(inp, k, t);
        RefHolds(inp, p.subject, k);
      }
      assert ActionEdge(p, RefsOf(inp, p.subject), targets, src, kind, dst);
    }
  }
}
