/** Trust profiles and the shared-credential join (trust/analyze.py). */
module Trust {
  import opened GraphModel

  /** The evidence behind a factor, in place of the sentence that words it. Nothing stands for
      an empty text. */
  datatype Evidence =
    | Nothing
    | Secrets(count: nat)
    | Grants(dangerous: nat, wildcard: nat)
    | AutoApproved(tools: nat)
    | Unpinned
    | BindsPrivateLan
    | BindsWide

  datatype FactorScore = FactorScore(factor: TrustFactor, risk: nat, evidence: Evidence) {
    predicate Present() { risk > 0 }
  }

  datatype Relationship =
    | AutonomousExfilPath
    | PrivilegedSecretHolder
    | AutonomousPrivileged
    | AutonomousSecretHolder
    | UnvettedPrivileged
    | ExposedPrivileged
    | SharedCredential(others: nat)

  datatype Profile = Profile(
    subject: string, serverName: string, host: string, location: string,
    score: nat, grade: char, factors: seq<FactorScore>, relationships: seq<Relationship>)
  {
    predicate Has(factor: TrustFactor) {
      exists i :: 0 <= i < |factors| && factors[i].factor == factor && factors[i].Present()
    }
  }

  /** One auto-approved tool, as the scanner's own predicates see its name. */
  datatype Grant = Grant(dangerous: bool, wildcard: bool)

  predicate IsDangerous(g: Grant) { g.dangerous }

  predicate IsWildcard(g: Grant) { g.wildcard }

  datatype Tier = LoopbackTier | PrivateLanTier | PublicRoutableTier | WildcardTier

  /** What `profile_server` reads off one declared server: its auto-approve list, and the
      verdicts of the secret, pinning and bind-hint detectors. */
  datatype ServerDecl = ServerDecl(
    name: string, autoApprove: seq<Grant>, secrets: nat, unpinned: bool, bindHint: Option<Tier>)

  function Min(a: nat, b: nat): nat { if a <= b then a else b }

  function CountGrants(grants: seq<Grant>, pick: Grant -> bool): nat {
    if grants == [] then 0 else (if pick(grants[0]) then 1 else 0) + CountGrants(grants[1..], pick)
  }

  function SecretFactor(d: ServerDecl): FactorScore {
    if d.secrets == 0 then FactorScore(SecretAccess, 0, Nothing)
    else FactorScore(SecretAccess, Min(25 + (d.secrets - 1) * 5, 40), Secrets(d.secrets))
  }

  function PrivilegeFactor(d: ServerDecl): FactorScore {
    var dangerous := CountGrants(d.autoApprove, IsDangerous);
    var wildcard := CountGrants(d.autoApprove, IsWildcard);
    var risk := Min((if dangerous > 0 then 25 else 0) + (if wildcard > 0 then 20 else 0), 40);
    if risk == 0 then FactorScore(ToolPrivilege, 0, Nothing)
    else FactorScore(ToolPrivilege, risk, Grants(dangerous, wildcard))
  }

  function AutonomyFactor(d: ServerDecl): FactorScore {
    if d.autoApprove == [] then FactorScore(Autonomy, 0, Nothing)
    else FactorScore(Autonomy, 15, AutoApproved(|d.autoApprove|))
  }

  function ProvenanceFactor(d: ServerDecl): FactorScore {
    if d.unpinned then FactorScore(CodeProvenance, 10, Unpinned) else FactorScore(CodeProvenance, 0, Nothing)
  }

  /** A bind hint is never a loopback tier: `bind_hint` skips those. */
  function ReachFactor(d: ServerDecl): FactorScore {
    match d.bindHint
    case None => FactorScore(ExposureReach, 0, Nothing)
    case Some(tier) =>
      if tier.PrivateLanTier? then FactorScore(ExposureReach, 10, BindsPrivateLan)
      else FactorScore(ExposureReach, 20, BindsWide)
  }

  function When(holds: bool, r: Relationship): seq<Relationship> { if holds then [r] else [] }

  function Relationships(active: set<TrustFactor>): seq<Relationship> {
    When({Autonomy, ToolPrivilege, SecretAccess} <= active, AutonomousExfilPath)
    + When({SecretAccess, ToolPrivilege} <= active, PrivilegedSecretHolder)
    + When({Autonomy, ToolPrivilege} <= active, AutonomousPrivileged)
    + When({Autonomy, SecretAccess} <= active, AutonomousSecretHolder)
    + When({CodeProvenance, ToolPrivilege} <= active, UnvettedPrivileged)
    + When({ExposureReach, ToolPrivilege} <= active, ExposedPrivileged)
  }

  function ActiveFactors(factors: seq<FactorScore>): set<TrustFactor> {
    set f | f in factors && f.Present() :: f.factor
  }

  function GradeForScore(score: nat): char {
    if score >= 90 then 'A' else if score >= 80 then 'B' else if score >= 70 then 'C'
    else if score >= 60 then 'D' else 'F'
  }

  function Subject(path: string, name: string): string { path + "#" + name }

  function ProfileServer(d: ServerDecl, path: string, host: string): Profile {
    var factors := [SecretFactor(d), PrivilegeFactor(d), AutonomyFactor(d), ProvenanceFactor(d), ReachFactor(d)];
    var total: int := factors[0].risk + factors[1].risk + factors[2].risk + factors[3].risk + factors[4].risk;
    var score: nat := if total >= 100 then 0 else 100 - total;
    Profile(Subject(path, d.name), d.name, host, path, score, GradeForScore(score), factors,
            Relationships(ActiveFactors(factors)))
  }

  lemma {:induction false} GrantsNeedATool(grants: seq<Grant>, pick: Grant -> bool)
    ensures CountGrants(grants, pick) > 0 <==> exists g :: g in grants && pick(g)
  {
    if grants != [] {
      GrantsNeedATool(grants[1..], pick);
      assert grants == [grants[0]] + grants[1..];
    }
  }

  /** Which factors a profile carries, in terms of the declaration. Privilege and autonomy both
      come from the auto-approve list, so a privileged server is always an autonomous one. */
  lemma ProfileFactors(d: ServerDecl, path: string, host: string)
    ensures var p := ProfileServer(d, path, host);
      && (p.Has(ToolPrivilege) <==> exists g :: g in d.autoApprove && (g.dangerous || g.wildcard))
      && (p.Has(Autonomy) <==> d.autoApprove != [])
      && (p.Has(SecretAccess) <==> d.secrets > 0)
      && (p.Has(CodeProvenance) <==> d.unpinned)
      && (p.Has(ExposureReach) <==> d.bindHint.Some?)
      && (p.Has(ToolPrivilege) ==> p.Has(Autonomy))
  {
    var p := ProfileServer(d, path, host);
    GrantsNeedATool(d.autoApprove, IsDangerous);
    GrantsNeedATool(d.autoApprove, IsWildcard);
    OneOfEach(p.factors);
  }

  /** With exactly one score per factor, in this order, having a factor is reading its score. */
  lemma OneOfEach(f: seq<FactorScore>)
    requires |f| == 5 && f[0].factor == SecretAccess && f[1].factor == ToolPrivilege && f[2].factor == Autonomy
    requires f[3].factor == CodeProvenance && f[4].factor == ExposureReach
    ensures forall p: Profile :: p.factors == f ==>
      && (p.Has(SecretAccess) <==> f[0].Present()) && (p.Has(ToolPrivilege) <==> f[1].Present())
      && (p.Has(Autonomy) <==> f[2].Present()) && (p.Has(CodeProvenance) <==> f[3].Present())
      && (p.Has(ExposureReach) <==> f[4].Present())
  {
  }

  // ---- score, grade and relationships of a declaration --------------------------------------

  ghost predicate GrantsDanger(d: ServerDecl) { exists g :: g in d.autoApprove && g.dangerous }

  ghost predicate GrantsWildcard(d: ServerDecl) { exists g :: g in d.autoApprove && g.wildcard }

  /** Points off the score, factor by factor: the fourth credential is the last that counts, and a
      wildcard grant adds to a dangerous one no more than the cap leaves room for. */
  ghost function Deductions(d: ServerDecl): nat {
    (if d.secrets == 0 then 0 else if d.secrets <= 3 then 20 + 5 * d.secrets else 40)
    + (if GrantsDanger(d) then (if GrantsWildcard(d) then 40 else 25) else if GrantsWildcard(d) then 20 else 0)
    + (if d.autoApprove != [] then 15 else 0)
    + (if d.unpinned then 10 else 0)
    + (if d.bindHint.None? then 0 else if d.bindHint.value == PrivateLanTier then 10 else 20)
  }

  /** The score never falls below zero, and the grade drops with every ten points off. */
  lemma ProfileScore(d: ServerDecl, path: string, host: string)
    ensures var p, off := ProfileServer(d, path, host), Deductions(d);
      && p.score == (if off <= 100 then 100 - off else 0)
      && (p.grade == 'A' <==> off <= 10) && (p.grade == 'B' <==> 10 < off <= 20)
      && (p.grade == 'C' <==> 20 < off <= 30) && (p.grade == 'D' <==> 30 < off <= 40)
      && (p.grade == 'F' <==> 40 < off)
  {
    RisksAre(d);
    ScoreIs(d, path, host);
  }

  lemma RisksAre(d: ServerDecl)
    ensures SecretFactor(d).risk + PrivilegeFactor(d).risk + AutonomyFactor(d).risk + ProvenanceFactor(d).risk
          + ReachFactor(d).risk == Deductions(d)
  {
    GrantsNeedATool(d.autoApprove, IsDangerous);
    GrantsNeedATool(d.autoApprove, IsWildcard);
  }

  lemma ScoreIs(d: ServerDecl, path: string, host: string)
    ensures var p := ProfileServer(d, path, host);
      var off := SecretFactor(d).risk + PrivilegeFactor(d).risk + AutonomyFactor(d).risk + ProvenanceFactor(d).risk
        + ReachFactor(d).risk;
      p.score == (if off <= 100 then 100 - off else 0) && p.grade == GradeForScore(p.score)
  {
  }

  /** The place of a relationship in the list of a profile. */
  function RelationshipPlace(r: Relationship): nat {
    match r
    case AutonomousExfilPath => 0
    case PrivilegedSecretHolder => 1
    case AutonomousPrivileged => 2
    case AutonomousSecretHolder => 3
    case UnvettedPrivileged => 4
    case ExposedPrivileged => 5
    case SharedCredential(_) => 6
  }

  ghost predicate Privileged(d: ServerDecl) { GrantsDanger(d) || GrantsWildcard(d) }

  /** Which relationships a declaration has of its own accord: each at most once, in one order. */
  lemma RelationshipsIff(d: ServerDecl, path: string, host: string, r: Relationship)
    ensures r in ProfileServer(d, path, host).relationships <==>
      match r
      case AutonomousExfilPath => Privileged(d) && d.secrets > 0
      case PrivilegedSecretHolder => Privileged(d) && d.secrets > 0
      case AutonomousPrivileged => Privileged(d)
      case AutonomousSecretHolder => d.autoApprove != [] && d.secrets > 0
      case UnvettedPrivileged => Privileged(d) && d.unpinned
      case ExposedPrivileged => Privileged(d) && d.bindHint.Some?
      case SharedCredential(_) => false
    ensures InOrder(ProfileServer(d, path, host).relationships)
  {
    var p := ProfileServer(d, path, host);
    ProfileFactors(d, path, host);
    var active := ActiveFactors(p.factors);
    forall f ensures f in active <==> p.Has(f) { ActiveAre(p, f); }
    RelationshipsAre(active);
  }

  /** What a relationship takes. */
  ghost predicate Calls(active: set<TrustFactor>, r: Relationship) {
    match r
    case AutonomousExfilPath => Autonomy in active && ToolPrivilege in active && SecretAccess in active
    case PrivilegedSecretHolder => SecretAccess in active && ToolPrivilege in active
    case AutonomousPrivileged => Autonomy in active && ToolPrivilege in active
    case AutonomousSecretHolder => Autonomy in active && SecretAccess in active
    case UnvettedPrivileged => CodeProvenance in active && ToolPrivilege in active
    case ExposedPrivileged => ExposureReach in active && ToolPrivilege in active
    case SharedCredential(_) => false
  }

  lemma RelationshipsAre(active: set<TrustFactor>)
    ensures forall r :: r in Relationships(active) <==> Calls(active, r)
    ensures InOrder(Relationships(active))
  {
    var a := When({Autonomy, ToolPrivilege, SecretAccess} <= active, AutonomousExfilPath);
    var b := When({SecretAccess, ToolPrivilege} <= active, PrivilegedSecretHolder);
    var c := When({Autonomy, ToolPrivilege} <= active, AutonomousPrivileged);
    var d := When({Autonomy, SecretAccess} <= active, AutonomousSecretHolder);
    var e := When({CodeProvenance, ToolPrivilege} <= active, UnvettedPrivileged);
    var f := When({ExposureReach, ToolPrivilege} <= active, ExposedPrivileged);
    AllLater(a, b, c, d, e, f);
    forall r ensures r in a + b + c + d + e + f <==> Calls(active, r) {
      InOneOf(a, b, c, d, e, f, r);
      WhenCalled(active, r);
    }
  }

  ghost predicate JustAt(rs: seq<Relationship>, k: nat) {
    rs == [] || (|rs| == 1 && RelationshipPlace(rs[0]) == k)
  }

  lemma AllLater(a: seq<Relationship>, b: seq<Relationship>, c: seq<Relationship>, d: seq<Relationship>,
                 e: seq<Relationship>, f: seq<Relationship>)
    requires JustAt(a, 0) && JustAt(b, 1) && JustAt(c, 2) && JustAt(d, 3) && JustAt(e, 4) && JustAt(f, 5)
    ensures InOrder(a + b + c + d + e + f)
  {
    OneLater(a, b, 0);
    OneLater(a + b, c, 1);
    OneLater(a + b + c, d, 2);
    OneLater(a + b + c + d, e, 3);
    OneLater(a + b + c + d + e, f, 4);
  }

  lemma InOneOf(a: seq<Relationship>, b: seq<Relationship>, c: seq<Relationship>, d: seq<Relationship>,
                e: seq<Relationship>, f: seq<Relationship>, r: Relationship)
    ensures r in a + b + c + d + e + f <==> r in a || r in b || r in c || r in d || r in e || r in f
  {
  }

  lemma WhenCalled(active: set<TrustFactor>, r: Relationship)
    ensures Calls(active, r) <==>
      || r in When({Autonomy, ToolPrivilege, SecretAccess} <= active, AutonomousExfilPath)
      || r in When({SecretAccess, ToolPrivilege} <= active, PrivilegedSecretHolder)
      || r in When({Autonomy, ToolPrivilege} <= active, AutonomousPrivileged)
      || r in When({Autonomy, SecretAccess} <= active, AutonomousSecretHolder)
      || r in When({CodeProvenance, ToolPrivilege} <= active, UnvettedPrivileged)
      || r in When({ExposureReach, ToolPrivilege} <= active, ExposedPrivileged)
  {
  }

  ghost predicate InOrder(rs: seq<Relationship>) {
    forall i, j :: 0 <= i < j < |rs| ==> RelationshipPlace(rs[i]) < RelationshipPlace(rs[j])
  }

  lemma OneLater(rs: seq<Relationship>, more: seq<Relationship>, k: nat)
    requires InOrder(rs) && forall r :: r in rs ==> RelationshipPlace(r) <= k
    requires JustAt(more, k + 1)
    ensures InOrder(rs + more) && forall r :: r in rs + more ==> RelationshipPlace(r) <= k + 1
  {
  }

  lemma ActiveAre(p: Profile, f: TrustFactor)
    ensures f in ActiveFactors(p.factors) <==> p.Has(f)
  {
  }

  // ---- SHARED-CREDENTIAL --------------------------------------------------------------------

  /** Two references name the same credential when truncated digest and length agree. */
  type CredKey = (string, nat)

  /** The other subjects holding a credential that `subject` holds. */
  ghost function Peers(fingerprints: map<string, seq<CredKey>>, subject: string): set<string> {
    if subject !in fingerprints then {}
    else set t | t in fingerprints && t != subject
           && exists k :: k in fingerprints[subject] && k in fingerprints[t]
  }

  ghost function Shared(p: Profile, fingerprints: map<string, seq<CredKey>>): Profile {
    var others := Peers(fingerprints, p.subject);
    if others == {} then p else p.(relationships := p.relationships + [SharedCredential(|others|)])
  }

  predicate InRow<K(==)>(m: map<K, set<string>>, k: K, s: string) {
    k in m && s in m[k]
  }

  predicate Holds(fingerprints: map<string, seq<CredKey>>, s: string, k: CredKey) {
    s in fingerprints && k in fingerprints[s]
  }

  ghost predicate ShareOne(holders: map<CredKey, set<string>>, keys: set<CredKey>, s: string, t: string) {
    s != t && exists k :: k in keys && InRow(holders, k, s) && InRow(holders, k, t)
  }

  /** Who holds each credential, from the fingerprints of every subject in any order. */
  method CredentialHolders(fingerprints: map<string, seq<CredKey>>) returns (holders: map<CredKey, set<string>>)
    ensures forall k, s :: InRow(holders, k, s) <==> Holds(fingerprints, s, k)
  {
    holders := map[];
    var todo := fingerprints.Keys;
    while todo != {}
      invariant todo <= fingerprints.Keys
      invariant forall k, s :: InRow(holders, k, s) <==> s !in todo && Holds(fingerprints, s, k)
      decreases todo
    {
      var subject :| subject in todo;
      var fps := fingerprints[subject];
      for i := 0 to |fps|
        invariant forall k, s :: InRow(holders, k, s) <==>
            (s !in todo && Holds(fingerprints, s, k)) || (s == subject && k in fps[..i])
      {
        assert fps[..i + 1] == fps[..i] + [fps[i]];
        ghost var before := holders;
        var had := if fps[i] in holders then holders[fps[i]] else {};
        holders := holders[fps[i] := had + {subject}];
        assert forall k, s :: InRow(holders, k, s) <==> InRow(before, k, s) || (k == fps[i] && s == subject);
      }
      assert fps[..|fps|] == fps;
      todo := todo - {subject};
    }
  }

  lemma AtMostOne(s: set<string>)
    requires |s| < 2
    ensures forall x, y :: x in s && y in s ==> x == y
  {
    forall x, y | x in s && y in s ensures x == y {
      assert |s - {x}| == |s| - 1 == 0;
      assert y in s - {x} || y == x;
    }
  }

  /** The peers of every subject, from the holders of each credential in any order. */
  method CollectPeers(holders: map<CredKey, set<string>>) returns (peers: map<string, set<string>>)
    ensures forall s, t :: InRow(peers, s, t) <==> ShareOne(holders, holders.Keys, s, t)
  {
    peers := map[];
    var todo := holders.Keys;
    while todo != {}
      invariant todo <= holders.Keys
      invariant forall s, t :: InRow(peers, s, t) <==> ShareOne(holders, holders.Keys - todo, s, t)
      decreases todo
    {
      var k :| k in todo;
      var after := AddPeers(peers, holders[k]);
      forall s, t ensures InRow(after, s, t) <==> ShareOne(holders, holders.Keys - (todo - {k}), s, t) {
        assert InRow(peers, s, t) <==> ShareOne(holders, holders.Keys - todo, s, t);
        if j :| j in holders.Keys - (todo - {k}) && InRow(holders, j, s) && InRow(holders, j, t) && s != t {
          assert j == k || j in holders.Keys - todo;
        }
        if s in holders[k] && t in holders[k] && s != t {
          assert InRow(holders, k, s) && InRow(holders, k, t) && k in holders.Keys - (todo - {k});
        }
      }
      peers := after;
      todo := todo - {k};
    }
    assert holders.Keys - todo == holders.Keys;
  }

  /** One credential: when at least two subjects hold it, they become each other's peers. */
  method AddPeers(before: map<string, set<string>>, subjects: set<string>) returns (peers: map<string, set<string>>)
    ensures forall s, t :: InRow(peers, s, t) <==>
        InRow(before, s, t) || (s in subjects && t in subjects && s != t)
  {
    peers := before;
    if |subjects| < 2 {
      AtMostOne(subjects);
      return;
    }
    var left := subjects;
    while left != {}
      invariant left <= subjects
      invariant forall s, t :: InRow(peers, s, t) <==>
          InRow(before, s, t) || (s in subjects && s !in left && t in subjects && s != t)
      decreases left
    {
      var subject :| subject in left;
      var had := if subject in peers then peers[subject] else {};
      peers := peers[subject := had + (subjects - {subject})];
      left := left - {subject};
    }
  }

  /** A profile gains the relationship exactly when it has a peer, with the number of peers, and
      nothing else about any profile changes; no iteration order matters. */
  method ApplySharedCredentials(profiles: seq<Profile>, fingerprints: map<string, seq<CredKey>>)
    returns (r: seq<Profile>)
    ensures |r| == |profiles| && forall i :: 0 <= i < |r| ==> r[i] == Shared(profiles[i], fingerprints)
  {
    var holders := CredentialHolders(fingerprints);
    var peers := CollectPeers(holders);
    forall s ensures Row(peers, s) == Peers(fingerprints, s) {
      PeersAgree(fingerprints, holders, peers, s);
    }
    if peers == map[] {
      assert forall s :: Row(peers, s) == {};
      return profiles;
    }
    r := [];
    for i := 0 to |profiles|
      invariant |r| == i
      invariant forall j :: 0 <= j < i ==> r[j] == Shared(profiles[j], fingerprints)
    {
      var p := profiles[i];
      var others := Row(peers, p.subject);
      if others == {} {
        r := r + [p];
      } else {
        r := r + [p.(relationships := p.relationships + [SharedCredential(|others|)])];
      }
    }
  }

  function Row(peers: map<string, set<string>>, s: string): set<string> {
    if s in peers then peers[s] else {}
  }

  lemma PeersAgree(fingerprints: map<string, seq<CredKey>>, holders: map<CredKey, set<string>>,
                   peers: map<string, set<string>>, s: string)
    requires forall k, t :: InRow(holders, k, t) <==> Holds(fingerprints, t, k)
    requires forall a, b :: InRow(peers, a, b) <==> ShareOne(holders, holders.Keys, a, b)
    ensures Row(peers, s) == Peers(fingerprints, s)
  {
    forall t ensures t in Row(peers, s) <==> t in Peers(fingerprints, s) {
      assert t in Row(peers, s) <==> InRow(peers, s, t);
      if ShareOne(holders, holders.Keys, s, t) {
        var k :| k in holders.Keys && InRow(holders, k, s) && InRow(holders, k, t);
        assert Holds(fingerprints, s, k) && Holds(fingerprints, t, k);
      }
      if t in Peers(fingerprints, s) {
        var k :| k in fingerprints[s] && k in fingerprints[t];
        assert Holds(fingerprints, s, k) && Holds(fingerprints, t, k);
        assert InRow(holders, k, s) && InRow(holders, k, t);
      }
    }
  }
}
