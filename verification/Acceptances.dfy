/** Named-human, expiring risk acceptances and the exit gate (acceptance.py, cli.py `_exit_code`).
    Dates are day numbers. */
module Acceptances {
  import opened GraphModel
  import opened Orders
  import opened Drift
  import opened DriftTheorems
  import S = Snapshots
  import Postures

  datatype Dimension = ExposureDim | CredentialDim | ToolScope | PinningDim

  datatype Finding = Finding(id: string, dimension: Dimension, severity: Severity, title: string,
                             acceptance: Option<Acceptance>)

  datatype Server = Server(id: string, findings: seq<Finding>)

  datatype Report = Report(servers: seq<Server>, overallGrade: char, dimensionGrades: map<Dimension, char>)

  datatype LedgerEntry = LedgerEntry(finding: string, server: string, owner: string, accepted: string, expires: int,
                                     reason: string)

  predicate Expired(expires: int, today: int) { today > expires }

  predicate EndsWith(s: string, suffix: string) {
    |suffix| <= |s| && s[|s| - |suffix|..] == suffix
  }

  predicate ServerMatches(id: string, entryServer: string) {
    id == entryServer || EndsWith(id, "#" + entryServer)
  }

  predicate Applies(e: LedgerEntry, server: string, f: Finding) {
    ServerMatches(server, e.server) && e.finding == f.id
  }

  /** The first applicable entry that still holds; failing that, the first applicable one. */
  function Choose(entries: seq<LedgerEntry>, server: string, f: Finding, today: int): (r: Option<LedgerEntry>)
    ensures r.Some? ==> r.value in entries && Applies(r.value, server, f)
    ensures r.None? <==> forall e :: e in entries ==> !Applies(e, server, f)
    ensures (r.Some? && !Expired(r.value.expires, today)) <==>
        exists e :: e in entries && Applies(e, server, f) && !Expired(e.expires, today)
  {
    if entries == [] then None
    else
      assert entries == [entries[0]] + entries[1..];
      var rest := Choose(entries[1..], server, f, today);
      if Applies(entries[0], server, f)
        && (!Expired(entries[0].expires, today) || rest.None? || Expired(rest.value.expires, today))
      then Some(entries[0])
      else rest
  }

  /** An entry names a server by its whole id, or by what follows a "#" in it. */
  lemma ServerMatchesIff(id: string, entryServer: string)
    ensures ServerMatches(id, entryServer) <==>
      id == entryServer || exists before :: id == before + "#" + entryServer
  {
    if EndsWith(id, "#" + entryServer) {
      assert id == id[..|id| - |entryServer| - 1] + "#" + entryServer;
    }
    if before :| id == before + "#" + entryServer {
      assert id == before + ("#" + entryServer);
    }
  }

  /** Of the entries that apply, the first that still holds is chosen; failing that, the first. */
  lemma {:induction false} ChooseIsFirst(entries: seq<LedgerEntry>, server: string, f: Finding, today: int)
    requires Choose(entries, server, f, today).Some?
    ensures var r := Choose(entries, server, f, today).value;
      exists i :: FirstChoice(entries, server, f, today, i) && entries[i] == r
  {
    assert entries == [entries[0]] + entries[1..];
    if Choose(entries, server, f, today) == Some(entries[0]) && FirstChoice(entries, server, f, today, 0) {
    } else {
      var rest := entries[1..];
      ChooseIsFirst(rest, server, f, today);
      var i :| FirstChoice(rest, server, f, today, i) && rest[i] == Choose(rest, server, f, today).value;
      assert FirstChoice(entries, server, f, today, i + 1);
    }
  }

  /** Entry i applies, and no earlier one that applies is as good. */
  ghost predicate FirstChoice(entries: seq<LedgerEntry>, server: string, f: Finding, today: int, i: int) {
    && 0 <= i < |entries| && Applies(entries[i], server, f)
    && forall j :: 0 <= j < i && Applies(entries[j], server, f) ==>
         Expired(entries[j].expires, today) && !Expired(entries[i].expires, today)
  }

  predicate Refused(entries: seq<LedgerEntry>, server: string, f: Finding, today: int) {
    f.acceptance.None? && !f.dimension.ToolScope? && Choose(entries, server, f, today).Some?
  }

  function Attach(e: LedgerEntry, today: int): Acceptance {
    Acceptance(e.owner, e.accepted, e.expires, e.reason, Expired(e.expires, today))
  }

  /** What applying a ledger does to one finding. */
  function Applied(entries: seq<LedgerEntry>, server: string, f: Finding, today: int): Finding {
    var chosen := Choose(entries, server, f, today);
    if chosen.None? || f.acceptance.Some? || !f.dimension.ToolScope? then f
    else f.(acceptance := Some(Attach(chosen.value, today)))
  }

  function Candidates(entries: seq<LedgerEntry>, server: string): seq<LedgerEntry> {
    if entries == [] then []
    else (if ServerMatches(server, entries[0].server) then [entries[0]] else []) + Candidates(entries[1..], server)
  }

  lemma {:induction false} CandidatesChooseTheSame(entries: seq<LedgerEntry>, server: string, f: Finding, today: int)
    ensures Choose(Candidates(entries, server), server, f, today) == Choose(entries, server, f, today)
  {
    if entries != [] {
      CandidatesChooseTheSame(entries[1..], server, f, today);
      var rest := Candidates(entries[1..], server);
      if ServerMatches(server, entries[0].server) {
        assert ([entries[0]] + rest)[1..] == rest;
      } else {
        assert [] + rest == rest;
      }
    }
  }

  function AppliedServer(entries: seq<LedgerEntry>, s: Server, today: int): Server {
    s.(findings := AppliedFindings(entries, s.id, s.findings, today))
  }

  function AppliedFindings(entries: seq<LedgerEntry>, id: string, findings: seq<Finding>, today: int): seq<Finding> {
    seq(|findings|, i requires 0 <= i < |findings| => Applied(entries, id, findings[i], today))
  }

  lemma OneFinding(entries: seq<LedgerEntry>, id: string, findings: seq<Finding>, today: int, i: nat)
    requires i < |findings|
    ensures AppliedFindings(entries, id, findings[..i + 1], today)
         == AppliedFindings(entries, id, findings[..i], today) + [Applied(entries, id, findings[i], today)]
    ensures Warnings(entries, id, findings[..i + 1], today)
         == Warnings(entries, id, findings[..i], today)
          + if Refused(entries, id, findings[i], today) then [(findings[i].id, id)] else []
  {
    assert findings[..i + 1][..i] == findings[..i];
  }

  /** One warning for each refused finding, in order. */
  function Warnings(entries: seq<LedgerEntry>, id: string, findings: seq<Finding>, today: int): seq<(string, string)> {
    if findings == [] then []
    else
      var init, f := findings[..|findings| - 1], findings[|findings| - 1];
      Warnings(entries, id, init, today) + (if Refused(entries, id, f, today) then [(f.id, id)] else [])
  }

  function AllWarnings(entries: seq<LedgerEntry>, servers: seq<Server>, today: int): seq<(string, string)> {
    if servers == [] then []
    else
      var s := servers[|servers| - 1];
      AllWarnings(entries, servers[..|servers| - 1], today) + Warnings(entries, s.id, s.findings, today)
  }

  /** The branches of the loop, over the entries that name the server. */
  lemma Branches(entries: seq<LedgerEntry>, server: string, f: Finding, today: int, entry: Option<LedgerEntry>)
    requires entry == Choose(Candidates(entries, server), server, f, today)
    ensures Refused(entries, server, f, today) <==> entry.Some? && f.acceptance.None? && !f.dimension.ToolScope?
    ensures Applied(entries, server, f, today) ==
      if entry.None? || f.acceptance.Some? || !f.dimension.ToolScope? then f
      else f.(acceptance := Some(Attach(entry.value, today)))
  {
    CandidatesChooseTheSame(entries, server, f, today);
  }

  /** The findings loop of one server. */
  method ApplyToServer(entries: seq<LedgerEntry>, s: Server, today: int)
    returns (r: Server, warnings: seq<(string, string)>)
    ensures r == AppliedServer(entries, s, today)
    ensures warnings == Warnings(entries, s.id, s.findings, today)
  {
    var candidates := Candidates(entries, s.id);
    var findings := [];
    warnings := [];
    var touched := false;
    for i := 0 to |s.findings|
      invariant findings == AppliedFindings(entries, s.id, s.findings[..i], today)
      invariant !touched ==> findings == s.findings[..i]
      invariant warnings == Warnings(entries, s.id, s.findings[..i], today)
    {
      var f := s.findings[i];
      OneFinding(entries, s.id, s.findings, today, i);
      assert s.findings[..i + 1] == s.findings[..i] + [f];
      var entry := Choose(candidates, s.id, f, today);
      Branches(entries, s.id, f, today, entry);
      if entry.None? || f.acceptance.Some? {
        findings := findings + [f];
      } else if !f.dimension.ToolScope? {
        warnings := warnings + [(f.id, s.id)];
        findings := findings + [f];
      } else {
        findings := findings + [f.(acceptance := Some(Attach(entry.value, today)))];
        touched := true;
      }
    }
    assert s.findings[..|s.findings|] == s.findings;
    r := if touched then s.(findings := findings) else s;
  }

  /** `apply_acceptances`: every finding of every server, and nothing else. */
  method ApplyAcceptances(report: Report, entries: seq<LedgerEntry>, today: int)
    returns (r: Report, warnings: seq<(string, string)>)
    ensures r.overallGrade == report.overallGrade && r.dimensionGrades == report.dimensionGrades
    ensures r.servers == AppliedAll(entries, report.servers, today)
    ensures warnings == AllWarnings(entries, report.servers, today)
  {
    if entries == [] {
      forall i | 0 <= i < |report.servers|
        ensures AppliedServer(entries, report.servers[i], today) == report.servers[i] {
        assert AppliedServer(entries, report.servers[i], today).findings == report.servers[i].findings;
      }
      NoneRefused(report.servers, today);
      return report, [];
    }
    var servers := [];
    warnings := [];
    for i := 0 to |report.servers|
      invariant |servers| == i
      invariant forall j :: 0 <= j < i ==> servers[j] == AppliedServer(entries, report.servers[j], today)
      invariant warnings == AllWarnings(entries, report.servers[..i], today)
    {
      assert report.servers[..i + 1][..i] == report.servers[..i];
      var s, more := ApplyToServer(entries, report.servers[i], today);
      servers := servers + [s];
      warnings := warnings + more;
    }
    assert report.servers[..|report.servers|] == report.servers;
    r := report.(servers := servers);
  }

  lemma {:induction false} NoneRefused(servers: seq<Server>, today: int)
    ensures AllWarnings([], servers, today) == []
  {
    if servers != [] {
      NoneRefused(servers[..|servers| - 1], today);
      NothingRefused(servers[|servers| - 1].id, servers[|servers| - 1].findings, today);
    }
  }

  lemma {:induction false} NothingRefused(id: string, findings: seq<Finding>, today: int)
    ensures Warnings([], id, findings, today) == []
  {
    if findings != [] { NothingRefused(id, findings[..|findings| - 1], today); }
  }

  // ---- the gate -----------------------------------------------------------------------------

  predicate Shielded(f: Finding) { f.acceptance.Some? && !f.acceptance.value.expired }

  /** `_exit_code` is non-zero: some unshielded finding is at or above the threshold. */
  ghost predicate GateFails(servers: seq<Server>, blocking: set<Severity>) {
    exists s, f :: s in servers && f in s.findings && f.severity in blocking && !Shielded(f)
  }

  ghost function AppliedAll(entries: seq<LedgerEntry>, servers: seq<Server>, today: int): seq<Server> {
    seq(|servers|, i requires 0 <= i < |servers| => AppliedServer(entries, servers[i], today))
  }

  /** The entry names the finding and its server, whole or by what follows a "#". */
  ghost predicate Names(e: LedgerEntry, server: string, f: Finding) {
    e.finding == f.id && (server == e.server || exists before :: server == before + "#" + e.server)
  }

  lemma AppliesIff(e: LedgerEntry, server: string, f: Finding)
    ensures Applies(e, server, f) <==> Names(e, server, f)
  {
    ServerMatchesIff(server, e.server);
  }

  /** A finding is shielded exactly when it came with a live acceptance, or is a fresh tool-scope
      finding for which some entry of the ledger still holds. */
  lemma ShieldedIff(entries: seq<LedgerEntry>, server: string, f: Finding, today: int)
    ensures Shielded(Applied(entries, server, f, today)) <==>
      if f.acceptance.Some? then !f.acceptance.value.expired
      else f.dimension.ToolScope? && exists e :: e in entries && Names(e, server, f) && today <= e.expires
    ensures Applied(entries, server, f, today).(acceptance := f.acceptance) == f
  {
    forall e ensures Applies(e, server, f) <==> Names(e, server, f) { AppliesIff(e, server, f); }
  }

  /** An acceptance holds through its last day and not longer; what it attaches is what the entry
      says. */
  lemma HoldsThroughItsDay(e: LedgerEntry, server: string, f: Finding, today: int)
    requires e.finding == f.id && (server == e.server || EndsWith(server, "#" + e.server))
    requires f.dimension == ToolScope && f.acceptance == None
    ensures Shielded(Applied([e], server, f, today)) <==> today <= e.expires
    ensures Applied([e], server, f, today).acceptance
         == Some(Acceptance(e.owner, e.accepted, e.expires, e.reason, today > e.expires))
  {
    assert [e][1..] == [];
  }

  lemma GateFailsIff(entries: seq<LedgerEntry>, servers: seq<Server>, today: int, blocking: set<Severity>)
    ensures GateFails(AppliedAll(entries, servers, today), blocking) <==>
      exists s, f ::
        s in servers && f in s.findings && f.severity in blocking && !Shielded(Applied(entries, s.id, f, today))
  {
    var after := AppliedAll(entries, servers, today);
    if s, f :| s in after && f in s.findings && f.severity in blocking && !Shielded(f) {
      var i :| 0 <= i < |after| && after[i] == s;
      var j :| 0 <= j < |s.findings| && s.findings[j] == f;
      assert servers[i] in servers && servers[i].findings[j] in servers[i].findings;
      assert f == Applied(entries, servers[i].id, servers[i].findings[j], today);
    }
    if s, f :|
      s in servers && f in s.findings && f.severity in blocking && !Shielded(Applied(entries, s.id, f, today)) {
      var i :| 0 <= i < |servers| && servers[i] == s;
      var j :| 0 <= j < |s.findings| && s.findings[j] == f;
      assert after[i] in after && after[i].findings[j] in after[i].findings;
      assert after[i].findings[j] == Applied(entries, s.id, f, today);
    }
  }

  /** The gate only tightens: with a ledger no larger and a day no earlier, a failing gate still
      fails. Reordering a ledger, adding to it or going back in time never fails a passing gate. */
  lemma GateMonotone(entries: seq<LedgerEntry>, fewer: seq<LedgerEntry>, servers: seq<Server>, today: int,
                     later: int, blocking: set<Severity>)
    requires today <= later && forall e :: e in fewer ==> e in entries
    requires GateFails(AppliedAll(entries, servers, today), blocking)
    ensures GateFails(AppliedAll(fewer, servers, later), blocking)
  {
    GateFailsIff(entries, servers, today, blocking);
    GateFailsIff(fewer, servers, later, blocking);
    var s, f :|
      s in servers && f in s.findings && f.severity in blocking && !Shielded(Applied(entries, s.id, f, today));
    ShieldedIff(entries, s.id, f, today);
    ShieldedIff(fewer, s.id, f, later);
  }

  /** No ledger whatsoever gets a credential, exposure or pinning finding past the gate. */
  lemma OnlyToolScopeIsAcceptable(entries: seq<LedgerEntry>, servers: seq<Server>, today: int,
                                  blocking: set<Severity>, s: Server, f: Finding)
    requires s in servers && f in s.findings && f.severity in blocking && !f.dimension.ToolScope? && f.acceptance.None?
    ensures GateFails(AppliedAll(entries, servers, today), blocking)
  {
    GateFailsIff(entries, servers, today, blocking);
    ShieldedIff(entries, s.id, f, today);
  }

  // ---- tool drift ---------------------------------------------------------------------------

  datatype ToolDriftAcceptance = ToolDriftAcceptance(
    server: string, tool: string, digest: string, owner: string, accepted: string, expires: int, reason: string)

  function RemovePrefix(s: string, prefix: string): string {
    if prefix <= s then s[|prefix|..] else s
  }

  predicate Covers(e: ToolDriftAcceptance, d: DriftEntry) {
    var server := Get(d.after, "server", "");
    && e.server == server
    && e.tool == RemovePrefix(d.key, "tool:" + server + ":")
    && Lookup(d.after, "digest") == Some(e.digest)
  }

  function ChooseTool(entries: seq<ToolDriftAcceptance>, d: DriftEntry, today: int): (r: Option<ToolDriftAcceptance>)
    ensures r.Some? ==> r.value in entries && Covers(r.value, d)
    ensures r.None? <==> forall e :: e in entries ==> !Covers(e, d)
    ensures (r.Some? && !Expired(r.value.expires, today)) <==>
        exists e :: e in entries && Covers(e, d) && !Expired(e.expires, today)
  {
    if entries == [] then None
    else
      assert entries == [entries[0]] + entries[1..];
      var rest := ChooseTool(entries[1..], d, today);
      if Covers(entries[0], d)
        && (!Expired(entries[0].expires, today) || rest.None? || Expired(rest.value.expires, today))
      then Some(entries[0])
      else rest
  }

  lemma {:induction false} ChooseToolIsFirst(entries: seq<ToolDriftAcceptance>, d: DriftEntry, today: int)
    requires ChooseTool(entries, d, today).Some?
    ensures exists i :: FirstToolChoice(entries, d, today, i) && entries[i] == ChooseTool(entries, d, today).value
  {
    assert entries == [entries[0]] + entries[1..];
    if ChooseTool(entries, d, today) == Some(entries[0]) && FirstToolChoice(entries, d, today, 0) {
    } else {
      var rest := entries[1..];
      ChooseToolIsFirst(rest, d, today);
      var i :| FirstToolChoice(rest, d, today, i) && rest[i] == ChooseTool(rest, d, today).value;
      assert FirstToolChoice(entries, d, today, i + 1);
    }
  }

  ghost predicate FirstToolChoice(entries: seq<ToolDriftAcceptance>, d: DriftEntry, today: int, i: int) {
    && 0 <= i < |entries| && Covers(entries[i], d)
    && forall j :: 0 <= j < i && Covers(entries[j], d) ==>
         Expired(entries[j].expires, today) && !Expired(entries[i].expires, today)
  }

  /** Of a tool's drift an entry has to name the server, the tool as its key does, and the new
      digest. */
  lemma CoversIff(e: ToolDriftAcceptance, d: DriftEntry, server: string, tool: string, digest: string)
    requires d.key == "tool:" + server + ":" + tool && Lookup(d.after, "server") == Some(server)
    requires Lookup(d.after, "digest") == Some(digest)
    ensures Covers(e, d) <==> e.server == server && e.tool == tool && e.digest == digest
  {
    assert d.key[|"tool:" + server + ":"|..] == tool;
  }

  /** What an acceptance of that very drift makes of it, day by day. */
  lemma WaivedThroughItsDay(e: ToolDriftAcceptance, d: DriftEntry, today: int)
    requires Covers(e, d) && d.kind == ToolFact && d.direction == Regression
    ensures Waived([e], d, today).direction == if today <= e.expires then Informational else Regression
    ensures Waived([e], d, today).acceptance
         == Some(Acceptance(e.owner, e.accepted, e.expires, e.reason, today > e.expires))
  {
    assert [e][1..] == [];
  }

  /** What applying a ledger does to one drift entry. */
  function Waived(entries: seq<ToolDriftAcceptance>, d: DriftEntry, today: int): DriftEntry {
    var chosen := ChooseTool(entries, d, today);
    if !d.kind.ToolFact? || !d.direction.Regression? || chosen.None? then d
    else
      var e := chosen.value;
      var expired := Expired(e.expires, today);
      d.(acceptance := Some(Acceptance(e.owner, e.accepted, e.expires, e.reason, expired)),
         direction := if expired then d.direction else Informational)
  }

  /** `apply_tool_drift_acceptances`: entry by entry, in the order of the report. */
  method ApplyToolDriftAcceptances(report: seq<DriftEntry>, entries: seq<ToolDriftAcceptance>, today: int)
    returns (r: seq<DriftEntry>)
    ensures |r| == |report| && forall i :: 0 <= i < |r| ==> r[i] == Waived(entries, report[i], today)
  {
    if entries == [] {
      return report;
    }
    r := [];
    for i := 0 to |report|
      invariant |r| == i && forall j :: 0 <= j < i ==> r[j] == Waived(entries, report[j], today)
    {
      var d := report[i];
      if !d.kind.ToolFact? || !d.direction.Regression? {
        r := r + [d];
        continue;
      }
      var chosen := ChooseTool(entries, d, today);
      if chosen.None? {
        r := r + [d];
        continue;
      }
      var e := chosen.value;
      var expired := Expired(e.expires, today);
      r := r + [d.(acceptance := Some(Acceptance(e.owner, e.accepted, e.expires, e.reason, expired)),
                   direction := if expired then d.direction else Informational)];
    }
  }

  /** A regression stops gating exactly when it is a tool's and an unexpired entry names its
      server, its tool and its new digest. */
  lemma WaivedIff(entries: seq<ToolDriftAcceptance>, d: DriftEntry, today: int)
    requires d.direction.Regression?
    ensures !Waived(entries, d, today).direction.Regression? <==>
      d.kind.ToolFact? && exists e :: e in entries && Covers(e, d) && !Expired(e.expires, today)
    ensures Waived(entries, d, today).(acceptance := d.acceptance, direction := d.direction) == d
  {
  }

  /** An acceptance of one digest lets nothing else through: after any further change of the tool
      the new drift gates again. */
  lemma NextChangeGatesAgain(entries: seq<ToolDriftAcceptance>, d: DriftEntry, today: int)
    requires d.direction.Regression? && d.kind.ToolFact?
    requires forall e :: e in entries ==> Lookup(d.after, "digest") != Some(e.digest)
    ensures Waived(entries, d, today).direction.Regression?
  {
  }

  /** White space as Python's `str.strip` sees it. */
  predicate IsBlank(c: char) {
    var n := c as int;
    || 9 <= n <= 13 || 28 <= n <= 32 || n == 0x85 || n == 0xA0 || n == 0x1680 || 0x2000 <= n <= 0x200A
    || n == 0x2028 || n == 0x2029 || n == 0x202F || n == 0x205F || n == 0x3000
  }

  predicate HasText(s: string) { exists i :: 0 <= i < |s| && !IsBlank(s[i]) }

  predicate IsSha256(s: string) {
    |s| == 64 && forall i :: 0 <= i < |s| ==> '0' <= s[i] <= '9' || 'a' <= s[i] <= 'f'
  }

  /** The tool entries that reading a ledger file lets through. */
  predicate Usable(e: ToolDriftAcceptance) {
    HasText(e.server) && HasText(e.tool) && IsSha256(e.digest) && HasText(e.owner)
  }

  ghost predicate AllUsable(entries: seq<ToolDriftAcceptance>) {
    forall e :: e in entries ==> Usable(e)
  }

  ghost predicate Waives(entries: seq<ToolDriftAcceptance>, d: DriftEntry, today: int) {
    !Waived(entries, d, today).direction.Regression?
  }

  /** Whether the new fact of a tool carries all that an acceptance has to name. */
  predicate CanBeNamed(f: PostureFact, key: string) {
    var server := Get(f.detail, "server", "");
    && "digest" in f.detail && IsSha256(f.detail["digest"])
    && HasText(server) && HasText(RemovePrefix(key, "tool:" + server + ":"))
  }

  /** What the entry of a changed tool keeps of the new fact. */
  lemma KeptOfTheNew(old': Facts, new': Facts, key: string)
    requires key in old' && key in new' && old'[key].kind.ToolFact? && new'[key].kind.ToolFact?
    requires EntryFor(old', new', key).Some?
    ensures var d := EntryFor(old', new', key).value;
      && d.key == key && d.kind.ToolFact? && d.direction.Regression?
      && Get(d.after, "server", "") == Get(new'[key].detail, "server", "")
      && Lookup(d.after, "digest") ==
        if IsImported(old'[key]) || IsImported(new'[key]) then None else Lookup(new'[key].detail, "digest")
  {
    DroppedAgree(old'[key].detail, new'[key].detail, COMPAT_OPTIONAL);
  }

  function NamingEntry(f: PostureFact, key: string, today: int): ToolDriftAcceptance {
    var server := Get(f.detail, "server", "");
    ToolDriftAcceptance(server, RemovePrefix(key, "tool:" + server + ":"), Get(f.detail, "digest", ""), "owner", "",
                        today, "")
  }

  /** A change of a tool can be waived at all exactly when neither fact is an imported pin and the
      new one has a digest; by a ledger read from files, exactly when moreover what it has to name
      passes the checks on a ledger. */
  lemma CanBeWaivedIff(old': Facts, new': Facts, key: string, today: int)
    requires key in old' && key in new' && old'[key].kind.ToolFact? && new'[key].kind.ToolFact?
    requires EntryFor(old', new', key).Some?
    ensures (exists entries :: Waives(entries, EntryFor(old', new', key).value, today))
      <==> !IsImported(old'[key]) && !IsImported(new'[key]) && "digest" in new'[key].detail
    ensures (exists entries :: AllUsable(entries) && Waives(entries, EntryFor(old', new', key).value, today))
      <==> !IsImported(old'[key]) && !IsImported(new'[key]) && CanBeNamed(new'[key], key)
  {
    var d, f := EntryFor(old', new', key).value, new'[key];
    KeptOfTheNew(old', new', key);
    forall entries | Waives(entries, d, today)
      ensures !IsImported(old'[key]) && !IsImported(f) && "digest" in f.detail
      ensures AllUsable(entries) ==> CanBeNamed(f, key) {
      WaivedIff(entries, d, today);
    }
    if !IsImported(old'[key]) && !IsImported(f) && "digest" in f.detail {
      NamingEntryWaives(d, f, today);
    }
  }

  lemma NamingEntryWaives(d: DriftEntry, f: PostureFact, today: int)
    requires d.direction.Regression? && d.kind.ToolFact? && "digest" in f.detail
    requires Get(d.after, "server", "") == Get(f.detail, "server", "")
    requires Lookup(d.after, "digest") == Lookup(f.detail, "digest")
    ensures Waives([NamingEntry(f, d.key, today)], d, today)
    ensures CanBeNamed(f, d.key) ==> AllUsable([NamingEntry(f, d.key, today)])
  {
    var e := NamingEntry(f, d.key, today);
    assert e in [e] && Covers(e, d) && !Expired(e.expires, today);
    WaivedIff([e], d, today);
    assert HasText(e.owner) by { assert !IsBlank(e.owner[0]); }
  }

  /** So drift against an imported pin gates under every ledger. */
  lemma ImportedDriftCannotBeWaived(old': Facts, new': Facts, key: string, entries: seq<ToolDriftAcceptance>,
                                    today: int)
    requires key in old' && key in new' && (IsImported(old'[key]) || IsImported(new'[key]))
    requires EntryFor(old', new', key).Some? && EntryFor(old', new', key).value.direction.Regression?
    ensures Waived(entries, EntryFor(old', new', key).value, today).direction.Regression?
  {
  }

  // ---- one server with one tool -------------------------------------------------------------

  /** Sixty-four hex digits, all alike. */
  function Sha(c: char): string { seq(64, _ => c) }

  function Machine(bind: string, loopback: bool, description: char, digest: char, pin: string): S.Server {
    S.Server("s", "running", true, bind, loopback, Some(8080), false, None, [],
             [S.ToolPrint("t", Sha(digest), Sha(description), Sha('0'), [], pin)])
  }

  function SeenAs(m: S.Server): Facts { Postures.Posture([m], []) }

  function MachineTool(description: char, digest: char, pin: string): PostureFact {
    var detail := map["server" := "s", "digest" := Sha(digest), "description" := Sha(description),
                      "schema" := Sha('0')];
    PostureFact(ToolFact, "tool:s:t", "s tool t", if pin != "" then detail["mcpseal" := pin] else detail)
  }

  lemma SeenMachine(bind: string, loopback: bool, description: char, digest: char, pin: string)
    ensures var m := Machine(bind, loopback, description, digest, pin);
      SeenAs(m) == map["server:s" := S.ServerFactOf(m), "tool:s:t" := MachineTool(description, digest, pin)]
  {
    var m := Machine(bind, loopback, description, digest, pin);
    Postures.OneTool(m);
    assert "tool:" + "s" + ":" + "t" == "tool:s:t" && "s" + " tool " + "t" == "s tool t";
    assert S.ToolFactFor(m, m.tools[0], "t") == MachineTool(description, digest, pin);
    assert S.ServerFactOf(m).key == "server:" + "s" == "server:s";
  }

  /** The server as a lockfile imported from another tool pins it: a seal and no digest. */
  const PIN: PostureFact :=
    PostureFact(ToolFact, "tool:s:t", "t", map["server" := "s", "mcpseal" := "a", "provenance" := "lock"])

  /** Such a drift: a live server's tool has another seal than the imported pin, and the ledger
      names the tool's new digest in vain. */
  lemma ImportedPinGatesForEver(today: int)
    ensures var now := SeenAs(Machine("", true, '1', 'a', "b"));
      var d := EntryFor(map["tool:s:t" := PIN], now, "tool:s:t");
      && d.Some? && d.value.direction.Regression?
      && Waived([NamingEntry(MachineTool('1', 'a', "b"), "tool:s:t", today)], d.value, today).direction.Regression?
  {
    SeenMachine("", true, '1', 'a', "b");
    var now, tool := SeenAs(Machine("", true, '1', 'a', "b")), MachineTool('1', 'a', "b");
    assert now["tool:s:t"] == tool;
    var b, a := Aligned(PIN, tool).0, Aligned(PIN, tool).1;
    assert b["mcpseal"] == "a" && a["mcpseal"] == "b";
    assert EntryFor(map["tool:s:t" := PIN], now, "tool:s:t").Some?;
    ImportedDriftCannotBeWaived(map["tool:s:t" := PIN], now, "tool:s:t", [NamingEntry(tool, "tool:s:t", today)], today);
  }

  // ---- the order of a waived report ---------------------------------------------------------

  predicate IsWaived(entries: seq<ToolDriftAcceptance>, d: DriftEntry, today: int) {
    d.direction.Regression? && !Waived(entries, d, today).direction.Regression?
  }

  function PlaceKey(d: DriftEntry): SortKey { [Codes(d.kind.Value()), Codes(d.key)] }

  /** What may stand after a waived entry. */
  predicate MayFollow(waived: DriftEntry, d: DriftEntry) {
    d.direction.Informational? && KeyLe(PlaceKey(waived), PlaceKey(d))
  }

  lemma EntryKeySplits(x: DriftEntry, y: DriftEntry)
    ensures KeyLe(EntryKey(x), EntryKey(y)) <==>
      x.direction.Order() < y.direction.Order() || (x.direction == y.direction && KeyLe(PlaceKey(x), PlaceKey(y)))
  {
    assert EntryKey(x)[1..] == PlaceKey(x) && EntryKey(y)[1..] == PlaceKey(y);
  }

  lemma PairStays(entries: seq<ToolDriftAcceptance>, x: DriftEntry, y: DriftEntry, today: int)
    requires KeyLe(EntryKey(x), EntryKey(y))
    ensures KeyLe(EntryKey(Waived(entries, x, today)), EntryKey(Waived(entries, y, today))) <==>
      (IsWaived(entries, x, today) && !IsWaived(entries, y, today) ==> MayFollow(x, y))
  {
    var x', y' := Waived(entries, x, today), Waived(entries, y, today);
    EntryKeySplits(x, y);
    EntryKeySplits(x', y');
    assert PlaceKey(x') == PlaceKey(x) && PlaceKey(y') == PlaceKey(y);
  }

  /** Waived entries keep their place. The report stays in the order of the diff exactly when
      whatever follows a waived entry is waived too, or is informational with no smaller kind and
      key. */
  lemma StaysOrderedIff(report: seq<DriftEntry>, r: seq<DriftEntry>, entries: seq<ToolDriftAcceptance>, today: int)
    requires |r| == |report| && forall k :: 0 <= k < |r| ==> r[k] == Waived(entries, report[k], today)
    requires Ordered(report, EntryKey)
    ensures Ordered(r, EntryKey) <==> forall i, j :: 0 <= i < j < |report| ==>
      IsWaived(entries, report[i], today) && !IsWaived(entries, report[j], today) ==> MayFollow(report[i], report[j])
  {
    forall i, j | 0 <= i < j < |report|
      ensures KeyLe(EntryKey(r[i]), EntryKey(r[j])) <==>
        (IsWaived(entries, report[i], today) && !IsWaived(entries, report[j], today) ==>
            MayFollow(report[i], report[j])) {
      PairStays(entries, report[i], report[j], today);
    }
  }

  const TOOL_KEY := "tool:s:t"
  const SERVER_KEY := "server:s"

  /** Keyed facts of the server: exposed with a first version of its tool, or on loopback with
      another description and digest. */
  ghost predicate Open(m: Facts) {
    && m.Keys == {TOOL_KEY, SERVER_KEY} && m[TOOL_KEY] == MachineTool('1', 'a', "")
    && m[SERVER_KEY] == S.ServerFactOf(Machine("0.0.0.0", false, '1', 'a', ""))
  }

  ghost predicate Closed(m: Facts) {
    && m.Keys == {TOOL_KEY, SERVER_KEY} && m[TOOL_KEY] == MachineTool('2', 'b', "")
    && m[SERVER_KEY] == S.ServerFactOf(Machine("127.0.0.1", true, '2', 'b', ""))
  }

  lemma ToolWasRewritten(a: Facts, b: Facts)
    requires Open(a) && Closed(b)
    ensures var d := EntryFor(a, b, TOOL_KEY);
      d.Some? && d.value.key == TOOL_KEY && d.value.kind.ToolFact? && d.value.direction.Regression?
        && d.value.cause.ToolDescChanged?
  {
    assert Sha('1')[0] != Sha('2')[0];
    assert Lookup(a[TOOL_KEY].detail, "description") != Lookup(b[TOOL_KEY].detail, "description");
    ChangedToolGates(a, b, TOOL_KEY, "description");
  }

  lemma ServerWasClosed(a: Facts, b: Facts)
    requires Open(a) && Closed(b)
    ensures var d := EntryFor(a, b, SERVER_KEY);
      d.Some? && d.value.key == SERVER_KEY && d.value.kind.ServerFact? && d.value.direction.Improvement?
        && d.value.cause.ExposureDrift?
  {
    var x, y := a[SERVER_KEY], b[SERVER_KEY];
    assert IsExposed(x) && !IsExposed(y) && !IsDark(y);
    AlignedEqualIff(x, y);
    assert Lookup(Comparable(x), "exposure") != Lookup(Comparable(y), "exposure");
    assert "exposure" !in COMPAT_OPTIONAL;
  }

  lemma TwoEntriesDiff(a: Facts, b: Facts, x: DriftEntry, y: DriftEntry)
    requires a.Keys == b.Keys == {x.key, y.key}
    requires EntryFor(a, b, x.key) == Some(x) && EntryFor(a, b, y.key) == Some(y)
    requires x.direction.Order() < y.direction.Order()
    ensures IsDiff(a, b, [x, y])
  {
  }

  lemma NewToolCanBeNamed(f: PostureFact)
    requires f == MachineTool('2', 'b', "")
    ensures !IsImported(f) && CanBeNamed(f, TOOL_KEY)
  {
    assert "tool:" + "s" + ":" == "tool:s:" && RemovePrefix(TOOL_KEY, "tool:s:") == "t";
    assert !IsBlank("s"[0]) && !IsBlank("t"[0]);
    assert f.detail["server"] == "s" && f.detail["digest"] == Sha('b');
  }

  lemma WaivedBeforeAnImprovement(entries: seq<ToolDriftAcceptance>, x: DriftEntry, y: DriftEntry, today: int)
    requires x.direction.Regression? && Waives(entries, x, today) && y.direction.Improvement?
    ensures var r := [Waived(entries, x, today), Waived(entries, y, today)];
      !Ordered(r, EntryKey) && forall d :: d in r ==> !d.direction.Regression?
  {
    var r := [Waived(entries, x, today), Waived(entries, y, today)];
    EntryKeySplits(x, y);
    assert Ordered([x, y], EntryKey);
    StaysOrderedIff([x, y], r, entries, today);
    assert IsWaived(entries, [x, y][0], today) && !MayFollow([x, y][0], [x, y][1]);
  }

  lemma MachineWasOpen()
    ensures Open(SeenAs(Machine("0.0.0.0", false, '1', 'a', "")))
  {
    SeenMachine("0.0.0.0", false, '1', 'a', "");
  }

  lemma MachineIsClosed()
    ensures Closed(SeenAs(Machine("127.0.0.1", true, '2', 'b', "")))
  {
    SeenMachine("127.0.0.1", true, '2', 'b', "");
  }

  /** A diff that waiving leaves unsorted, with nothing left in it that gates: a tool changed and was
      accepted by a ledger, and its server stopped being exposed. */
  lemma WaivingBreaksTheOrder(today: int)
    returns (report: seq<DriftEntry>, entries: seq<ToolDriftAcceptance>, r: seq<DriftEntry>)
    ensures IsDiff(SeenAs(Machine("0.0.0.0", false, '1', 'a', "")), SeenAs(Machine("127.0.0.1", true, '2', 'b', "")),
                   report)
    ensures AllUsable(entries)
    ensures |r| == |report| && forall k :: 0 <= k < |r| ==> r[k] == Waived(entries, report[k], today)
    ensures !Ordered(r, EntryKey) && forall d :: d in r ==> !d.direction.Regression?
  {
    MachineWasOpen();
    MachineIsClosed();
    report, entries, r := Unsorted(SeenAs(Machine("0.0.0.0", false, '1', 'a', "")),
                                   SeenAs(Machine("127.0.0.1", true, '2', 'b', "")), today);
  }

  lemma LedgerForTheTool(a: Facts, b: Facts, today: int) returns (entries: seq<ToolDriftAcceptance>)
    requires Open(a) && Closed(b) && EntryFor(a, b, TOOL_KEY).Some?
    ensures AllUsable(entries) && Waives(entries, EntryFor(a, b, TOOL_KEY).value, today)
  {
    var old', new' := a[TOOL_KEY], b[TOOL_KEY];
    assert !IsImported(old') && old'.kind.ToolFact?;
    NewToolCanBeNamed(new');
    entries := LedgerFor(a, b, TOOL_KEY, today);
  }

  lemma LedgerFor(a: Facts, b: Facts, key: string, today: int) returns (entries: seq<ToolDriftAcceptance>)
    requires key in a && key in b && a[key].kind.ToolFact? && b[key].kind.ToolFact? && EntryFor(a, b, key).Some?
    requires !IsImported(a[key]) && !IsImported(b[key]) && CanBeNamed(b[key], key)
    ensures AllUsable(entries) && Waives(entries, EntryFor(a, b, key).value, today)
  {
    CanBeWaivedIff(a, b, key, today);
    entries :| AllUsable(entries) && Waives(entries, EntryFor(a, b, key).value, today);
  }

  lemma Unsorted(a: Facts, b: Facts, today: int)
    returns (report: seq<DriftEntry>, entries: seq<ToolDriftAcceptance>, r: seq<DriftEntry>)
    requires Open(a) && Closed(b)
    ensures IsDiff(a, b, report) && AllUsable(entries)
    ensures |r| == |report| && forall k :: 0 <= k < |r| ==> r[k] == Waived(entries, report[k], today)
    ensures !Ordered(r, EntryKey) && forall d :: d in r ==> !d.direction.Regression?
  {
    ToolWasRewritten(a, b);
    ServerWasClosed(a, b);
    var tool, server := EntryFor(a, b, TOOL_KEY).value, EntryFor(a, b, SERVER_KEY).value;
    TwoEntriesDiff(a, b, tool, server);
    entries := LedgerForTheTool(a, b, today);
    WaivedBeforeAnImprovement(entries, tool, server, today);
    report, r := [tool, server], [Waived(entries, tool, today), Waived(entries, server, today)];
  }
}
