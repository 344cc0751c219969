/** Snapshots of posture and the direction of every change between two of them
    (drift/model.py, drift/diff.py). */
module Drift {
  import opened GraphModel
  import opened Orders

  datatype FactKind = ServerFact | FindingFact | AssetFact | ToolFact {
    function Value(): string {
      match this
      case ServerFact => "server"
      case FindingFact => "finding"
      case AssetFact => "asset"
      case ToolFact => "tool"
    }
  }

  /** A fact's detail is a sorted tuple of pairs with distinct names, which is a map. */
  type Detail = map<string, string>

  datatype PostureFact = PostureFact(kind: FactKind, key: string, summary: string, detail: Detail)

  datatype Snapshot = Snapshot(schemaVersion: string, facts: seq<PostureFact>)

  datatype Direction = Regression | Improvement | Informational {
    function Order(): int {
      match this
      case Regression => 0
      case Improvement => 1
      case Informational => 2
    }
  }

  datatype Change = Added | Removed | Changed

  datatype Cause =
    | ConfigDrift | ProvenanceDrift | ExposureDrift | InspectionRegression | InventoryDrift | ToolIdentityDrift
    | ToolAdded | ToolRemoved | ToolDescChanged | ToolSchemaChanged | ToolAnnotRelaxed | ToolAnnotTightened
    | ToolPinChanged | OtherCause

  datatype Acceptance = Acceptance(owner: string, accepted: string, expires: int, reason: string, expired: bool)

  datatype DriftEntry = DriftEntry(
    change: Change, kind: FactKind, key: string, summary: string, direction: Direction, cause: Cause,
    before: Detail, after: Detail, acceptance: Option<Acceptance>)

  type Facts = map<string, PostureFact>

  /** `by_key`: a later fact replaces an earlier one with the same key. */
  function ByKey(facts: seq<PostureFact>): Facts {
    if facts == [] then map[]
    else ByKey(facts[..|facts| - 1])[facts[|facts| - 1].key := facts[|facts| - 1]]
  }

  // ---- reading a fact -----------------------------------------------------------------------

  function Get(d: Detail, name: string, default: string): string {
    if name in d then d[name] else default
  }

  function Lookup(d: Detail, name: string): Option<string> {
    if name in d then Some(d[name]) else None
  }

  predicate IsExposed(f: PostureFact) { Get(f.detail, "exposure", "") == "exposed" }

  predicate IsDark(f: PostureFact) { Get(f.detail, "inspection_incomplete", "false") == "true" }

  predicate IsImported(f: PostureFact) { f.kind.ToolFact? && "provenance" in f.detail }

  function Comparable(f: PostureFact): Detail {
    if f.kind.ServerFact? && "inspection_incomplete" !in f.detail then f.detail["inspection_incomplete" := "false"]
    else f.detail
  }

  const COMPAT_OPTIONAL: seq<string> := ["tool_identity", "mcpseal"]

  const IMPORTED_TOOL_KEYS: set<string> := {"server", "mcpseal"}

  /** Drops each listed name from both details when either lacks it. */
  function DropUnshared(b: Detail, a: Detail, names: seq<string>): (Detail, Detail) {
    if names == [] then (b, a)
    else if names[0] !in b || names[0] !in a then DropUnshared(b - {names[0]}, a - {names[0]}, names[1..])
    else DropUnshared(b, a, names[1..])
  }

  function Aligned(before: PostureFact, after: PostureFact): (Detail, Detail) {
    var b, a := Comparable(before), Comparable(after);
    if IsImported(before) || IsImported(after) then
      (map n | n in b && n in IMPORTED_TOOL_KEYS :: b[n], map n | n in a && n in IMPORTED_TOOL_KEYS :: a[n])
    else DropUnshared(b, a, COMPAT_OPTIONAL)
  }

  predicate IdentityChanged(before: PostureFact, after: PostureFact) {
    && "tool_identity" in before.detail && "tool_identity" in after.detail
    && before.detail["tool_identity"] != after.detail["tool_identity"]
  }

  // ---- direction and cause of one change ----------------------------------------------------

  predicate StartsWith(s: string, prefix: string) { prefix <= s }

  /** The part of s before the first occurrence of sep. */
  function Before(s: string, sep: string): string {
    if s == "" || sep <= s then "" else [s[0]] + Before(s[1..], sep)
  }

  function FindingCause(f: PostureFact): Cause {
    var id := if Get(f.detail, "id", "") != "" then f.detail["id"] else Before(f.summary, " \U{2014} ");
    if StartsWith(id, "PIN-") then ProvenanceDrift
    else if Get(f.detail, "dimension", "") == "exposure" || StartsWith(id, "EXP-") || StartsWith(id, "EXPOSE-") then
      ExposureDrift
    else if StartsWith(id, "CRED-") || StartsWith(id, "SCOPE-") then ConfigDrift
    else OtherCause
  }

  /** The four behaviour hints with the permissive value that stands for an absent one. */
  const HINTS: seq<(string, string)> := [
    ("annotation.readOnlyHint", "false"), ("annotation.destructiveHint", "true"),
    ("annotation.idempotentHint", "false"), ("annotation.openWorldHint", "true")]

  /** Moved to its permissive default. */
  predicate HintRelaxed(b: Detail, a: Detail, h: (string, string)) {
    HintMoved(b, a, h) && Get(a, h.0, h.1) == h.1
  }

  predicate HintMoved(b: Detail, a: Detail, h: (string, string)) {
    Get(b, h.0, h.1) != Get(a, h.0, h.1)
  }

  function ClassifyTool(before: PostureFact, after: PostureFact): Cause {
    var b, a := before.detail, after.detail;
    if IsImported(before) || IsImported(after) then ToolPinChanged
    else if Lookup(b, "description") != Lookup(a, "description") then ToolDescChanged
    else if Lookup(b, "schema") != Lookup(a, "schema") then ToolSchemaChanged
    else if exists i :: 0 <= i < |HINTS| && HintRelaxed(b, a, HINTS[i]) then ToolAnnotRelaxed
    else if exists i :: 0 <= i < |HINTS| && HintMoved(b, a, HINTS[i]) then ToolAnnotTightened
    else ToolIdentityDrift
  }

  function ClassifyChanged(before: PostureFact, after: PostureFact): (Direction, Cause) {
    if after.kind.ToolFact? then (Regression, ClassifyTool(before, after))
    else if after.kind.FindingFact? then (Informational, FindingCause(after))
    else if after.kind.AssetFact? then (Informational, InventoryDrift)
    else if !IsDark(before) && IsDark(after) then (Regression, InspectionRegression)
    else if !IsExposed(before) && IsExposed(after) then (Regression, ExposureDrift)
    else if IdentityChanged(before, after) then (Regression, ToolIdentityDrift)
    else if IsExposed(before) && !IsExposed(after) then (Improvement, ExposureDrift)
    else if IsDark(before) && !IsDark(after) then (Improvement, InspectionRegression)
    else (Informational, OtherCause)
  }

  function ServerKey(id: string): string { "server:" + id }

  /** Whether the baseline pinned this server's tools. The prefix test is on key strings, as in
      the program, so a tool of a server "a:b" also counts for a server "a". */
  predicate PinsToolsOf(old': Facts, server: string) {
    ServerKey(server) in old' &&
    ((exists k :: k in old' && StartsWith(k, "tool:" + server + ":"))
     || "tool_identity" !in old'[ServerKey(server)].detail)
  }

  function ClassifyAdded(old': Facts, f: PostureFact): (Direction, Cause) {
    match f.kind
    case ToolFact => (if PinsToolsOf(old', Get(f.detail, "server", "")) then Regression else Informational, ToolAdded)
    case FindingFact => (Regression, FindingCause(f))
    case AssetFact => (Informational, InventoryDrift)
    case ServerFact => if IsExposed(f) then (Regression, ExposureDrift) else (Informational, OtherCause)
  }

  function ClassifyRemoved(f: PostureFact): (Direction, Cause) {
    match f.kind
    case ToolFact => (Informational, ToolRemoved)
    case FindingFact => (Improvement, FindingCause(f))
    case AssetFact => (Informational, InventoryDrift)
    case ServerFact => if IsExposed(f) then (Informational, ExposureDrift) else (Informational, OtherCause)
  }

  /** What the diff of two keyed snapshots says about one key. */
  function EntryFor(old': Facts, new': Facts, key: string): Option<DriftEntry> {
    if key in new' && key !in old' then
      var f := new'[key];
      var dc := ClassifyAdded(old', f);
      Some(DriftEntry(Added, f.kind, key, f.summary, dc.0, dc.1, map[], Comparable(f), None))
    else if key in old' && key !in new' then
      var f := old'[key];
      var dc := ClassifyRemoved(f);
      Some(DriftEntry(Removed, f.kind, key, f.summary, dc.0, dc.1, Comparable(f), map[], None))
    else if key in old' && key in new' then
      var b, a := old'[key], new'[key];
      var details := Aligned(b, a);
      if details.0 == details.1 then None
      else
        var dc := ClassifyChanged(b, a);
        Some(DriftEntry(Changed, a.kind, key, a.summary, dc.0, dc.1, details.0, details.1, None))
    else None
  }

  // ---- the diff -----------------------------------------------------------------------------

  function EntryKey(e: DriftEntry): SortKey { [[e.direction.Order()], Codes(e.kind.Value()), Codes(e.key)] }

  ghost predicate IsDiff(old': Facts, new': Facts, entries: seq<DriftEntry>) {
    && StrictlyOrdered(entries, EntryKey)
    && forall e :: e in entries <==> EntryFor(old', new', e.key) == Some(e)
  }

  /** The diff is a function of the two snapshots, whatever order the key sets come in. */
  lemma DiffUnique(old': Facts, new': Facts, x: seq<DriftEntry>, y: seq<DriftEntry>)
    requires IsDiff(old', new', x) && IsDiff(old', new', y)
    ensures x == y
  {
    StrictlyOrderedUnique(x, y, EntryKey);
  }

  lemma EntryKeyTellsKey(x: DriftEntry, y: DriftEntry)
    requires EntryKey(x) == EntryKey(y)
    ensures x.key == y.key
  {
    assert EntryKey(x)[2] == EntryKey(y)[2];
    CodesInjective(x.key, y.key);
  }

  ghost predicate EntriesOf(old': Facts, new': Facts, keys: set<string>, entries: seq<DriftEntry>) {
    && DistinctKeys(entries, EntryKey)
    && forall e :: e in entries <==> e.key in keys && EntryFor(old', new', e.key) == Some(e)
  }

  /** One of the three key loops: every key of a set that the diff has something to say about. */
  method Collect(old': Facts, new': Facts, ghost done: set<string>, keys: set<string>, entries0: seq<DriftEntry>)
    returns (entries: seq<DriftEntry>)
    requires done !! keys && EntriesOf(old', new', done, entries0)
    ensures EntriesOf(old', new', done + keys, entries)
  {
    entries := entries0;
    var todo := keys;
    while todo != {}
      invariant todo <= keys
      invariant EntriesOf(old', new', done + keys - todo, entries)
      decreases todo
    {
      var key :| key in todo;
      var entry := EntryFor(old', new', key);
      todo := todo - {key};
      if entry.Some? {
        forall x | x in entries ensures EntryKey(x) != EntryKey(entry.value) {
          if EntryKey(x) == EntryKey(entry.value) { EntryKeyTellsKey(x, entry.value); }
        }
        entries := entries + [entry.value];
      }
    }
    assert done + keys - {} == done + keys;
  }

  /** `diff_snapshots`: added, removed and common keys in turn, then sorted. */
  method DiffSnapshots(baseline: Snapshot, current: Snapshot) returns (entries: seq<DriftEntry>)
    ensures IsDiff(ByKey(baseline.facts), ByKey(current.facts), entries)
  {
    var old', new' := ByKey(baseline.facts), ByKey(current.facts);
    var added, removed, common := new'.Keys - old'.Keys, old'.Keys - new'.Keys, old'.Keys * new'.Keys;
    entries := Collect(old', new', {}, added, []);
    assert {} + added == added;
    entries := Collect(old', new', added, removed, entries);
    entries := Collect(old', new', added + removed, common, entries);
    ghost var listed := entries;
    assert added + removed + common == old'.Keys + new'.Keys;
    SortByStrict(entries, EntryKey);
    entries := SortBy(entries, EntryKey);
    forall e ensures e in entries <==> EntryFor(old', new', e.key) == Some(e) {
      assert e in entries <==> e in multiset(entries);
      assert e in listed <==> e in multiset(listed);
    }
  }
}
