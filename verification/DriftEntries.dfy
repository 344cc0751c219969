/** What every entry of a diff says, kind by kind, in terms of the names and values that the facts
    carry (drift/diff.py). */
module DriftEntries {
  import opened GraphModel
  import opened Orders
  import opened Drift
  import opened DriftTheorems

  // ---- reading facts --------------------------------------------------------------------------

  ghost predicate Carries(f: PostureFact, name: string, value: string) {
    name in f.detail && f.detail[name] == value
  }

  /** What a fact is compared by: a server that does not say whether its inspection was incomplete
      counts as saying that it was not. */
  ghost function Reads(f: PostureFact, name: string): Option<string> {
    if name in f.detail then Some(f.detail[name])
    else if f.kind == ServerFact && name == "inspection_incomplete" then Some("false")
    else None
  }

  ghost predicate Pinned(f: PostureFact) { f.kind == ToolFact && "provenance" in f.detail }

  ghost predicate Optional(name: string) { name == "tool_identity" || name == "mcpseal" }

  ghost predicate AllOptional() { forall n :: n in COMPAT_OPTIONAL <==> Optional(n) }

  lemma OptionalNames()
    ensures AllOptional()
  {
    assert COMPAT_OPTIONAL[0] == "tool_identity" && COMPAT_OPTIONAL[1] == "mcpseal";
  }

  lemma ReadsIs(f: PostureFact)
    ensures forall n :: Lookup(Comparable(f), n) == Reads(f, n)
    ensures IsImported(f) <==> Pinned(f)
  {
  }

  // ---- whether there is an entry --------------------------------------------------------------

  /** Two facts of one key count as equal. An imported pin is compared by server and seal alone;
      otherwise every name counts, the optional ones only where both facts have them. */
  ghost predicate SameFact(b: PostureFact, a: PostureFact) {
    if Pinned(b) || Pinned(a) then
      Reads(b, "server") == Reads(a, "server") && Reads(b, "mcpseal") == Reads(a, "mcpseal")
    else forall n :: Reads(b, n) == Reads(a, n) || (Optional(n) && (Reads(b, n).None? || Reads(a, n).None?))
  }

  lemma SameFactIff(b: PostureFact, a: PostureFact)
    ensures Aligned(b, a).0 == Aligned(b, a).1 <==> SameFact(b, a)
  {
    OptionalNames();
    ReadsIs(b);
    ReadsIs(a);
    if IsImported(b) || IsImported(a) {
      PinnedAlike(b, a);
    } else {
      AlignedEqualIff(b, a);
    }
  }

  lemma PinnedAlike(b: PostureFact, a: PostureFact)
    requires IsImported(b) || IsImported(a)
    ensures forall n ::
      && Lookup(Aligned(b, a).0, n) == (if n in {"server", "mcpseal"} then Lookup(Comparable(b), n) else None)
      && Lookup(Aligned(b, a).1, n) == (if n in {"server", "mcpseal"} then Lookup(Comparable(a), n) else None)
    ensures Aligned(b, a).0 == Aligned(b, a).1 <==>
      Lookup(Comparable(b), "server") == Lookup(Comparable(a), "server")
      && Lookup(Comparable(b), "mcpseal") == Lookup(Comparable(a), "mcpseal")
  {
    var x, y := Aligned(b, a).0, Aligned(b, a).1;
    assert x == y ==> Lookup(x, "server") == Lookup(y, "server") && Lookup(x, "mcpseal") == Lookup(y, "mcpseal");
    if Lookup(x, "server") == Lookup(y, "server") && Lookup(x, "mcpseal") == Lookup(y, "mcpseal") {
      forall n ensures Lookup(x, n) == Lookup(y, n) { }
      SameLookups(x, y);
    }
  }

  lemma SameLookups(x: Detail, y: Detail)
    requires forall n :: Lookup(x, n) == Lookup(y, n)
    ensures x == y
  {
    forall n ensures n in x <==> n in y { assert Lookup(x, n) == Lookup(y, n); }
    forall n | n in x ensures x[n] == y[n] { assert Lookup(x, n) == Lookup(y, n); }
  }

  /** Exactly which keys a diff mentions, and as what. */
  lemma EntryIff(a: Facts, b: Facts, key: string)
    ensures EntryFor(a, b, key).Some? <==>
      if key in a && key in b then !SameFact(a[key], b[key]) else key in a || key in b
    ensures EntryFor(a, b, key).Some? ==>
      var d, f := EntryFor(a, b, key).value, if key in b then b[key] else a[key];
      && d.key == key && d.kind == f.kind && d.summary == f.summary && d.acceptance == None
      && d.change == if key !in a then Added else if key !in b then Removed else Changed
  {
    if key in a && key in b { SameFactIff(a[key], b[key]); }
  }

  /** The details that an entry shows: what was compared, of the side or sides there are. */
  lemma EntryDetails(a: Facts, b: Facts, key: string, name: string)
    requires EntryFor(a, b, key).Some?
    ensures var d := EntryFor(a, b, key).value;
      && Lookup(d.before, name) ==
           (if key in a && (key in b ==> Compared(a[key], b[key], name)) then Reads(a[key], name) else None)
      && Lookup(d.after, name) ==
           (if key in b && (key in a ==> Compared(a[key], b[key], name)) then Reads(b[key], name) else None)
  {
    OptionalNames();
    if key in a { ReadsIs(a[key]); }
    if key in b { ReadsIs(b[key]); }
    if key in a && key in b {
      if IsImported(a[key]) || IsImported(b[key]) {
        PinnedAlike(a[key], b[key]);
      } else {
        DroppedAgree(Comparable(a[key]), Comparable(b[key]), COMPAT_OPTIONAL);
      }
    }
  }

  ghost predicate Compared(b: PostureFact, a: PostureFact, name: string) {
    if Pinned(b) || Pinned(a) then name == "server" || name == "mcpseal"
    else !Optional(name) || (Reads(b, name).Some? && Reads(a, name).Some?)
  }

  // ---- what was added -------------------------------------------------------------------------

  /** The old snapshot pinned the tools of a server: it has the server and a key that begins like a
      tool of it, or has the server without an identity of its own. */
  ghost predicate PinsTools(a: Facts, server: string) {
    && "server:" + server in a
    && ((exists k :: k in a && "tool:" + server + ":" <= k) || "tool_identity" !in a["server:" + server].detail)
  }

  ghost function NamedServer(f: PostureFact): string { if "server" in f.detail then f.detail["server"] else "" }

  /** When an addition gates: always for a finding, never for an asset, for a server when it is
      exposed, and for a tool when the old snapshot pinned the tools of its server. */
  lemma AddedRegressionIff(a: Facts, b: Facts, key: string)
    requires key in b && key !in a
    ensures IsRegression(a, b, key) <==>
      match b[key].kind
      case FindingFact => true
      case AssetFact => false
      case ServerFact => Carries(b[key], "exposure", "exposed")
      case ToolFact => PinsTools(a, NamedServer(b[key]))
    ensures EntryFor(a, b, key).value.direction != Improvement
    ensures EntryFor(a, b, key).value.cause ==
      match b[key].kind
      case FindingFact => FindingCause(b[key])
      case AssetFact => InventoryDrift
      case ServerFact => if Carries(b[key], "exposure", "exposed") then ExposureDrift else OtherCause
      case ToolFact => ToolAdded
  {
    assert ServerKey(NamedServer(b[key])) == "server:" + NamedServer(b[key]);
  }

  // ---- what was removed -----------------------------------------------------------------------

  /** A removal never gates, and is an improvement exactly when a finding went away. */
  lemma RemovedIff(a: Facts, b: Facts, key: string)
    requires key in a && key !in b
    ensures EntryFor(a, b, key).value.direction == if a[key].kind == FindingFact then Improvement else Informational
    ensures EntryFor(a, b, key).value.cause ==
      match a[key].kind
      case FindingFact => FindingCause(a[key])
      case AssetFact => InventoryDrift
      case ServerFact => if Carries(a[key], "exposure", "exposed") then ExposureDrift else OtherCause
      case ToolFact => ToolRemoved
  {
  }

  // ---- what changed ---------------------------------------------------------------------------

  ghost predicate TurnedDark(b: PostureFact, a: PostureFact) {
    !Carries(b, "inspection_incomplete", "true") && Carries(a, "inspection_incomplete", "true")
  }

  ghost predicate Opened(b: PostureFact, a: PostureFact) {
    !Carries(b, "exposure", "exposed") && Carries(a, "exposure", "exposed")
  }

  ghost predicate Swapped(b: PostureFact, a: PostureFact) {
    && "tool_identity" in b.detail && "tool_identity" in a.detail
    && b.detail["tool_identity"] != a.detail["tool_identity"]
  }

  /** A changed server regresses when visibility was lost, exposure gained or its identity swapped,
      in that order of blame; only otherwise is lost exposure or regained visibility an
      improvement. */
  lemma ChangedServerIs(a: Facts, b: Facts, key: string)
    requires key in a && key in b && b[key].kind == ServerFact && EntryFor(a, b, key).Some?
    ensures var d, x, y := EntryFor(a, b, key).value, a[key], b[key];
      && (d.direction == Regression <==> TurnedDark(x, y) || Opened(x, y) || Swapped(x, y))
      && (d.direction == Improvement <==> d.direction != Regression && (Opened(y, x) || TurnedDark(y, x)))
      && d.cause ==
           (if TurnedDark(x, y) then InspectionRegression else if Opened(x, y) then ExposureDrift
            else if Swapped(x, y) then ToolIdentityDrift else if Opened(y, x) then ExposureDrift
            else if TurnedDark(y, x) then InspectionRegression else OtherCause)
  {
  }

  /** Changed findings and assets are for information. */
  lemma ChangedOtherIs(a: Facts, b: Facts, key: string)
    requires key in a && key in b && EntryFor(a, b, key).Some?
    ensures b[key].kind in {FindingFact, AssetFact} ==> EntryFor(a, b, key).value.direction == Informational
    ensures b[key].kind == FindingFact ==> EntryFor(a, b, key).value.cause == FindingCause(b[key])
    ensures b[key].kind == AssetFact ==> EntryFor(a, b, key).value.cause == InventoryDrift
  {
  }

  /** The value of a behaviour hint, where an absent one stands for the permissive value. */
  ghost function Hint(f: PostureFact, name: string, permissive: string): string {
    if name in f.detail then f.detail[name] else permissive
  }

  ghost predicate RelaxedIn(b: PostureFact, a: PostureFact, name: string, permissive: string) {
    Hint(b, name, permissive) != permissive && Hint(a, name, permissive) == permissive
  }

  ghost predicate MovedIn(b: PostureFact, a: PostureFact, name: string, permissive: string) {
    Hint(b, name, permissive) != Hint(a, name, permissive)
  }

  /** Some hint became permissive. */
  ghost predicate Relaxed(b: PostureFact, a: PostureFact) {
    || RelaxedIn(b, a, "annotation.readOnlyHint", "false") || RelaxedIn(b, a, "annotation.destructiveHint", "true")
    || RelaxedIn(b, a, "annotation.idempotentHint", "false") || RelaxedIn(b, a, "annotation.openWorldHint", "true")
  }

  /** Some hint changed at all. */
  ghost predicate Moved(b: PostureFact, a: PostureFact) {
    || MovedIn(b, a, "annotation.readOnlyHint", "false") || MovedIn(b, a, "annotation.destructiveHint", "true")
    || MovedIn(b, a, "annotation.idempotentHint", "false") || MovedIn(b, a, "annotation.openWorldHint", "true")
  }

  lemma HintsAre(b: PostureFact, a: PostureFact)
    ensures (exists i :: 0 <= i < |HINTS| && HintRelaxed(b.detail, a.detail, HINTS[i])) <==> Relaxed(b, a)
    ensures (exists i :: 0 <= i < |HINTS| && HintMoved(b.detail, a.detail, HINTS[i])) <==> Moved(b, a)
  {
    assert HINTS[0] == ("annotation.readOnlyHint", "false") && HINTS[1] == ("annotation.destructiveHint", "true");
    assert HINTS[2] == ("annotation.idempotentHint", "false") && HINTS[3] == ("annotation.openWorldHint", "true");
    OneHint(b, a, HINTS[0]);
    OneHint(b, a, HINTS[1]);
    OneHint(b, a, HINTS[2]);
    OneHint(b, a, HINTS[3]);
  }

  lemma OneHint(b: PostureFact, a: PostureFact, h: (string, string))
    ensures HintRelaxed(b.detail, a.detail, h) <==> RelaxedIn(b, a, h.0, h.1)
    ensures HintMoved(b.detail, a.detail, h) <==> MovedIn(b, a, h.0, h.1)
  {
  }

  /** A changed tool always gates, and is blamed on the first of: an imported pin, description,
      schema, a hint that became permissive, any other hint. */
  lemma ChangedToolIs(a: Facts, b: Facts, key: string)
    requires key in a && key in b && b[key].kind == ToolFact && EntryFor(a, b, key).Some?
    ensures EntryFor(a, b, key).value.direction == Regression
    ensures EntryFor(a, b, key).value.cause ==
      if Pinned(a[key]) || Pinned(b[key]) then ToolPinChanged
      else if Lookup(a[key].detail, "description") != Lookup(b[key].detail, "description") then ToolDescChanged
      else if Lookup(a[key].detail, "schema") != Lookup(b[key].detail, "schema") then ToolSchemaChanged
      else if Relaxed(a[key], b[key]) then ToolAnnotRelaxed
      else if Moved(a[key], b[key]) then ToolAnnotTightened
      else ToolIdentityDrift
  {
    ReadsIs(a[key]);
    ReadsIs(b[key]);
    HintsAre(a[key], b[key]);
  }

  // ---- what a finding is blamed on ------------------------------------------------------------

  /** The first occurrence of sep in s is at i. */
  ghost predicate FirstAt(s: string, sep: string, i: int) {
    0 <= i <= |s| && sep <= s[i..] && forall j :: 0 <= j < i ==> !(sep <= s[j..])
  }

  lemma {:induction false} BeforeIs(s: string, sep: string, i: int)
    requires FirstAt(s, sep, i)
    ensures Before(s, sep) == s[..i]
  {
    assert s[0..] == s;
    if i > 0 {
      forall j | 0 <= j < i - 1 ensures !(sep <= s[1..][j..]) { assert s[1..][j..] == s[j + 1..]; }
      assert s[1..][i - 1..] == s[i..];
      BeforeIs(s[1..], sep, i - 1);
    }
  }

  lemma {:induction false} BeforeIsAll(s: string, sep: string)
    requires forall j :: 0 <= j < |s| ==> !(sep <= s[j..])
    ensures Before(s, sep) == s
  {
    if s != "" {
      assert s[0..] == s;
      forall j | 0 <= j < |s| - 1 ensures !(sep <= s[1..][j..]) { assert s[1..][j..] == s[j + 1..]; }
      BeforeIsAll(s[1..], sep);
    }
  }

  /** The id of a finding: as stated, or else the summary up to its first dash. */
  ghost predicate IsFindingId(f: PostureFact, id: string) {
    var dash := " \U{2014} ";
    if "id" in f.detail && f.detail["id"] != "" then id == f.detail["id"]
    else (id == f.summary && forall j :: 0 <= j < |f.summary| ==> !(dash <= f.summary[j..]))
         || (exists i :: FirstAt(f.summary, dash, i) && id == f.summary[..i])
  }

  /** Which family of checks a finding belongs to, by its id and dimension. */
  lemma FindingCauseIs(f: PostureFact, id: string)
    requires IsFindingId(f, id)
    ensures FindingCause(f) ==
      if "PIN-" <= id then ProvenanceDrift
      else if Carries(f, "dimension", "exposure") || "EXP-" <= id || "EXPOSE-" <= id then ExposureDrift
      else if "CRED-" <= id || "SCOPE-" <= id then ConfigDrift
      else OtherCause
  {
    FindingIdIs(f, id);
  }

  lemma FindingIdIs(f: PostureFact, id: string)
    requires IsFindingId(f, id)
    ensures id == if Get(f.detail, "id", "") != "" then f.detail["id"] else Before(f.summary, " \U{2014} ")
  {
    var dash := " \U{2014} ";
    if Get(f.detail, "id", "") == "" {
      if i :| FirstAt(f.summary, dash, i) && id == f.summary[..i] {
        BeforeIs(f.summary, dash, i);
      } else {
        BeforeIsAll(f.summary, dash);
      }
    }
  }

  // ---- the order ------------------------------------------------------------------------------

  /** Regressions, improvements, the rest. */
  function DirectionPlace(d: Direction): nat {
    match d
    case Regression => 0
    case Improvement => 1
    case Informational => 2
  }

  /** asset, finding, server, tool. */
  function KindPlace(k: FactKind): nat {
    match k
    case AssetFact => 0
    case FindingFact => 1
    case ServerFact => 2
    case ToolFact => 3
  }

  /** The order of a diff: by direction, then kind, then key. */
  lemma EntryOrder(x: DriftEntry, y: DriftEntry)
    ensures KeyLe(EntryKey(x), EntryKey(y)) <==>
      if x.direction != y.direction then DirectionPlace(x.direction) < DirectionPlace(y.direction)
      else if x.kind != y.kind then KindPlace(x.kind) < KindPlace(y.kind)
      else StringLe(x.key, y.key)
  {
    PairOrder(x.kind.Value(), x.key, y.kind.Value(), y.key);
    assert EntryKey(x)[1..] == [Codes(x.kind.Value()), Codes(x.key)];
    assert EntryKey(y)[1..] == [Codes(y.kind.Value()), Codes(y.key)];
    if x.kind != y.kind {
      assert FirstDifference(x.kind.Value(), y.kind.Value(), 0);
      DifferenceDecides(x.kind.Value(), y.kind.Value(), 0);
    }
  }
}
