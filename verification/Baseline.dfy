/** Writing a snapshot as a baseline and loading it back (drift/baseline.py), on decoded JSON. */
module Baseline {
  import opened GraphModel
  import opened Json
  import opened Drift
  import DriftTheorems

  const SCHEMA := "1.0"

  datatype BaselineError = NotAnObject | UnsupportedSchema | FactsNotAList | FactNotAnObject | InvalidFact
    | DetailNotAnObject | DigestMismatch

  /** What the digest covers of a fact: not its summary. */
  datatype Sealed = Sealed(kind: FactKind, key: string, detail: Detail)

  type Digest = seq<Sealed> -> string

  /** Python's `str` on a decoded value; on a string it is the identity. */
  type PyStr = Json -> string

  ghost predicate IsPyStr(str: PyStr) { forall s :: str(Str(s)) == s }

  function Material(facts: seq<PostureFact>): (m: seq<Sealed>)
    ensures |m| == |facts|
  {
    seq(|facts|, i requires 0 <= i < |facts| => Sealed(facts[i].kind, facts[i].key, facts[i].detail))
  }

  function DetailToJson(d: Detail): Json { Obj(map n | n in d :: Str(d[n])) }

  function FactToJson(f: PostureFact): Json {
    Obj(map["kind" := Str(f.kind.Value()), "key" := Str(f.key), "summary" := Str(f.summary),
        "detail" := DetailToJson(f.detail)])
  }

  function FactsToJson(facts: seq<PostureFact>): seq<Json> {
    if facts == [] then [] else FactsToJson(facts[..|facts| - 1]) + [FactToJson(facts[|facts| - 1])]
  }

  function SnapshotToJson(s: Snapshot, createdAt: Json, digest: Digest): Json {
    Obj(map[
      "tool" := Str("ianua-broker"),
      "schema_version" := Str(s.schemaVersion),
      "created_at" := createdAt,
      "digest" := Str(digest(Material(s.facts))),
      "facts" := Arr(FactsToJson(s.facts))])
  }

  function ParseKind(j: Json): Result<FactKind, BaselineError> {
    if j == Str("server") then Ok(ServerFact)
    else if j == Str("finding") then Ok(FindingFact)
    else if j == Str("asset") then Ok(AssetFact)
    else if j == Str("tool") then Ok(ToolFact)
    else Err(InvalidFact)
  }

  function FactFromJson(item: Json, str: PyStr): Result<PostureFact, BaselineError> {
    if !item.Obj? then Err(FactNotAnObject)
    else if !({"kind", "key", "summary"} <= item.fields.Keys) || ParseKind(item.fields["kind"]).Err? then
      Err(InvalidFact)
    else
      var detail := if "detail" in item.fields then item.fields["detail"] else Obj(map[]);
      if !detail.Obj? then Err(DetailNotAnObject)
      else Ok(PostureFact(ParseKind(item.fields["kind"]).value, str(item.fields["key"]), str(item.fields["summary"]),
                          map n | n in detail.fields :: str(detail.fields[n])))
  }

  /** What loading must amount to: the first bad item fails the whole load. */
  function FactsFromJson(items: seq<Json>, str: PyStr): Result<seq<PostureFact>, BaselineError> {
    if items == [] then Ok([])
    else
      var init := FactsFromJson(items[..|items| - 1], str);
      if init.Err? then init
      else
        match FactFromJson(items[|items| - 1], str)
        case Err(e) => Err(e)
        case Ok(f) => Ok(init.value + [f])
  }

  function Loaded(data: Json, digest: Digest, str: PyStr, verify: bool): Result<Snapshot, BaselineError> {
    if !data.Obj? then Err(NotAnObject)
    else if "schema_version" !in data.fields || data.fields["schema_version"] != Str(SCHEMA) then Err(UnsupportedSchema)
    else if "facts" !in data.fields || !data.fields["facts"].Arr? then Err(FactsNotAList)
    else
      match FactsFromJson(data.fields["facts"].items, str)
      case Err(e) => Err(e)
      case Ok(facts) =>
        if verify && ("digest" !in data.fields || data.fields["digest"] != Str(digest(Material(facts)))) then
          Err(DigestMismatch)
        else Ok(Snapshot(SCHEMA, facts))
  }

  lemma NextItem(items: seq<Json>, str: PyStr, i: nat)
    requires i < |items| && FactsFromJson(items[..i], str).Ok?
    ensures var f := FactFromJson(items[i], str);
      FactsFromJson(items[..i + 1], str) ==
        if f.Err? then Err(f.error) else Ok(FactsFromJson(items[..i], str).value + [f.value])
  {
    assert items[..i + 1][..i] == items[..i];
  }

  lemma {:induction false} FirstErrorStands(items: seq<Json>, str: PyStr, i: nat)
    requires i <= |items| && FactsFromJson(items[..i], str).Err?
    ensures FactsFromJson(items, str) == FactsFromJson(items[..i], str)
    decreases |items| - i
  {
    if i < |items| {
      assert items[..i + 1][..i] == items[..i];
      FirstErrorStands(items, str, i + 1);
    } else {
      assert items[..i] == items;
    }
  }

  /** `load_baseline`, from the decoded document on. */
  method LoadBaseline(data: Json, digest: Digest, str: PyStr, verify: bool) returns (r: Result<Snapshot, BaselineError>)
    ensures r == Loaded(data, digest, str, verify)
  {
    if !data.Obj? {
      return Err(NotAnObject);
    }
    if "schema_version" !in data.fields || data.fields["schema_version"] != Str(SCHEMA) {
      return Err(UnsupportedSchema);
    }
    if "facts" !in data.fields || !data.fields["facts"].Arr? {
      return Err(FactsNotAList);
    }
    var items := data.fields["facts"].items;
    var facts := [];
    for i := 0 to |items|
      invariant FactsFromJson(items[..i], str) == Ok(facts)
    {
      NextItem(items, str, i);
      var f := FactFromJson(items[i], str);
      if f.Err? {
        FirstErrorStands(items, str, i + 1);
        return Err(f.error);
      }
      facts := facts + [f.value];
    }
    assert items[..|items|] == items;
    if verify && ("digest" !in data.fields || data.fields["digest"] != Str(digest(Material(facts)))) {
      return Err(DigestMismatch);
    }
    return Ok(Snapshot(SCHEMA, facts));
  }

  lemma KindRoundTrip(k: FactKind)
    ensures ParseKind(Str(k.Value())) == Ok(k)
  {
  }

  lemma FactRoundTrip(f: PostureFact, str: PyStr)
    requires IsPyStr(str)
    ensures FactFromJson(FactToJson(f), str) == Ok(f)
  {
    KindRoundTrip(f.kind);
    var fields := FactToJson(f).fields;
    assert fields["kind"] == Str(f.kind.Value()) && fields["detail"] == DetailToJson(f.detail);
    assert (map n | n in fields["detail"].fields :: str(fields["detail"].fields[n])) == f.detail;
  }

  lemma LastFact(facts: seq<PostureFact>, item: PostureFact)
    ensures FactsToJson(facts + [item]) == FactsToJson(facts) + [FactToJson(item)]
  {
  }

  lemma OneMore(items: seq<Json>, item: Json, str: PyStr, facts: seq<PostureFact>, fact: PostureFact)
    requires FactsFromJson(items, str) == Ok(facts) && FactFromJson(item, str) == Ok(fact)
    ensures FactsFromJson(items + [item], str) == Ok(facts + [fact])
  {
  }

  lemma {:induction false} FactsRoundTrip(facts: seq<PostureFact>, str: PyStr)
    requires IsPyStr(str)
    ensures FactsFromJson(FactsToJson(facts), str) == Ok(facts)
  {
    if facts != [] {
      var n := |facts| - 1;
      FactsRoundTrip(facts[..n], str);
      FactRoundTrip(facts[n], str);
      LastFact(facts[..n], facts[n]);
      OneMore(FactsToJson(facts[..n]), FactToJson(facts[n]), str, facts[..n], facts[n]);
      assert facts[..n] + [facts[n]] == facts;
    }
  }

  /** The four names of kinds, and no other value. */
  lemma ParseKindIff(j: Json, k: FactKind)
    ensures ParseKind(j) == Ok(k) <==>
      match k
      case ServerFact => j == Str("server")
      case FindingFact => j == Str("finding")
      case AssetFact => j == Str("asset")
      case ToolFact => j == Str("tool")
    ensures ParseKind(j).Err? ==> ParseKind(j).error == InvalidFact
  {
  }

  ghost predicate NamesAKind(j: Json) {
    j == Str("server") || j == Str("finding") || j == Str("asset") || j == Str("tool")
  }

  ghost predicate HasFactFields(fields: map<string, Json>) {
    "kind" in fields && "key" in fields && "summary" in fields && NamesAKind(fields["kind"])
  }

  /** Which items are read as facts, and what is wrong with the others. */
  lemma FactReadIff(item: Json, str: PyStr)
    ensures FactFromJson(item, str).Ok? <==>
      item.Obj? && HasFactFields(item.fields) && ("detail" in item.fields ==> item.fields["detail"].Obj?)
    ensures FactFromJson(item, str) == Err(FactNotAnObject) <==> !item.Obj?
    ensures FactFromJson(item, str) == Err(InvalidFact) <==> item.Obj? && !HasFactFields(item.fields)
    ensures FactFromJson(item, str) == Err(DetailNotAnObject) <==>
      item.Obj? && HasFactFields(item.fields) && "detail" in item.fields && !item.fields["detail"].Obj?
  {
  }

  /** What a fact is read as: a missing detail is an empty one. */
  lemma FactReadIs(item: Json, str: PyStr, n: string)
    requires FactFromJson(item, str).Ok?
    ensures var f := FactFromJson(item, str).value;
      && item.fields["kind"] == Str(f.kind.Value())
      && f.key == str(item.fields["key"]) && f.summary == str(item.fields["summary"])
      && Lookup(f.detail, n) ==
           if "detail" in item.fields && n in item.fields["detail"].fields then
             Some(str(item.fields["detail"].fields[n]))
           else None
  {
  }

  lemma DocumentFields(s: Snapshot, createdAt: Json, digest: Digest)
    ensures var fields := SnapshotToJson(s, createdAt, digest).fields;
      && "schema_version" in fields && fields["schema_version"] == Str(s.schemaVersion)
      && "digest" in fields && fields["digest"] == Str(digest(Material(s.facts)))
      && "facts" in fields
      && fields["facts"] == Arr(FactsToJson(s.facts))
      && "tool" in fields && fields["tool"] == Str("ianua-broker")
      && "created_at" in fields && fields["created_at"] == createdAt
  {
  }

  lemma LoadedFields(data: Json, facts: seq<PostureFact>, digest: Digest, str: PyStr, verify: bool)
    requires data.Obj? && "schema_version" in data.fields && "facts" in data.fields && data.fields["facts"].Arr?
    requires FactsFromJson(data.fields["facts"].items, str) == Ok(facts)
    requires "digest" in data.fields && data.fields["digest"] == Str(digest(Material(facts)))
    ensures Loaded(data, digest, str, verify) ==
      if data.fields["schema_version"] == Str(SCHEMA) then Ok(Snapshot(SCHEMA, facts)) else Err(UnsupportedSchema)
  {
  }

  /** A written baseline loads back as the very same snapshot, exactly when it carries the
      current schema version; any other version is refused. */
  lemma BaselineRoundTripIff(s: Snapshot, createdAt: Json, digest: Digest, str: PyStr, verify: bool)
    requires IsPyStr(str)
    ensures Loaded(SnapshotToJson(s, createdAt, digest), digest, str, verify) == Ok(s) <==> s.schemaVersion == "1.0"
    ensures s.schemaVersion != "1.0" ==>
        Loaded(SnapshotToJson(s, createdAt, digest), digest, str, verify) == Err(UnsupportedSchema)
  {
    FactsRoundTrip(s.facts, str);
    DocumentFields(s, createdAt, digest);
    LoadedFields(SnapshotToJson(s, createdAt, digest), s.facts, digest, str, verify);
  }

  /** So a baseline never drifts from the snapshot it was written from. */
  lemma ReloadedNeverDrifts(s: Snapshot, createdAt: Json, digest: Digest, str: PyStr, key: string)
    requires IsPyStr(str) && s.schemaVersion == SCHEMA
    ensures var r := Loaded(SnapshotToJson(s, createdAt, digest), digest, str, true);
      r.Ok? && EntryFor(ByKey(r.value.facts), ByKey(s.facts), key).None?
  {
    BaselineRoundTripIff(s, createdAt, digest, str, true);
    DriftTheorems.NoSelfDrift(ByKey(s.facts), key);
  }

  // ---- what the digest does and does not protect --------------------------------------------

  ghost predicate SameButSummaries(x: Facts, y: Facts) {
    && x.Keys == y.Keys
    && forall k :: k in x ==> x[k].kind == y[k].kind && x[k].key == y[k].key && x[k].detail == y[k].detail
  }

  lemma {:induction false} SealedFactsAgree(a: seq<PostureFact>, b: seq<PostureFact>)
    requires Material(a) == Material(b)
    ensures SameButSummaries(ByKey(a), ByKey(b))
  {
    if a != [] {
      var n := |a| - 1;
      assert |b| == |Material(b)| == |a|;
      assert Material(a)[n] == Material(b)[n];
      assert Material(a[..n]) == Material(a)[..n] && Material(b[..n]) == Material(b)[..n];
      SealedFactsAgree(a[..n], b[..n]);
    } else {
      assert |b| == |Material(b)| == 0;
    }
  }

  /** With a collision-free digest, an accepted baseline carrying the digest of snapshot s gates
      exactly as s would, whatever else was done to the file. */
  lemma AcceptedBaselineGatesTheSame(s: Snapshot, data: Json, digest: Digest, str: PyStr, now: Facts)
    requires forall x, y :: digest(x) == digest(y) ==> x == y
    requires data.Obj? && "digest" in data.fields && data.fields["digest"] == Str(digest(Material(s.facts)))
    requires Loaded(data, digest, str, true).Ok?
    ensures var r := Loaded(data, digest, str, true).value;
      DriftTheorems.NoRegression(ByKey(r.facts), now) <==> DriftTheorems.NoRegression(ByKey(s.facts), now)
  {
    var r := Loaded(data, digest, str, true).value;
    SealedFactsAgree(r.facts, s.facts);
    forall key ensures DriftTheorems.IsRegression(ByKey(r.facts), now, key) <==>
        DriftTheorems.IsRegression(ByKey(s.facts), now, key) {
      SummariesNeverGate(ByKey(r.facts), ByKey(s.facts), now, key);
    }
  }

  lemma SummariesNeverGate(x: Facts, y: Facts, now: Facts, key: string)
    requires SameButSummaries(x, y)
    ensures DriftTheorems.IsRegression(x, now, key) <==> DriftTheorems.IsRegression(y, now, key)
  {
    if key in now && key !in x {
      var s := Get(now[key].detail, "server", "");
      assert PinsToolsOf(x, s) == PinsToolsOf(y, s);
    }
  }

  /** The same facts in the same order, summaries aside. */
  predicate SealedAlike(a: seq<PostureFact>, b: seq<PostureFact>) {
    |a| == |b| && forall i :: 0 <= i < |a| ==>
        a[i].kind == b[i].kind && a[i].key == b[i].key && a[i].detail == b[i].detail
  }

  lemma MaterialIff(a: seq<PostureFact>, b: seq<PostureFact>)
    ensures Material(a) == Material(b) <==> SealedAlike(a, b)
  {
    if Material(a) == Material(b) {
      assert |a| == |Material(a)| == |Material(b)| == |b|;
      forall i | 0 <= i < |a| ensures a[i].kind == b[i].kind && a[i].key == b[i].key && a[i].detail == b[i].detail {
        assert Material(a)[i] == Material(b)[i];
      }
    }
  }

  /** With a collision-free digest, exactly these documents pass under the digest of snapshot s,
      however they were edited: those of the current schema with a list of readable facts that are
      the facts of s, as many and in the same order, up to the summaries. */
  lemma EditPassesIff(s: Snapshot, data: Json, digest: Digest, str: PyStr)
    requires forall x, y :: digest(x) == digest(y) ==> x == y
    requires data.Obj? && "digest" in data.fields && data.fields["digest"] == Str(digest(Material(s.facts)))
    ensures Loaded(data, digest, str, true).Ok? <==>
      && "schema_version" in data.fields && data.fields["schema_version"] == Str(SCHEMA)
      && "facts" in data.fields && data.fields["facts"].Arr?
      && FactsFromJson(data.fields["facts"].items, str).Ok?
      && SealedAlike(s.facts, FactsFromJson(data.fields["facts"].items, str).value)
    ensures Loaded(data, digest, str, true).Ok? ==>
      Loaded(data, digest, str, true).value == Snapshot(SCHEMA, FactsFromJson(data.fields["facts"].items, str).value)
  {
    if "facts" in data.fields && data.fields["facts"].Arr? {
      var facts := FactsFromJson(data.fields["facts"].items, str);
      if facts.Ok? { MaterialIff(s.facts, facts.value); }
    }
  }

  /** The file of snapshot t under the digest of snapshot s. */
  function Edited(s: Snapshot, t: Snapshot, createdAt: Json, digest: Digest): Json {
    Obj(SnapshotToJson(t, createdAt, digest).fields["digest" := Str(digest(Material(s.facts)))])
  }

  /** So the file of one snapshot passes under the digest of another exactly when their facts
      differ at most in summaries; otherwise the mismatch is reported. */
  lemma SwappedFilePassesIff(s: Snapshot, t: Snapshot, createdAt: Json, digest: Digest, str: PyStr)
    requires IsPyStr(str) && forall x, y :: digest(x) == digest(y) ==> x == y
    ensures var r := Loaded(Edited(s, t, createdAt, digest), digest, str, true);
      && (r.Ok? <==> t.schemaVersion == SCHEMA && SealedAlike(s.facts, t.facts))
      && (r.Ok? ==> r.value == t)
      && (r.Err? ==> r.error == if t.schemaVersion == SCHEMA then DigestMismatch else UnsupportedSchema)
  {
    FactsRoundTrip(t.facts, str);
    EditedFields(s, t, createdAt, digest);
    EditPassesIff(s, Edited(s, t, createdAt, digest), digest, str);
  }

  lemma EditedFields(s: Snapshot, t: Snapshot, createdAt: Json, digest: Digest)
    ensures var fields := Edited(s, t, createdAt, digest).fields;
      && "schema_version" in fields && fields["schema_version"] == Str(t.schemaVersion)
      && "digest" in fields && fields["digest"] == Str(digest(Material(s.facts)))
      && "facts" in fields && fields["facts"] == Arr(FactsToJson(t.facts))
  {
    DocumentFields(t, createdAt, digest);
    assert |"digest"| != |"facts"| && |"digest"| != |"schema_version"|;
  }

  /** But the digest does not cover summaries: rewriting any of them goes unnoticed. */
  lemma SummaryEditIsAccepted(s: Snapshot, i: nat, summary: string, createdAt: Json, digest: Digest, str: PyStr)
    requires IsPyStr(str) && s.schemaVersion == SCHEMA && i < |s.facts|
    ensures var edited := s.(facts := s.facts[i := s.facts[i].(summary := summary)]);
      && digest(Material(edited.facts)) == digest(Material(s.facts))
      && Loaded(SnapshotToJson(edited, createdAt, digest), digest, str, true) == Ok(edited)
  {
    var edited := s.(facts := s.facts[i := s.facts[i].(summary := summary)]);
    assert Material(edited.facts) == Material(s.facts);
    BaselineRoundTripIff(edited, createdAt, digest, str, true);
  }
}
