/** What the drift gate means over whole runs of snapshots. */
module DriftTheorems {
  import opened GraphModel
  import opened Drift

  ghost predicate IsRegression(a: Facts, b: Facts, key: string) {
    EntryFor(a, b, key).Some? && EntryFor(a, b, key).value.direction.Regression?
  }

  /** The gate passes: the diff from a to b holds no regression. */
  ghost predicate NoRegression(a: Facts, b: Facts) {
    forall key :: !IsRegression(a, b, key)
  }

  /** The gate read off the diff itself. */
  lemma GateIsNoRegression(a: Facts, b: Facts, entries: seq<DriftEntry>)
    requires IsDiff(a, b, entries)
    ensures NoRegression(a, b) <==> forall e :: e in entries ==> !e.direction.Regression?
  {
    forall key | IsRegression(a, b, key) ensures EntryFor(a, b, key).value in entries {
      assert EntryFor(a, b, key).value.key == key;
    }
    forall e | e in entries && e.direction.Regression? ensures IsRegression(a, b, e.key) { }
  }

  // ---- one change ---------------------------------------------------------------------------

  lemma DroppedAgree(b: Detail, a: Detail, names: seq<string>)
    ensures var r := DropUnshared(b, a, names);
      && r.0 == (map n | n in b && (n !in names || n in a) :: b[n])
      && r.1 == (map n | n in a && (n !in names || n in b) :: a[n])
  {
  }

  /** When two facts count as equal: every name agrees, save the optional ones that one side
      lacks. */
  lemma AlignedEqualIff(b: PostureFact, a: PostureFact)
    requires !IsImported(b) && !IsImported(a)
    ensures Aligned(b, a).0 == Aligned(b, a).1 <==> forall n ::
      var x, y := Lookup(Comparable(b), n), Lookup(Comparable(a), n);
      x == y || (n in COMPAT_OPTIONAL && (x.None? || y.None?))
  {
    var cb, ca := Comparable(b), Comparable(a);
    DroppedAgree(cb, ca, COMPAT_OPTIONAL);
    var r := Aligned(b, a);
    if r.0 == r.1 {
      forall n ensures Lookup(cb, n) == Lookup(ca, n) || (n in COMPAT_OPTIONAL && (n !in cb || n !in ca)) {
        assert n in r.0 <==> n in r.1;
      }
    }
    if forall n ::
      Lookup(cb, n) == Lookup(ca, n) || (n in COMPAT_OPTIONAL && (Lookup(cb, n).None? || Lookup(ca, n).None?)) {
      forall n ensures n in r.0 <==> n in r.1 { assert Lookup(cb, n) == Lookup(ca, n) || n in COMPAT_OPTIONAL; }
      forall n | n in r.0 ensures r.0[n] == r.1[n] { assert Lookup(cb, n) == Lookup(ca, n) || n in COMPAT_OPTIONAL; }
      assert r.0 == r.1;
    }
  }

  ghost predicate ServerGotWorse(b: PostureFact, a: PostureFact) {
    (!IsDark(b) && IsDark(a)) || (!IsExposed(b) && IsExposed(a)) || IdentityChanged(b, a)
  }

  /** A server common to both snapshots is a regression exactly when visibility was lost,
      exposure gained, or two present identities differ; nothing else can make it one, and no
      improvement alongside can hide it. */
  lemma ServerRegressionIff(a: Facts, b: Facts, key: string)
    requires key in a && key in b && a[key].kind.ServerFact? && b[key].kind.ServerFact?
    ensures IsRegression(a, b, key) <==> ServerGotWorse(a[key], b[key])
  {
    AlignedEqualIff(a[key], b[key]);
    var x, y := Comparable(a[key]), Comparable(b[key]);
    assert COMPAT_OPTIONAL[0] == "tool_identity";
    if Aligned(a[key], b[key]).0 == Aligned(a[key], b[key]).1 {
      assert Lookup(x, "inspection_incomplete") == Lookup(y, "inspection_incomplete");
      assert Lookup(x, "exposure") == Lookup(y, "exposure");
      assert Lookup(x, "tool_identity") == Lookup(y, "tool_identity") || Lookup(x, "tool_identity").None?
        || Lookup(y, "tool_identity").None?;
    }
  }

  /** Keys tell kinds: the builder prefixes every key with its fact's kind. */
  function KindOfKey(key: string): FactKind {
    if key == "" then FindingFact
    else
      match key[0]
      case 's' => ServerFact
      case 'a' => AssetFact
      case 't' => ToolFact
      case _ => FindingFact
  }

  ghost predicate KeysTellKinds(m: Facts) {
    forall k :: k in m ==> m[k].key == k && m[k].kind == KindOfKey(k)
  }

  /** Every improvement read backwards is a regression on the same key. */
  lemma ImprovementReverses(a: Facts, b: Facts, key: string)
    requires KeysTellKinds(a) && KeysTellKinds(b)
    requires EntryFor(a, b, key).Some? && EntryFor(a, b, key).value.direction.Improvement?
    ensures IsRegression(b, a, key)
  {
    if key in a && key in b {
      ServerRegressionIff(b, a, key);
    }
  }

  /** A snapshot never drifts from itself. */
  lemma NoSelfDrift(m: Facts, key: string)
    ensures EntryFor(m, m, key) == None
  {
    if key in m && !IsImported(m[key]) {
      AlignedEqualIff(m[key], m[key]);
    }
  }

  function Upgraded(f: PostureFact): PostureFact { f.(detail := Comparable(f)) }

  lemma UpgradedReadsTheSame(f: PostureFact, g: PostureFact)
    ensures Comparable(Upgraded(f)) == Comparable(f) && Aligned(Upgraded(f), g) == Aligned(f, g)
    ensures ClassifyChanged(Upgraded(f), g) == ClassifyChanged(f, g)
    ensures ClassifyRemoved(Upgraded(f)) == ClassifyRemoved(f)
    ensures "tool_identity" in Upgraded(f).detail <==> "tool_identity" in f.detail
  {
  }

  /** Writing the implied "false" into an old baseline changes no entry of any diff. */
  lemma UpgradeIsInvisible(old': Facts, new': Facts, key: string)
    ensures EntryFor(map k | k in old' :: Upgraded(old'[k]), new', key) == EntryFor(old', new', key)
  {
    var upgraded := map k | k in old' :: Upgraded(old'[k]);
    if key in old' {
      UpgradedReadsTheSame(old'[key], if key in new' then new'[key] else old'[key]);
    } else if key in new' {
      var s := Get(new'[key].detail, "server", "");
      if ServerKey(s) in old' { UpgradedReadsTheSame(old'[ServerKey(s)], new'[key]); }
      assert upgraded.Keys == old'.Keys;
      assert PinsToolsOf(upgraded, s) == PinsToolsOf(old', s);
    }
  }

  // ---- runs ---------------------------------------------------------------------------------

  /** What a snapshot built by one version of the tool guarantees: keys tell kinds, no fact was
      imported from a foreign lockfile, and a tool's server is there too, pinned by its tools
      rather than by an identity of its own. */
  ghost predicate WellFormed(m: Facts) {
    && KeysTellKinds(m)
    && forall k :: k in m && m[k].kind.ToolFact? ==>
         && !IsImported(m[k]) && "server" in m[k].detail
         && ServerKey(m[k].detail["server"]) in m
         && "tool_identity" !in m[ServerKey(m[k].detail["server"])].detail
  }

  /** Two snapshots of one era record the same optional names for a fact they share. */
  ghost predicate SameEra(a: Facts, b: Facts) {
    forall k, n :: k in a && k in b && n in COMPAT_OPTIONAL ==> (n in a[k].detail <==> n in b[k].detail)
  }

  /** A server, or a tool, that a and c have and b lacks; or a tool new in c of such a server. */
  ghost predicate Reappears(a: Facts, b: Facts, c: Facts, key: string) {
    || (key in a && key in c && key !in b && c[key].kind.ToolFact?)
    || (key in a && key in c && key !in b && c[key].kind.ServerFact?)
    || (key in c && key !in a && c[key].kind.ToolFact? && "server" in c[key].detail
        && var s := ServerKey(c[key].detail["server"]); s in a && s in c && s !in b)
  }

  lemma EqualFactsTransitive(x: PostureFact, y: PostureFact, z: PostureFact)
    requires x.kind == y.kind == z.kind && x.kind.ToolFact?
    requires !IsImported(x) && !IsImported(y) && !IsImported(z)
    requires forall n :: n in COMPAT_OPTIONAL ==> (n in x.detail <==> n in y.detail)
    requires Aligned(x, y).0 == Aligned(x, y).1 && Aligned(y, z).0 == Aligned(y, z).1
    ensures Aligned(x, z).0 == Aligned(x, z).1
  {
    AlignedEqualIff(x, y);
    AlignedEqualIff(y, z);
    forall n ensures Lookup(x.detail, n) == Lookup(z.detail, n)
        || (n in COMPAT_OPTIONAL && (Lookup(x.detail, n).None? || Lookup(z.detail, n).None?)) {
      assert Lookup(x.detail, n) == Lookup(y.detail, n) || n in COMPAT_OPTIONAL;
      assert Lookup(y.detail, n) == Lookup(z.detail, n) || n in COMPAT_OPTIONAL;
    }
    AlignedEqualIff(x, z);
  }

  /** An addition that gates: with b in between and both of its steps clean, the tool's server
      must have been away in b. */
  lemma AddedToolRegression(a: Facts, b: Facts, c: Facts, key: string)
    requires WellFormed(a) && WellFormed(b) && WellFormed(c) && SameEra(b, c)
    requires NoRegression(a, b) && NoRegression(b, c)
    requires key in c && key !in a && c[key].kind.ToolFact? && IsRegression(a, c, key)
    ensures Reappears(a, b, c, key)
  {
    var server := c[key].detail["server"];
    var s := ServerKey(server);
    assert !IsRegression(a, b, key) && !IsRegression(b, c, key);
    if s in b {
      assert COMPAT_OPTIONAL[0] == "tool_identity" && "tool_identity" in COMPAT_OPTIONAL;
      assert "tool_identity" !in b[s].detail;
      if key in b { ServerNameKept(b, c, key); }
    }
  }

  lemma ServerNameKept(b: Facts, c: Facts, key: string)
    requires WellFormed(b) && WellFormed(c) && key in b && key in c && c[key].kind.ToolFact? && !IsRegression(b, c, key)
    ensures b[key].detail["server"] == c[key].detail["server"]
  {
    AlignedEqualIff(b[key], c[key]);
    assert "server" !in COMPAT_OPTIONAL;
    assert Lookup(b[key].detail, "server") == Lookup(c[key].detail, "server");
  }

  /** Regression-freedom composes, except where something went away and came back: with both
      steps clean, every regression of the long diff sits on a reappearing key. */
  lemma RegressionsOnlyReappear(a: Facts, b: Facts, c: Facts, key: string)
    requires WellFormed(a) && WellFormed(b) && WellFormed(c) && SameEra(a, b) && SameEra(b, c)
    requires NoRegression(a, b) && NoRegression(b, c) && IsRegression(a, c, key)
    ensures Reappears(a, b, c, key)
  {
    assert !IsRegression(a, b, key) && !IsRegression(b, c, key);
    if key !in a {
      if c[key].kind.ToolFact? {
        AddedToolRegression(a, b, c, key);
      } else if c[key].kind.ServerFact? && key in b {
        ServerRegressionIff(b, c, key);
      }
    } else if key in b {
      if c[key].kind.ServerFact? {
        ServerRegressionIff(a, b, key);
        ServerRegressionIff(b, c, key);
        ServerRegressionIff(a, c, key);
        IdentityTransitive(a, b, c, key);
      } else {
        EqualFactsTransitive(a[key], b[key], c[key]);
      }
    }
  }

  lemma IdentityTransitive(a: Facts, b: Facts, c: Facts, key: string)
    requires key in a && key in b && key in c && SameEra(a, b)
    requires !IdentityChanged(a[key], b[key]) && !IdentityChanged(b[key], c[key])
    ensures !IdentityChanged(a[key], c[key])
  {
    assert COMPAT_OPTIONAL[0] == "tool_identity" && "tool_identity" in COMPAT_OPTIONAL;
  }

  /** No server or tool of both a and c is away in b. */
  ghost predicate Persists(a: Facts, b: Facts, c: Facts) {
    forall key :: key in a && key in c && !KindOfKey(key).FindingFact? && !KindOfKey(key).AssetFact? ==> key in b
  }

  /** A run of well-formed snapshots of one era in which servers and tools do not come and go. */
  ghost predicate SteadyRun(run: seq<Facts>) {
    && (forall i :: 0 <= i < |run| ==> WellFormed(run[i]))
    && (forall i, j :: 0 <= i < j < |run| ==> SameEra(run[i], run[j]))
    && (forall i, j, k :: 0 <= i < j < k < |run| ==> Persists(run[i], run[j], run[k]))
  }

  lemma TwoStepsCompose(a: Facts, b: Facts, c: Facts)
    requires WellFormed(a) && WellFormed(b) && WellFormed(c) && SameEra(a, b) && SameEra(b, c) && Persists(a, b, c)
    requires NoRegression(a, b) && NoRegression(b, c)
    ensures NoRegression(a, c)
  {
    assert forall id :: ServerKey(id)[0] == 's' && KindOfKey(ServerKey(id)).ServerFact?;
    forall key ensures !IsRegression(a, c, key) {
      if IsRegression(a, c, key) {
        RegressionsOnlyReappear(a, b, c, key);
      }
    }
  }

  /** If the gate passes at every step of a steady run, it passes from the first snapshot to the
      last: moving the baseline forward step by step never hides a regression. */
  lemma {:induction false} GateComposes(run: seq<Facts>)
    requires SteadyRun(run) && |run| >= 1
    requires forall i :: 0 <= i < |run| - 1 ==> NoRegression(run[i], run[i + 1])
    ensures NoRegression(run[0], run[|run| - 1])
  {
    var n := |run|;
    if n == 1 {
      forall key ensures !IsRegression(run[0], run[0], key) { NoSelfDrift(run[0], key); }
    } else if n > 2 {
      var init := run[..n - 1];
      GateComposes(init);
      assert init[n - 2] == run[n - 2] && init[0] == run[0];
      assert NoRegression(run[n - 2], run[n - 2 + 1]);
      TwoStepsCompose(run[0], run[n - 2], run[n - 1]);
    }
  }

  // ---- the hypothesis is needed -------------------------------------------------------------

  /** Facts that a clean step may add: no finding, no exposed server, and no tool of a server that
      is already there. */
  ghost predicate ComesUnnoticed(base: Facts, m: Facts) {
    forall k :: k in m ==>
      && k !in base && !m[k].kind.FindingFact?
      && (m[k].kind.ServerFact? ==> !IsExposed(m[k]))
      && (m[k].kind.ToolFact? ==> ServerKey(Get(m[k].detail, "server", "")) !in base)
  }

  /** Taking facts away never gates, and whatever comes unnoticed may take their place. */
  lemma RemovalAndReturnAreClean(base: Facts, gone: Facts, back: Facts)
    requires gone.Keys !! base.Keys && ComesUnnoticed(base, back)
    ensures NoRegression(base + gone, base) && NoRegression(base, base + back)
    ensures SameEra(base + gone, base) && SameEra(base, base + back)
  {
    forall key ensures !IsRegression(base + gone, base, key) {
      if key in base { NoSelfDrift(base, key); assert EntryFor(base + gone, base, key) == EntryFor(base, base, key); }
    }
    forall key ensures !IsRegression(base, base + back, key) {
      if key in base { NoSelfDrift(base, key); assert EntryFor(base, base + back, key) == EntryFor(base, base, key); }
    }
  }

  lemma ChangedToolGates(a: Facts, b: Facts, key: string, name: string)
    requires key in a && key in b && a[key].kind.ToolFact? && b[key].kind.ToolFact?
    requires !IsImported(a[key]) && !IsImported(b[key]) && name !in COMPAT_OPTIONAL
    requires Lookup(a[key].detail, name) != Lookup(b[key].detail, name)
    ensures IsRegression(a, b, key)
  {
    AlignedEqualIff(a[key], b[key]);
    assert Lookup(Comparable(a[key]), name) != Lookup(Comparable(b[key]), name);
  }
}
