/** Python's ordering on the tuples that the tool sorts by, and sorting by such a key.
    A sort key is a tuple whose components are integers or strings; every component is held as
    the sequence of its code points (an integer n is the one-element sequence [n]), so that one
    lexicographic order covers every `key=` function of the program. */
module Orders {

  type SortKey = seq<seq<int>>

  function Codes(s: string): (r: seq<int>)
    ensures |r| == |s|
  {
    seq(|s|, i requires 0 <= i < |s| => s[i] as int)
  }

  lemma CodesInjective(s: string, t: string)
    requires Codes(s) == Codes(t)
    ensures s == t
  {
    assert |s| == |Codes(s)| == |Codes(t)| == |t|;
    forall i | 0 <= i < |s| ensures s[i] == t[i] {
      assert Codes(s)[i] == Codes(t)[i];
    }
  }

  predicate IntsLe(a: seq<int>, b: seq<int>) {
    a == [] || (b != [] && (a[0] < b[0] || (a[0] == b[0] && IntsLe(a[1..], b[1..]))))
  }

  predicate KeyLe(a: SortKey, b: SortKey) {
    a == [] || (b != [] && if a[0] == b[0] then KeyLe(a[1..], b[1..]) else IntsLe(a[0], b[0]))
  }

  lemma {:induction false} IntsTotal(a: seq<int>, b: seq<int>)
    ensures IntsLe(a, b) || IntsLe(b, a)
    ensures IntsLe(a, b) && IntsLe(b, a) ==> a == b
  {
    if a != [] && b != [] && a[0] == b[0] {
      IntsTotal(a[1..], b[1..]);
      assert a == [a[0]] + a[1..] && b == [b[0]] + b[1..];
    }
  }

  lemma {:induction false} IntsTransitive(a: seq<int>, b: seq<int>, c: seq<int>)
    requires IntsLe(a, b) && IntsLe(b, c)
    ensures IntsLe(a, c)
  {
    if a != [] && a[0] == b[0] == c[0] {
      IntsTransitive(a[1..], b[1..], c[1..]);
    }
  }

  /** KeyLe is a total order: any two keys compare, and ties are equal keys. */
  lemma {:induction false} KeyTotal(a: SortKey, b: SortKey)
    ensures KeyLe(a, b) || KeyLe(b, a)
    ensures KeyLe(a, b) && KeyLe(b, a) ==> a == b
  {
    if a != [] && b != [] {
      if a[0] == b[0] {
        KeyTotal(a[1..], b[1..]);
        assert a == [a[0]] + a[1..] && b == [b[0]] + b[1..];
      } else {
        IntsTotal(a[0], b[0]);
      }
    }
  }

  lemma {:induction false} KeyTransitive(a: SortKey, b: SortKey, c: SortKey)
    requires KeyLe(a, b) && KeyLe(b, c)
    ensures KeyLe(a, c)
  {
    if a != [] {
      if a[0] == b[0] == c[0] {
        KeyTransitive(a[1..], b[1..], c[1..]);
      } else {
        IntsTotal(a[0], b[0]);
        IntsTotal(b[0], c[0]);
        if a[0] != b[0] && b[0] != c[0] {
          IntsTransitive(a[0], b[0], c[0]);
          IntsTotal(a[0], c[0]);
        }
      }
    }
  }

  /** The order of strings: a beginning comes first, otherwise the first difference decides. */
  ghost predicate StringLe(s: string, t: string) {
    s <= t || exists k :: FirstDifference(s, t, k) && s[k] < t[k]
  }

  ghost predicate FirstDifference<T>(s: seq<T>, t: seq<T>, k: int) {
    0 <= k < |s| && k < |t| && s[..k] == t[..k] && s[k] != t[k]
  }

  lemma DifferenceDecides(s: string, t: string, k: int)
    requires FirstDifference(s, t, k)
    ensures StringLe(s, t) <==> s[k] < t[k]
  {
    forall j | FirstDifference(s, t, j) ensures j == k {
      Agree(s, t, j);
      Agree(s, t, k);
    }
  }

  lemma Agree<T>(s: seq<T>, t: seq<T>, k: int)
    requires FirstDifference(s, t, k)
    ensures forall i :: 0 <= i < k ==> s[i] == t[i]
  {
    forall i | 0 <= i < k ensures s[i] == t[i] { assert s[..k][i] == t[..k][i]; }
  }

  lemma {:induction false} CodesOrder(s: string, t: string)
    ensures IntsLe(Codes(s), Codes(t)) <==> StringLe(s, t)
  {
    if s != "" && t != "" {
      assert s == [s[0]] + s[1..] && t == [t[0]] + t[1..];
      assert Codes(s)[1..] == Codes(s[1..]) && Codes(t)[1..] == Codes(t[1..]);
      if s[0] != t[0] {
        HeadsDiffer(s, t);
      } else {
        CodesOrder(s[1..], t[1..]);
        TailDifference(s, t);
      }
    }
  }

  lemma HeadsDiffer<T>(s: seq<T>, t: seq<T>)
    requires s != [] && t != [] && s[0] != t[0]
    ensures forall k :: FirstDifference(s, t, k) <==> k == 0
  {
    forall k ensures FirstDifference(s, t, k) <==> k == 0 {
      assert 0 < k < |s| && k < |t| ==> s[..k][0] == s[0] && t[..k][0] == t[0];
    }
  }

  lemma TailDifference<T>(s: seq<T>, t: seq<T>)
    requires s != [] && t != [] && s[0] == t[0]
    ensures s <= t <==> s[1..] <= t[1..]
    ensures forall k :: FirstDifference(s[1..], t[1..], k) ==> FirstDifference(s, t, k + 1)
    ensures forall k :: FirstDifference(s, t, k) ==> k > 0 && FirstDifference(s[1..], t[1..], k - 1)
  {
    assert s == [s[0]] + s[1..] && t == [t[0]] + t[1..];
    forall k | FirstDifference(s[1..], t[1..], k) ensures FirstDifference(s, t, k + 1) {
      assert s[..k + 1] == [s[0]] + s[1..][..k] && t[..k + 1] == [t[0]] + t[1..][..k];
    }
    forall k | FirstDifference(s, t, k) ensures k > 0 && FirstDifference(s[1..], t[1..], k - 1) {
      assert s[1..][..k - 1] == s[..k][1..] && t[1..][..k - 1] == t[..k][1..];
    }
  }

  /** The order of tuples: as of strings, component by component. */
  lemma {:induction false} KeyOrder(a: SortKey, b: SortKey)
    ensures KeyLe(a, b) <==> a <= b || exists k :: FirstDifference(a, b, k) && IntsLe(a[k], b[k])
  {
    if a != [] && b != [] {
      assert a == [a[0]] + a[1..] && b == [b[0]] + b[1..];
      if a[0] != b[0] {
        HeadsDiffer(a, b);
      } else {
        KeyOrder(a[1..], b[1..]);
        TailDifference(a, b);
      }
    }
  }

  lemma OneComponent(a: seq<int>, b: seq<int>)
    ensures KeyLe([a], [b]) <==> IntsLe(a, b)
  {
    assert [a][1..] == [] == [b][1..];
    IntsTotal(a, a);
    IntsTotal(b, b);
  }

  /** The order of a pair of strings. */
  lemma PairOrder(s: string, t: string, s': string, t': string)
    ensures KeyLe([Codes(s), Codes(t)], [Codes(s'), Codes(t')]) <==>
      if s == s' then StringLe(t, t') else StringLe(s, s')
  {
    if Codes(s) == Codes(s') { CodesInjective(s, s'); }
    CodesOrder(s, s');
    CodesOrder(t, t');
    assert [Codes(s), Codes(t)][1..] == [Codes(t)] && [Codes(s'), Codes(t')][1..] == [Codes(t')];
    OneComponent(Codes(t), Codes(t'));
  }

  predicate KeyLt(a: SortKey, b: SortKey) {
    KeyLe(a, b) && a != b
  }

  ghost predicate Ordered<T>(s: seq<T>, key: T -> SortKey) {
    forall i, j :: 0 <= i < j < |s| ==> KeyLe(key(s[i]), key(s[j]))
  }

  ghost predicate StrictlyOrdered<T>(s: seq<T>, key: T -> SortKey) {
    forall i, j :: 0 <= i < j < |s| ==> KeyLt(key(s[i]), key(s[j]))
  }

  /** Places x before the first element that is not smaller than it. */
  function InsertBy<T>(x: T, s: seq<T>, key: T -> SortKey): (r: seq<T>)
    ensures multiset(r) == multiset(s) + multiset{x}
  {
    if s == [] then [x]
    else if KeyLe(key(x), key(s[0])) then [x] + s
    else
      assert s == [s[0]] + s[1..];
      [s[0]] + InsertBy(x, s[1..], key)
  }

  /** Python's stable `sorted(s, key=key)`. */
  function SortBy<T>(s: seq<T>, key: T -> SortKey): (r: seq<T>)
    ensures multiset(r) == multiset(s)
    ensures |r| == |s|
  {
    if s == [] then []
    else
      assert s == [s[0]] + s[1..];
      var r := InsertBy(s[0], SortBy(s[1..], key), key);
      assert |multiset(r)| == |r| && |multiset(s)| == |s|;
      r
  }

  lemma {:induction false} InsertByOrdered<T>(x: T, s: seq<T>, key: T -> SortKey)
    requires Ordered(s, key)
    ensures Ordered(InsertBy(x, s, key), key)
  {
    if s == [] {
    } else if KeyLe(key(x), key(s[0])) {
      forall j | 0 <= j < |s| ensures KeyLe(key(x), key(s[j])) {
        if j > 0 { KeyTransitive(key(x), key(s[0]), key(s[j])); }
      }
    } else {
      KeyTotal(key(x), key(s[0]));
      InsertByOrdered(x, s[1..], key);
      var r := InsertBy(x, s[1..], key);
      forall j | 0 <= j < |r| ensures KeyLe(key(s[0]), key(r[j])) {
        assert r[j] in multiset(r);
        assert r[j] in multiset(s[1..]) || r[j] == x;
        if r[j] != x {
          var k :| 0 <= k < |s[1..]| && s[1..][k] == r[j];
          assert s[k + 1] == r[j];
        }
      }
    }
  }

  lemma {:induction false} SortByOrdered<T>(s: seq<T>, key: T -> SortKey)
    ensures Ordered(SortBy(s, key), key)
  {
    if s != [] {
      SortByOrdered(s[1..], key);
      InsertByOrdered(s[0], SortBy(s[1..], key), key);
    }
  }

  /** A strictly ordered sequence is determined by its set of elements: this is why sorting a
      Python set makes the program's output independent of hash order. */
  lemma {:induction false} StrictlyOrderedUnique<T>(a: seq<T>, b: seq<T>, key: T -> SortKey)
    requires StrictlyOrdered(a, key) && StrictlyOrdered(b, key)
    requires forall x :: x in a <==> x in b
    ensures a == b
  {
    assert (a != [] ==> a[0] in a) && (b != [] ==> b[0] in b);
    if a != [] && b != [] {
      var i :| 0 <= i < |b| && b[i] == a[0];
      var j :| 0 <= j < |a| && a[j] == b[0];
      if i > 0 && j > 0 {
        assert KeyLt(key(b[0]), key(b[i])) && KeyLt(key(a[0]), key(a[j]));
        KeyTotal(key(a[0]), key(b[0]));
      }
      assert a[0] == b[0];
      forall x ensures x in a[1..] <==> x in b[1..] {
        if x in a[1..] {
          var k :| 1 <= k < |a| && a[k] == x;
          assert x in b && key(x) != key(b[0]);
        }
        if x in b[1..] {
          var k :| 1 <= k < |b| && b[k] == x;
          assert x in a && key(x) != key(a[0]);
        }
      }
      StrictlyOrderedUnique(a[1..], b[1..], key);
      assert a == [a[0]] + a[1..] && b == [b[0]] + b[1..];
    }
  }

  ghost predicate DistinctKeys<T>(s: seq<T>, key: T -> SortKey) {
    forall i, j :: 0 <= i < j < |s| ==> key(s[i]) != key(s[j])
  }

  ghost predicate InjectiveOn<T>(s: set<T>, key: T -> SortKey) {
    forall x, y :: x in s && y in s && key(x) == key(y) ==> x == y
  }

  /** Inserting a new element with a new key keeps a strictly ordered sequence strictly ordered. */
  lemma InsertByStrict<T>(x: T, s: seq<T>, key: T -> SortKey)
    requires StrictlyOrdered(s, key)
    requires forall y :: y in s ==> key(y) != key(x)
    ensures StrictlyOrdered(InsertBy(x, s, key), key)
  {
    InsertByOrdered(x, s, key);
    InsertByDistinct(x, s, key);
  }

  lemma {:induction false} InsertByDistinct<T>(x: T, s: seq<T>, key: T -> SortKey)
    requires DistinctKeys(s, key)
    requires forall y :: y in s ==> key(y) != key(x)
    ensures DistinctKeys(InsertBy(x, s, key), key)
  {
    if s == [] {
    } else if KeyLe(key(x), key(s[0])) {
      assert forall y :: y in s ==> key(y) != key(x);
    } else {
      InsertByDistinct(x, s[1..], key);
      var r := InsertBy(x, s[1..], key);
      forall j | 0 <= j < |r| ensures key(s[0]) != key(r[j]) {
        assert r[j] in multiset(r);
        assert r[j] in multiset(s[1..]) || r[j] == x;
        if r[j] != x {
          var k :| 0 <= k < |s[1..]| && s[1..][k] == r[j];
          assert key(s[0]) != key(s[k + 1]);
        }
      }
      assert InsertBy(x, s, key) == [s[0]] + r;
    }
  }

  lemma {:induction false} SortByDistinct<T>(s: seq<T>, key: T -> SortKey)
    requires DistinctKeys(s, key)
    ensures DistinctKeys(SortBy(s, key), key)
  {
    if s != [] {
      var tail, sorted := s[1..], SortBy(s[1..], key);
      SortByDistinct(tail, key);
      forall y | y in sorted ensures key(y) != key(s[0]) {
        assert y in multiset(sorted) && y in multiset(tail);
        var k :| 0 <= k < |s[1..]| && s[1..][k] == y;
        assert s[k + 1] == y;
      }
      InsertByDistinct(s[0], sorted, key);
    }
  }

  /** Sorting elements with distinct keys leaves them strictly ordered. */
  lemma SortByStrict<T>(s: seq<T>, key: T -> SortKey)
    requires DistinctKeys(s, key)
    ensures StrictlyOrdered(SortBy(s, key), key)
  {
    SortByOrdered(s, key);
    SortByDistinct(s, key);
  }

  // ---- sorting a part ------------------------------------------------------------------------

  /** The elements of s that `pick` picks. */
  function Keep<T>(s: seq<T>, pick: T -> bool): seq<T> {
    if s == [] then [] else if pick(s[0]) then [s[0]] + Keep(s[1..], pick) else Keep(s[1..], pick)
  }

  lemma {:induction false} KeepConcat<T>(a: seq<T>, b: seq<T>, pick: T -> bool)
    ensures Keep(a + b, pick) == Keep(a, pick) + Keep(b, pick)
  {
    if a == [] {
      assert a + b == b;
    } else {
      assert (a + b)[1..] == a[1..] + b;
      KeepConcat(a[1..], b, pick);
    }
  }

  lemma {:induction false} KeepAll<T>(s: seq<T>, pick: T -> bool)
    ensures (forall i :: 0 <= i < |s| ==> pick(s[i])) ==> Keep(s, pick) == s
    ensures (forall i :: 0 <= i < |s| ==> !pick(s[i])) ==> Keep(s, pick) == []
  {
    if s != [] {
      KeepAll(s[1..], pick);
      assert s == [s[0]] + s[1..];
    }
  }

  lemma {:induction false} KeepBound<T>(k: SortKey, s: seq<T>, pick: T -> bool, key: T -> SortKey)
    requires forall i :: 0 <= i < |s| ==> KeyLe(k, key(s[i]))
    ensures Keep(s, pick) != [] ==> KeyLe(k, key(Keep(s, pick)[0]))
  {
    if s != [] { KeepBound(k, s[1..], pick, key); }
  }

  lemma {:induction false} KeepInsert<T>(x: T, s: seq<T>, pick: T -> bool, key: T -> SortKey)
    requires Ordered(s, key)
    ensures Keep(InsertBy(x, s, key), pick) == if pick(x) then InsertBy(x, Keep(s, pick), key) else Keep(s, pick)
  {
    if s == [] {
    } else if KeyLe(key(x), key(s[0])) {
      assert ([x] + s)[1..] == s;
      forall i | 0 <= i < |s| ensures KeyLe(key(x), key(s[i])) {
        if i > 0 { KeyTransitive(key(x), key(s[0]), key(s[i])); }
      }
      KeepBound(key(x), s, pick, key);
    } else {
      KeepInsert(x, s[1..], pick, key);
      var r := InsertBy(x, s[1..], key);
      assert InsertBy(x, s, key) == [s[0]] + r && ([s[0]] + r)[1..] == r;
      assert pick(s[0]) ==> Keep(s, pick)[1..] == Keep(s[1..], pick);
    }
  }

  /** A stable sort of a part is that part of the sorted whole. */
  lemma {:induction false} KeepSort<T>(s: seq<T>, pick: T -> bool, key: T -> SortKey)
    ensures Keep(SortBy(s, key), pick) == SortBy(Keep(s, pick), key)
  {
    if s != [] {
      KeepSort(s[1..], pick, key);
      SortByOrdered(s[1..], key);
      KeepInsert(s[0], SortBy(s[1..], key), pick, key);
      assert pick(s[0]) ==> Keep(s, pick)[1..] == Keep(s[1..], pick);
    }
  }

  lemma {:induction false} SortOfEqualKeys<T>(s: seq<T>, key: T -> SortKey)
    requires forall i, j :: 0 <= i < |s| && 0 <= j < |s| ==> key(s[i]) == key(s[j])
    ensures SortBy(s, key) == s
  {
    if s != [] {
      var tail := s[1..];
      SortOfEqualKeys(tail, key);
      KeyTotal(key(s[0]), key(s[0]));
      assert tail != [] ==> key(tail[0]) == key(s[0]);
      assert s == [s[0]] + tail;
    }
  }

  lemma MultisetMembers<T>(s: seq<T>, t: seq<T>)
    requires multiset(s) == multiset(t)
    ensures forall x :: x in s <==> x in t
  {
    forall x ensures x in s <==> x in t {
      assert x in s <==> x in multiset(s);
      assert x in t <==> x in multiset(t);
    }
  }

  lemma SortMembers<T>(s: seq<T>, key: T -> SortKey)
    ensures forall x :: x in SortBy(s, key) <==> x in s
  {
    MultisetMembers(SortBy(s, key), s);
  }

  // ---- one list after another ----------------------------------------------------------------

  /** The lists that f makes of the elements of s, joined in order. */
  function Gathered<S, T>(s: seq<S>, f: S -> seq<T>): seq<T> {
    if s == [] then [] else Gathered(s[..|s| - 1], f) + f(s[|s| - 1])
  }

  lemma {:induction false} GatheredConcat<S, T>(a: seq<S>, b: seq<S>, f: S -> seq<T>)
    ensures Gathered(a + b, f) == Gathered(a, f) + Gathered(b, f)
  {
    if b == [] {
      assert a + b == a;
    } else {
      assert (a + b)[..|a + b| - 1] == a + b[..|b| - 1];
      GatheredConcat(a, b[..|b| - 1], f);
    }
  }

  lemma {:induction false} GatheredMembers<S, T>(s: seq<S>, f: S -> seq<T>, y: T)
    ensures y in Gathered(s, f) <==> exists x :: x in s && y in f(x)
  {
    if s != [] {
      GatheredMembers(s[..|s| - 1], f, y);
      assert s == s[..|s| - 1] + [s[|s| - 1]];
    }
  }

  /** Python's `sorted(s, key=key)` on a set whose elements have distinct keys: whatever order
      the set is drained in, the outcome is the one strictly ordered sequence of its elements. */
  method SortSet<T(==)>(s: set<T>, key: T -> SortKey) returns (r: seq<T>)
    requires InjectiveOn(s, key)
    ensures StrictlyOrdered(r, key)
    ensures forall x :: x in r <==> x in s
    ensures |r| == |s|
  {
    r := [];
    var todo := s;
    while todo != {}
      invariant todo <= s
      invariant StrictlyOrdered(r, key)
      invariant forall x :: x in r <==> x in s - todo
      invariant |r| == |s| - |todo|
      decreases todo
    {
      var x :| x in todo;
      InsertByStrict(x, r, key);
      var r' := InsertBy(x, r, key);
      assert |multiset(r')| == |r'| && |multiset(r)| == |r|;
      assert forall y :: y in r' <==> y in multiset(r');
      assert forall y :: y in r <==> y in multiset(r);
      r := r';
      todo := todo - {x};
    }
  }
}
