/** Ordered lists: a stable sort, filtering, and the order of strings. */
module Sorting {

  ghost predicate TotalOrder<T(!new)>(le: (T, T) -> bool) {
    && (forall a, b :: le(a, b) || le(b, a))
    && (forall a, b, c :: le(a, b) && le(b, c) ==> le(a, c))
  }

  ghost predicate Sorted<T>(le: (T, T) -> bool, s: seq<T>) {
    forall i, j | 0 <= i < j < |s| :: le(s[i], s[j])
  }

  ghost predicate Distinct<T>(s: seq<T>) {
    forall i, j | 0 <= i < j < |s| :: s[i] != s[j]
  }

  /** `x` goes before the first element it does not come after. */
  function Insert<T>(le: (T, T) -> bool, x: T, s: seq<T>): (r: seq<T>)
    ensures multiset(r) == multiset(s) + multiset{x}
  {
    if s == [] then [x]
    else if le(x, s[0]) then [x] + s
    else
      assert s == [s[0]] + s[1..];
      [s[0]] + Insert(le, x, s[1..])
  }

  /** Equal elements keep their order. */
  function Sort<T>(le: (T, T) -> bool, s: seq<T>): (r: seq<T>)
    ensures multiset(r) == multiset(s) && |r| == |s|
  {
    if s == [] then []
    else
      assert s == [s[0]] + s[1..];
      var r := Insert(le, s[0], Sort(le, s[1..]));
      assert |multiset(r)| == |r| && |multiset(s)| == |s|;
      r
  }

  lemma SameElements<T>(a: seq<T>, b: seq<T>)
    requires multiset(a) == multiset(b)
    ensures forall x :: x in a <==> x in b
    ensures |a| == |b|
  {
    forall x ensures x in a <==> x in b {
      assert x in a <==> x in multiset(a);
      assert x in b <==> x in multiset(b);
    }
    assert |multiset(a)| == |a| && |multiset(b)| == |b|;
  }

  lemma {:induction false} InsertSorted<T(!new)>(le: (T, T) -> bool, x: T, s: seq<T>)
    requires TotalOrder(le) && Sorted(le, s)
    ensures Sorted(le, Insert(le, x, s))
  {
    if s != [] && !le(x, s[0]) {
      InsertSorted(le, x, s[1..]);
      var rest := Insert(le, x, s[1..]);
      SameElements(rest, s[1..] + [x]);
      forall j | 0 <= j < |rest| ensures le(s[0], rest[j]) {
        assert rest[j] in rest;
        assert rest[j] in s[1..] + [x];
      }
    }
  }

  lemma {:induction false} SortSorts<T(!new)>(le: (T, T) -> bool, s: seq<T>)
    requires TotalOrder(le)
    ensures Sorted(le, Sort(le, s))
  {
    if s != [] {
      SortSorts(le, s[1..]);
      InsertSorted(le, s[0], Sort(le, s[1..]));
    }
  }

  /** No two different elements of the list are each no later than the other. */
  ghost predicate Antisymmetric<T>(le: (T, T) -> bool, s: seq<T>) {
    forall a, b | a in s && b in s && le(a, b) && le(b, a) :: a == b
  }

  lemma SameFirst<T>(le: (T, T) -> bool, a: seq<T>, b: seq<T>)
    requires Antisymmetric(le, a) && Sorted(le, a) && Sorted(le, b) && a != [] && b != [] && a[0] in b && b[0] in a
    ensures a[0] == b[0]
  {
  }

  lemma TailBag<T>(a: seq<T>)
    requires a != []
    ensures multiset(a[1..]) == multiset(a) - multiset{a[0]}
  {
    assert a == [a[0]] + a[1..];
  }

  lemma TailOrdered<T>(le: (T, T) -> bool, a: seq<T>)
    requires a != [] && Sorted(le, a)
    ensures Sorted(le, a[1..]) && (Antisymmetric(le, a) ==> Antisymmetric(le, a[1..]))
  {
    assert forall x | x in a[1..] :: x in a;
  }

  lemma SameHeadSameTail<T>(a: seq<T>, b: seq<T>)
    requires a != [] && b != [] && a[0] == b[0] && a[1..] == b[1..]
    ensures a == b
  {
    assert a == [a[0]] + a[1..] && b == [b[0]] + b[1..];
  }

  /** There is one way to put a bag of elements in order. */
  lemma {:induction false} OneOrder<T>(le: (T, T) -> bool, a: seq<T>, b: seq<T>)
    requires Antisymmetric(le, a) && Sorted(le, a) && Sorted(le, b) && multiset(a) == multiset(b)
    ensures a == b
    decreases |a|
  {
    hide Antisymmetric, Sorted;
    SameElements(a, b);
    if a != [] {
      assert a[0] in a && b[0] in b;
      SameFirst(le, a, b);
      TailBag(a);
      TailBag(b);
      TailOrdered(le, a);
      TailOrdered(le, b);
      OneOrder(le, a[1..], b[1..]);
      SameHeadSameTail(a, b);
    }
  }

  function Filter<T(!new)>(s: seq<T>, keep: T -> bool): (r: seq<T>)
    ensures forall x :: x in r <==> x in s && keep(x)
    ensures |r| <= |s|
  {
    if s == [] then []
    else
      assert s == [s[0]] + s[1..];
      (if keep(s[0]) then [s[0]] else []) + Filter(s[1..], keep)
  }

  lemma {:induction false} FilterAppend<T(!new)>(s: seq<T>, t: seq<T>, keep: T -> bool)
    ensures Filter(s + t, keep) == Filter(s, keep) + Filter(t, keep)
  {
    if s == [] {
      assert s + t == t;
    } else {
      assert (s + t)[1..] == s[1..] + t;
      FilterAppend(s[1..], t, keep);
    }
  }

  lemma {:induction false} FilterDistinct<T(!new)>(s: seq<T>, keep: T -> bool)
    requires Distinct(s)
    ensures Distinct(Filter(s, keep))
  {
    if s != [] { FilterDistinct(s[1..], keep); }
  }

  lemma {:induction false} DistinctBag<T>(s: seq<T>)
    ensures Distinct(s) <==> forall x :: multiset(s)[x] <= 1
  {
    if s != [] {
      assert s == [s[0]] + s[1..];
      DistinctBag(s[1..]);
      assert forall x :: multiset(s)[x] == multiset(s[1..])[x] + if x == s[0] then 1 else 0;
      if Distinct(s) {
        assert s[0] !in s[1..];
        assert s[0] !in multiset(s[1..]);
      } else {
        var i, j :| 0 <= i < j < |s| && s[i] == s[j];
        if i == 0 {
          assert s[1..][j - 1] == s[0];
          assert s[0] in multiset(s[1..]);
        } else {
          assert s[1..][i - 1] == s[1..][j - 1];
        }
      }
    }
  }

  /** Lists without repetition that hold the same elements are the same bag. */
  lemma SameBag<T>(a: seq<T>, b: seq<T>)
    requires Distinct(a) && Distinct(b) && forall x :: x in a <==> x in b
    ensures multiset(a) == multiset(b)
  {
    DistinctBag(a);
    DistinctBag(b);
    forall x ensures multiset(a)[x] == multiset(b)[x] {
      assert x in a <==> x in multiset(a);
      assert x in b <==> x in multiset(b);
    }
  }

  lemma SortDistinct<T>(le: (T, T) -> bool, s: seq<T>)
    ensures Distinct(Sort(le, s)) <==> Distinct(s)
  {
    DistinctBag(s);
    DistinctBag(Sort(le, s));
  }

  lemma {:induction false} DistinctSize<T>(s: seq<T>)
    requires Distinct(s)
    ensures |set x | x in s| == |s|
  {
    if s != [] {
      var rest := s[1..];
      DistinctSize(rest);
      assert (set x | x in s) == (set x | x in rest) + {s[0]};
      assert s[0] !in rest;
    }
  }

  lemma SubsetSize<T>(a: set<T>, b: set<T>)
    requires a <= b
    ensures |a| <= |b|
  {
    assert b == a + (b - a);
    assert |b| == |a| + |b - a|;
  }

  // ── ties ────────────────────────────────────────────────────────────────

  ghost predicate Before<T>(s: seq<T>, x: T, y: T) { exists i, j :: 0 <= i < j < |s| && s[i] == x && s[j] == y }

  lemma OneWayRound<T>(s: seq<T>, x: T, y: T)
    requires Distinct(s) && Before(s, x, y)
    ensures !Before(s, y, x)
  {
  }

  lemma EitherWay<T>(s: seq<T>, x: T, y: T)
    requires x in s && y in s && x != y
    ensures Before(s, x, y) || Before(s, y, x)
  {
    var i :| 0 <= i < |s| && s[i] == x;
    var j :| 0 <= j < |s| && s[j] == y;
    if i < j { assert Before(s, x, y); } else { assert Before(s, y, x); }
  }

  lemma BeforeAfter<T>(x: T, s: seq<T>, y: T, z: T)
    ensures Before(s, y, z) ==> Before([x] + s, y, z)
    ensures y in s ==> Before([x] + s, x, y)
    ensures Before([x] + s, y, z) && y != x ==> Before(s, y, z)
  {
    var all := [x] + s;
    if Before(s, y, z) {
      var i, j :| 0 <= i < j < |s| && s[i] == y && s[j] == z;
      assert all[i + 1] == y && all[j + 1] == z;
    }
    if y in s {
      var j :| 0 <= j < |s| && s[j] == y;
      assert all[0] == x && all[j + 1] == y;
    }
    if Before(all, y, z) && y != x {
      var i, j :| 0 <= i < j < |all| && all[i] == y && all[j] == z;
      assert s[i - 1] == y && s[j - 1] == z;
    }
  }

  lemma BeforeLonger<T>(s: seq<T>, last: T, x: T, y: T)
    requires Before(s, x, y)
    ensures Before(s + [last], x, y)
  {
    var i, j :| 0 <= i < j < |s| && s[i] == x && s[j] == y;
    assert (s + [last])[i] == x && (s + [last])[j] == y;
  }

  lemma BeforeLast<T>(s: seq<T>, x: T, last: T)
    requires x in s
    ensures Before(s + [last], x, last)
  {
    var i :| 0 <= i < |s| && s[i] == x;
    assert (s + [last])[i] == x && (s + [last])[|s|] == last;
  }

  lemma {:induction false} FilterKeepsOrder<T(!new)>(s: seq<T>, keep: T -> bool, x: T, y: T)
    requires Before(s, x, y) && keep(x) && keep(y) && Distinct(s)
    ensures Before(Filter(s, keep), x, y)
  {
    var rest := Filter(s[1..], keep);
    FilterHead(s, keep);
    assert s == [s[0]] + s[1..];
    BeforeAfter(s[0], s[1..], x, y);
    BeforeIsIn(s, x, y);
    hide Before, Filter, Distinct;
    if x == s[0] {
      BeforeAfter(x, rest, y, y);
    } else {
      FilterKeepsOrder(s[1..], keep, x, y);
      BeforeAfter(s[0], rest, x, y);
    }
  }

  lemma FilterHead<T(!new)>(s: seq<T>, keep: T -> bool)
    requires s != []
    ensures Filter(s, keep) == if keep(s[0]) then [s[0]] + Filter(s[1..], keep) else Filter(s[1..], keep)
  {
  }

  lemma BeforeIsIn<T>(s: seq<T>, x: T, y: T)
    requires Before(s, x, y) && Distinct(s)
    ensures y in s[1..] && (x != s[0] ==> x in s[1..]) && Distinct(s[1..])
  {
    var i, j :| 0 <= i < j < |s| && s[i] == x && s[j] == y;
    assert s[1..][j - 1] == y;
    if i > 0 { assert s[1..][i - 1] == x; }
  }

  /** What the sorted list puts first although the order does not ask for it came first in the list. */
  ghost predicate Stable<T>(le: (T, T) -> bool, s: seq<T>, r: seq<T>) {
    forall i, j | 0 <= i < j < |r| && le(r[j], r[i]) :: Before(s, r[i], r[j])
  }

  lemma {:induction false} InsertAt<T>(le: (T, T) -> bool, x: T, s: seq<T>) returns (k: nat)
    ensures k <= |s| && Insert(le, x, s) == s[..k] + [x] + s[k..]
    ensures forall m | 0 <= m < k :: !le(x, s[m])
  {
    if s == [] || le(x, s[0]) {
      k := 0;
    } else {
      var rest := InsertAt(le, x, s[1..]);
      k := rest + 1;
      assert forall m | 0 < m < k :: s[m] == s[1..][m - 1];
    }
  }

  lemma InsertStable<T>(le: (T, T) -> bool, x: T, t: seq<T>, u: seq<T>)
    requires Stable(le, t, u) && forall y | y in u :: y in t
    ensures Stable(le, [x] + t, Insert(le, x, u))
  {
    var r := Insert(le, x, u);
    var k := InsertAt(le, x, u);
    hide Before, Insert;
    forall i, j | 0 <= i < j < |r| && le(r[j], r[i]) ensures Before([x] + t, r[i], r[j]) {
      BeforeAfter(x, t, r[i], r[j]);
      BeforeAfter(x, t, r[j], r[j]);
      if i == k {
        assert r[j] == u[j - 1];
      } else if j != k {
        assert r[i] == u[if i < k then i else i - 1] && r[j] == u[if j < k then j else j - 1];
      }
    }
  }

  lemma {:induction false} SortStable<T>(le: (T, T) -> bool, s: seq<T>)
    ensures Stable(le, s, Sort(le, s))
  {
    if s != [] {
      var t, u := s[1..], Sort(le, s[1..]);
      SortStable(le, t);
      SameElements(u, t);
      assert Stable(le, t, u);
      assert forall y | y in u :: y in t;
      InsertStable(le, s[0], t, u);
      assert s == [s[0]] + t;
    }
  }

  ghost predicate Tie<T>(le: (T, T) -> bool, x: T, y: T) { x != y && le(x, y) && le(y, x) }

  /** The two lists put what ties in the same order. */
  ghost predicate TiesAgree<T(!new)>(le: (T, T) -> bool, a: seq<T>, b: seq<T>) {
    forall x, y | x in a && y in a && Tie(le, x, y) :: Before(a, x, y) <==> Before(b, x, y)
  }

  lemma TieStaysPut<T>(le: (T, T) -> bool, a: seq<T>, x: T, y: T)
    requires Distinct(a) && x in a && y in a && Tie(le, x, y)
    ensures Before(Sort(le, a), x, y) <==> Before(a, x, y)
  {
    var r := Sort(le, a);
    SortStable(le, a);
    SortDistinct(le, a);
    SameElements(r, a);
    hide Sort;
    EitherWay(r, x, y);
    if Before(r, x, y) {
      var i, j :| 0 <= i < j < |r| && r[i] == x && r[j] == y;
      assert Before(a, r[i], r[j]);
    } else {
      var i, j :| 0 <= i < j < |r| && r[i] == y && r[j] == x;
      assert Before(a, r[i], r[j]);
      OneWayRound(a, y, x);
    }
  }

  lemma SortedThrough<T(!new)>(le: (T, T) -> bool, le': (T, T) -> bool, a: seq<T>, b: seq<T>)
    requires TotalOrder(le) && Distinct(b) && multiset(a) == multiset(b) && TiesAgree(le, a, b)
    requires forall x, y :: le'(x, y) <==> le(x, y) && (le(y, x) ==> x == y || Before(a, x, y))
    ensures Sorted(le', Sort(le, b))
  {
    var r := Sort(le, b);
    SortSorts(le, b);
    SortStable(le, b);
    SortDistinct(le, b);
    SameElements(r, a);
    hide Sort, Before, TotalOrder;
    forall i, j | 0 <= i < j < |r| ensures le'(r[i], r[j]) {
      assert r[i] in r && r[j] in r && r[i] != r[j];
      if le(r[j], r[i]) {
        assert Tie(le, r[i], r[j]);
        assert Before(b, r[i], r[j]);
      }
    }
  }

  /** Two arrangements of the same elements sort alike exactly when they put what ties in the same order. */
  lemma SortsAlikeIff<T(!new)>(le: (T, T) -> bool, a: seq<T>, b: seq<T>)
    requires TotalOrder(le) && Distinct(a) && Distinct(b) && multiset(a) == multiset(b)
    ensures Sort(le, a) == Sort(le, b) <==> TiesAgree(le, a, b)
  {
    SameElements(a, b);
    if TiesAgree(le, a, b) {
      var le' := (x: T, y: T) => le(x, y) && (le(y, x) ==> x == y || Before(a, x, y));
      SortedThrough(le, le', a, a);
      SortedThrough(le, le', a, b);
      hide Sort;
      assert Antisymmetric(le', Sort(le, a)) by {
        forall x, y | le'(x, y) && le'(y, x) ensures x == y {
          if x != y { OneWayRound(a, x, y); }
        }
      }
      OneOrder(le', Sort(le, a), Sort(le, b));
    } else {
      hide Before;
      var x, y :| x in a && y in a && Tie(le, x, y) && !(Before(a, x, y) <==> Before(b, x, y));
      TieStaysPut(le, a, x, y);
      TieStaysPut(le, b, x, y);
    }
  }

  // ── strings, by code unit ───────────────────────────────────────────────

  predicate StringLess(a: string, b: string) {
    b != "" && (a == "" || a[0] < b[0] || (a[0] == b[0] && StringLess(a[1..], b[1..])))
  }

  /** They agree up to `k`, where `a` has the smaller character or ends. */
  ghost predicate DiffersAt(a: string, b: string, k: nat) {
    k < |b| && k <= |a| && a[..k] == b[..k] && (k == |a| || a[k] < b[k])
  }

  /** By the first character in which they differ; a string comes before whatever continues it. */
  lemma {:induction false} StringLessIff(a: string, b: string)
    ensures StringLess(a, b) <==> exists k: nat :: DiffersAt(a, b, k)
  {
    if a == "" || b == "" {
      if b != "" { assert DiffersAt(a, b, 0); }
    } else if a[0] != b[0] {
      if a[0] < b[0] { assert DiffersAt(a, b, 0); }
      forall k: nat | 0 < k <= |a| && k <= |b| ensures a[..k] != b[..k] { assert a[..k][0] != b[..k][0]; }
    } else {
      StringLessIff(a[1..], b[1..]);
      FirstDiffers(a, b);
    }
  }

  lemma FirstDiffers(a: string, b: string)
    requires a != "" && b != "" && a[0] == b[0]
    ensures (exists k: nat :: DiffersAt(a[1..], b[1..], k)) <==> exists k: nat :: DiffersAt(a, b, k)
  {
    if k: nat :| DiffersAt(a[1..], b[1..], k) {
      assert a[..k + 1] == [a[0]] + a[1..][..k] && b[..k + 1] == [b[0]] + b[1..][..k];
      assert DiffersAt(a, b, k + 1);
    }
    if k: nat :| DiffersAt(a, b, k) {
      assert k > 0 && a[..k][1..] == a[1..][..k - 1] && b[..k][1..] == b[1..][..k - 1];
      assert DiffersAt(a[1..], b[1..], k - 1);
    }
  }

  predicate StringAtMost(a: string, b: string) { a == b || StringLess(a, b) }

  lemma {:induction false} StringsOrdered(a: string, b: string)
    ensures !(StringLess(a, b) && StringLess(b, a)) && !StringLess(a, a)
    ensures StringLess(a, b) || a == b || StringLess(b, a)
  {
    if a != "" { StringsOrdered(a[1..], if b == "" then "" else b[1..]); }
    if a != "" && b != "" && a[0] == b[0] {
      assert a == [a[0]] + a[1..] && b == [b[0]] + b[1..];
    }
  }

  lemma {:induction false} StringsChain(a: string, b: string, c: string)
    requires StringLess(a, b) && StringLess(b, c)
    ensures StringLess(a, c)
  {
    if a != "" && a[0] == b[0] == c[0] { StringsChain(a[1..], b[1..], c[1..]); }
  }

  lemma StringsTotal()
    ensures TotalOrder(StringAtMost) && forall a, b :: StringAtMost(a, b) && StringAtMost(b, a) ==> a == b
  {
    forall a: string, b: string
        ensures (StringAtMost(a, b) || StringAtMost(b, a)) && (StringAtMost(a, b) && StringAtMost(b, a) ==> a == b) {
      StringsOrdered(a, b);
    }
    forall a: string, b: string, c: string | StringAtMost(a, b) && StringAtMost(b, c) ensures StringAtMost(a, c) {
      if StringLess(a, b) && StringLess(b, c) { StringsChain(a, b, c); }
    }
  }
}
