/** Strings and small collections shared by every module: Go's string order,
    order-preserving filters and stable sorting. */
module Text {

  datatype Option<+T> = None | Some(value: T)

  /** Go's `<` on strings: lexicographic, a proper prefix comes first. */
  predicate Less(a: string, b: string) {
    |b| > 0 && (|a| == 0 || a[0] < b[0] || (a[0] == b[0] && Less(a[1..], b[1..])))
  }

  /** a agrees with b up to place i, where a ends or has the smaller character. */
  predicate SmallerAt(a: string, b: string, i: int) {
    0 <= i <= |a| && i < |b| && a[..i] == b[..i] && (i == |a| || a[i] < b[i])
  }

  lemma {:induction false} LessExactly(a: string, b: string)
    ensures Less(a, b) <==> exists i :: SmallerAt(a, b, i)
  {
    if |b| > 0 && (|a| == 0 || a[0] < b[0]) {
      assert SmallerAt(a, b, 0);
    } else if |b| > 0 && a[0] == b[0] {
      LessExactly(a[1..], b[1..]);
      if i :| SmallerAt(a[1..], b[1..], i) {
        assert a[..i + 1] == [a[0]] + a[1..][..i] && b[..i + 1] == [b[0]] + b[1..][..i];
        assert SmallerAt(a, b, i + 1);
      }
      if i :| SmallerAt(a, b, i) {
        assert i > 0;
        assert a[1..][..i - 1] == a[..i][1..] && b[1..][..i - 1] == b[..i][1..];
        assert SmallerAt(a[1..], b[1..], i - 1);
      }
    }
  }

  lemma {:induction false} LessIrreflexive(a: string)
    ensures !Less(a, a)
  {
    if |a| > 0 { LessIrreflexive(a[1..]); }
  }

  lemma {:induction false} LessTransitive(a: string, b: string, c: string)
    requires Less(a, b) && Less(b, c)
    ensures Less(a, c)
  {
    if |a| > 0 && a[0] == b[0] == c[0] { LessTransitive(a[1..], b[1..], c[1..]); }
  }

  lemma {:induction false} LessTotal(a: string, b: string)
    ensures a == b || Less(a, b) || Less(b, a)
  {
    if |a| > 0 && |b| > 0 && a[0] == b[0] {
      LessTotal(a[1..], b[1..]);
      if a[1..] == b[1..] {
        assert a == [a[0]] + a[1..] && b == [b[0]] + b[1..];
      }
    }
  }

  /** A weak order derived from `Less`: if a is not after b and b is not after c, then a is not after c. */
  lemma NotAfterTransitive(a: string, b: string, c: string)
    requires !Less(b, a) && !Less(c, b)
    ensures !Less(c, a)
  {
    if Less(c, a) {
      LessTotal(a, b);
      if a != b { LessTransitive(c, a, b); }
    }
  }

  /** The elements of s that satisfy p, in their order: Go's append-in-a-loop filter. */
  function Filter<T>(s: seq<T>, p: T -> bool): (r: seq<T>) {
    if |s| == 0 then []
    else Filter(s[..|s| - 1], p) + (if p(s[|s| - 1]) then [s[|s| - 1]] else [])
  }

  lemma FilterAppend<T>(s: seq<T>, x: T, p: T -> bool)
    ensures Filter(s + [x], p) == Filter(s, p) + (if p(x) then [x] else [])
  {
    assert (s + [x])[..|s|] == s;
  }

  lemma {:induction false} FilterCount<T>(s: seq<T>, p: T -> bool, x: T)
    ensures multiset(Filter(s, p))[x] == if p(x) then multiset(s)[x] else 0
  {
    if |s| > 0 {
      FilterCount(s[..|s| - 1], p, x);
      assert s == s[..|s| - 1] + [s[|s| - 1]];
    }
  }

  /** Membership and multiplicity of a filtered sequence. */
  lemma FilterMember<T>(s: seq<T>, p: T -> bool)
    ensures forall x :: x in Filter(s, p) <==> x in s && p(x)
    ensures forall x :: multiset(Filter(s, p))[x] == if p(x) then multiset(s)[x] else 0
  {
    forall x
      ensures x in Filter(s, p) <==> x in s && p(x)
      ensures multiset(Filter(s, p))[x] == if p(x) then multiset(s)[x] else 0
    {
      FilterCount(s, p, x);
      assert x in Filter(s, p) <==> x in multiset(Filter(s, p));
      assert x in s <==> x in multiset(s);
    }
  }

  /** A filter in front of a narrower one changes nothing. */
  lemma {:induction false} FilterTwice<T>(s: seq<T>, wide: T -> bool, narrow: T -> bool)
    requires forall x :: x in s && narrow(x) ==> wide(x)
    ensures Filter(Filter(s, wide), narrow) == Filter(s, narrow)
  {
    if |s| > 0 {
      var t, x := s[..|s| - 1], s[|s| - 1];
      FilterTwice(t, wide, narrow);
      if wide(x) { FilterAppend(Filter(t, wide), x, narrow); } else { assert Filter(s, wide) == Filter(t, wide); }
    }
  }

  lemma {:induction false} FilterAll<T>(s: seq<T>, p: T -> bool)
    requires forall i :: 0 <= i < |s| ==> p(s[i])
    ensures Filter(s, p) == s
  {
    if |s| > 0 { FilterAll(s[..|s| - 1], p); }
  }

  lemma EmptyOrFirst<T>(s: seq<T>)
    ensures s == [] || s[0] in s
  {
  }

  /** The entry of a map of slices; Go reads a missing key as the nil slice. */
  function At<K, V>(m: map<K, seq<V>>, k: K): seq<V> { if k in m then m[k] else [] }

  /** Every occurrence in s is a different value. */
  predicate Distinct<T(==)>(s: seq<T>) { forall i, j :: 0 <= i < j < |s| ==> s[i] != s[j] }

  lemma {:induction false} DistinctCount<T>(s: seq<T>, x: T)
    requires Distinct(s)
    ensures multiset(s)[x] == if x in s then 1 else 0
  {
    if |s| > 0 {
      DistinctCount(s[..|s| - 1], x);
      assert s == s[..|s| - 1] + [s[|s| - 1]];
    }
  }

  lemma {:induction false} CountAtLeast<T>(r: seq<T>, i: nat, j: nat)
    requires i < j < |r| && r[i] == r[j]
    ensures multiset(r)[r[i]] >= 2
  {
    assert r == r[..j] + r[j..] && r[i] in r[..j] && r[j] in r[j..];
  }

  /** Marks three values whose order is being compared; it names the instances of transitivity a proof uses. */
  predicate Chain<T>(a: T, b: T, c: T) { true }

  /** A comparison usable for sorting: asymmetric, and "not after" is transitive. */
  ghost predicate WeakOrder<T(!new)>(less: (T, T) -> bool) {
    && (forall a, b :: less(a, b) ==> !less(b, a))
    && (forall a, b, c {:trigger Chain(a, b, c)} :: !less(b, a) && !less(c, b) ==> !less(c, a))
  }

  ghost predicate SortedBy<T>(s: seq<T>, less: (T, T) -> bool) {
    forall i, j :: 0 <= i < j < |s| ==> !less(s[j], s[i])
  }

  /** Putting e between what it does not precede and what it precedes keeps the order. */
  lemma InsertKeepsOrder<T(!new)>(s: seq<T>, n: nat, e: T, less: (T, T) -> bool)
    requires WeakOrder(less) && SortedBy(s, less) && n <= |s|
    requires n > 0 ==> !less(e, s[n - 1])
    requires forall i :: n <= i < |s| ==> less(e, s[i])
    ensures SortedBy(s[..n] + [e] + s[n..], less)
  {
    var r := s[..n] + [e] + s[n..];
    forall i, j | 0 <= i < j < |r| ensures !less(r[j], r[i]) {
      if i < n && j == n && i < n - 1 { assert Chain(s[i], s[n - 1], e); }
    }
  }

  lemma InsertKeepsElements<T>(s: seq<T>, n: nat, e: T)
    requires n <= |s|
    ensures multiset(s[..n] + [e] + s[n..]) == multiset(s) + multiset{e}
  {
    assert s == s[..n] + s[n..];
  }

  /** Stable insertion: e goes behind every element that it does not precede. */
  method InsertSorted<T(!new)>(s: seq<T>, e: T, less: (T, T) -> bool) returns (r: seq<T>)
    requires WeakOrder(less) && SortedBy(s, less)
    ensures multiset(r) == multiset(s) + multiset{e} && |r| == |s| + 1
    ensures SortedBy(r, less)
    ensures r[0] == if s != [] && !less(e, s[0]) then s[0] else e
  {
    var n := |s|;
    while n > 0 && less(e, s[n - 1])
      invariant 0 <= n <= |s|
      invariant forall i :: n <= i < |s| ==> less(e, s[i])
    {
      n := n - 1;
    }
    r := s[..n] + [e] + s[n..];
    InsertKeepsElements(s, n, e);
    InsertKeepsOrder(s, n, e, less);
    if 0 < n { InsertHead(s, n, e, less); }
  }

  lemma InsertHead<T(!new)>(s: seq<T>, n: nat, e: T, less: (T, T) -> bool)
    requires WeakOrder(less) && SortedBy(s, less) && 0 < n <= |s| && !less(e, s[n - 1])
    ensures !less(e, s[0])
  {
    if 1 < n { assert Chain(s[0], s[n - 1], e); }
  }

  /** A stable sort. */
  method SortStable<T(!new)>(s: seq<T>, less: (T, T) -> bool) returns (r: seq<T>)
    requires WeakOrder(less)
    ensures multiset(r) == multiset(s) && |r| == |s|
    ensures SortedBy(r, less)
  {
    r := [];
    for i := 0 to |s|
      invariant multiset(r) == multiset(s[..i]) && |r| == i
      invariant SortedBy(r, less)
    {
      assert s[..i + 1] == s[..i] + [s[i]];
      r := InsertSorted(r, s[i], less);
    }
    assert s[..|s|] == s;
  }
}
