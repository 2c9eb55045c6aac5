/** Stable sorting as a function: it commutes with filters, and without ties it depends only on the elements. */
module Sorting {
  import opened Text

  /** e goes behind every element that it does not precede. */
  function InsertStable<T(!new)>(s: seq<T>, e: T, less: (T, T) -> bool): (r: seq<T>)
    ensures |r| == |s| + 1
  {
    if |s| > 0 && less(e, s[|s| - 1]) then InsertStable(s[..|s| - 1], e, less) + [s[|s| - 1]] else s + [e]
  }

  function Stable<T(!new)>(s: seq<T>, less: (T, T) -> bool): (r: seq<T>)
    ensures |r| == |s|
  {
    if |s| == 0 then [] else InsertStable(Stable(s[..|s| - 1], less), s[|s| - 1], less)
  }

  lemma {:induction false} InsertElements<T(!new)>(s: seq<T>, e: T, less: (T, T) -> bool)
    ensures multiset(InsertStable(s, e, less)) == multiset(s) + multiset{e}
  {
    if |s| > 0 && less(e, s[|s| - 1]) {
      InsertElements(s[..|s| - 1], e, less);
      assert s == s[..|s| - 1] + [s[|s| - 1]];
    }
  }

  lemma {:induction false} InsertSorts<T(!new)>(s: seq<T>, e: T, less: (T, T) -> bool)
    requires WeakOrder(less) && SortedBy(s, less)
    ensures SortedBy(InsertStable(s, e, less), less)
  {
    var r := InsertStable(s, e, less);
    var n := |s|;
    if n > 0 && less(e, s[n - 1]) {
      InsertSorts(s[..n - 1], e, less);
      InsertElements(s[..n - 1], e, less);
      var t := InsertStable(s[..n - 1], e, less);
      forall i | 0 <= i < |t| ensures !less(s[n - 1], t[i]) {
        assert t[i] in multiset(t);
        if t[i] != e { assert t[i] in s[..n - 1]; }
      }
    } else {
      forall i | 0 <= i < n ensures !less(e, s[i]) {
        if i < n - 1 { assert Chain(s[i], s[n - 1], e); }
      }
    }
  }

  lemma {:induction false} StableRearranges<T(!new)>(s: seq<T>, less: (T, T) -> bool)
    ensures multiset(Stable(s, less)) == multiset(s)
    decreases |s|
  {
    if |s| > 0 {
      var t, e := s[..|s| - 1], s[|s| - 1];
      StableRearranges(t, less);
      InsertElements(Stable(t, less), e, less);
      assert multiset(t + [e]) == multiset(t) + multiset{e};
      assert s == t + [e];
    }
  }

  lemma {:induction false} StableOrders<T(!new)>(s: seq<T>, less: (T, T) -> bool)
    requires WeakOrder(less)
    ensures SortedBy(Stable(s, less), less)
  {
    if |s| > 0 {
      StableOrders(s[..|s| - 1], less);
      InsertSorts(Stable(s[..|s| - 1], less), s[|s| - 1], less);
    }
  }

  /** A stable sort rearranges and orders. */
  lemma StableSorts<T(!new)>(s: seq<T>, less: (T, T) -> bool)
    requires WeakOrder(less)
    ensures SortedBy(Stable(s, less), less) && multiset(Stable(s, less)) == multiset(s)
  {
    StableRearranges(s, less);
    StableOrders(s, less);
  }

  lemma {:induction false} FilterInsert<T(!new)>(s: seq<T>, e: T, less: (T, T) -> bool, p: T -> bool)
    requires WeakOrder(less) && SortedBy(s, less)
    ensures Filter(InsertStable(s, e, less), p) == if p(e) then InsertStable(Filter(s, p), e, less) else Filter(s, p)
  {
    var n := |s|;
    if n > 0 && less(e, s[n - 1]) {
      FilterInsert(s[..n - 1], e, less, p);
      var t := InsertStable(s[..n - 1], e, less);
      FilterAppend(t, s[n - 1], p);
      if p(s[n - 1]) {
        var u := Filter(s[..n - 1], p);
        assert (u + [s[n - 1]])[..|u|] == u;
      } else {
        assert Filter(s, p) == Filter(s[..n - 1], p);
      }
    } else {
      FilterAppend(s, e, p);
      var f := Filter(s, p);
      if f != [] {
        FilterMember(s, p);
        var last := f[|f| - 1];
        assert last in f;
        assert last in s;
        var i :| 0 <= i < n && s[i] == last;
        if i < n - 1 { assert Chain(s[i], s[n - 1], e); }
      }
    }
  }

  /** Sorting what a filter leaves is filtering what sorting gives. */
  lemma {:induction false} FilterStable<T(!new)>(s: seq<T>, less: (T, T) -> bool, p: T -> bool)
    requires WeakOrder(less)
    ensures Filter(Stable(s, less), p) == Stable(Filter(s, p), less)
  {
    if |s| > 0 {
      var t, e := s[..|s| - 1], s[|s| - 1];
      FilterStable(t, less, p);
      StableSorts(t, less);
      FilterInsert(Stable(t, less), e, less, p);
      if p(e) {
        var u := Filter(t, p);
        assert (u + [e])[..|u|] == u;
      } else {
        assert Filter(s, p) == Filter(t, p);
      }
    }
  }

  /** No two elements are tied. */
  ghost predicate Untied<T(!new)>(s: seq<T>, less: (T, T) -> bool) {
    forall a, b :: a in s && b in s && a != b ==> less(a, b) || less(b, a)
  }

  lemma Cancel<T>(x: multiset<T>, y: multiset<T>, e: T)
    requires x + multiset{e} == y + multiset{e}
    ensures x == y
  {
    assert x == (x + multiset{e}) - multiset{e} && y == (y + multiset{e}) - multiset{e};
  }

  lemma SameLast<T(!new)>(a: seq<T>, b: seq<T>, less: (T, T) -> bool)
    requires SortedBy(a, less) && SortedBy(b, less) && multiset(a) == multiset(b) && Untied(a, less) && a != []
      && b != []
    ensures a[|a| - 1] == b[|b| - 1]
  {
    var x, y := a[|a| - 1], b[|b| - 1];
    assert x in multiset(b) && y in multiset(a);
    var i :| 0 <= i < |b| && b[i] == x;
    var j :| 0 <= j < |a| && a[j] == y;
    assert x != y ==> !less(y, x) && !less(x, y);
  }

  /** Two sorted arrangements of the same untied elements are the same. */
  lemma {:induction false} SortedUnique<T(!new)>(a: seq<T>, b: seq<T>, less: (T, T) -> bool)
    requires SortedBy(a, less) && SortedBy(b, less) && multiset(a) == multiset(b) && Untied(a, less)
    ensures a == b
  {
    assert |a| == |multiset(a)| && |b| == |multiset(b)|;
    if |a| > 0 {
      SameLast(a, b, less);
      var n := |a| - 1;
      assert a == a[..n] + [a[n]] && b == b[..n] + [b[n]];
      assert multiset(a) == multiset(a[..n]) + multiset{a[n]};
      assert multiset(b) == multiset(b[..n]) + multiset{b[n]};
      Cancel(multiset(a[..n]), multiset(b[..n]), a[n]);
      SortedUnique(a[..n], b[..n], less);
    }
  }

  /** Without ties, sorting depends only on the elements. */
  lemma StableIsCanonical<T(!new)>(s: seq<T>, t: seq<T>, less: (T, T) -> bool)
    requires WeakOrder(less) && multiset(s) == multiset(t) && Untied(s, less)
    ensures Stable(s, less) == Stable(t, less)
  {
    StableSorts(s, less);
    StableSorts(t, less);
    var r := Stable(s, less);
    forall x ensures x in r <==> x in s { assert x in r <==> x in multiset(r); assert x in s <==> x in multiset(s); }
    SortedUnique(r, Stable(t, less), less);
  }

  /** Adjacent repetitions removed. */
  function Dedupe<T(==)>(s: seq<T>): (r: seq<T>)
    ensures s != [] ==> r != [] && r[|r| - 1] == s[|s| - 1]
  {
    if |s| == 0 then []
    else
      var r := Dedupe(s[..|s| - 1]);
      if |s| > 1 && s[|s| - 1] == s[|s| - 2] then r else r + [s[|s| - 1]]
  }

  method Deduplicate<T(==)>(s: seq<T>) returns (r: seq<T>)
    ensures r == Dedupe(s)
  {
    r := [];
    for i := 0 to |s|
      invariant r == Dedupe(s[..i])
    {
      assert s[..i + 1][..i] == s[..i];
      if |r| > 0 && s[i] == r[|r| - 1] { continue; }
      r := r + [s[i]];
    }
    assert s[..|s|] == s;
  }

  lemma {:induction false} DedupeMember<T>(s: seq<T>, x: T)
    ensures x in Dedupe(s) <==> x in s
  {
    if |s| > 0 {
      var t := s[..|s| - 1];
      DedupeMember(t, x);
      assert s == t + [s[|s| - 1]];
      if |s| > 1 && s[|s| - 1] == s[|s| - 2] { assert t[|t| - 1] == s[|s| - 1]; }
    }
  }

  /** Mapping rearranged elements gives rearranged images. */
  lemma {:induction false} MappedElements<T, U>(f: T -> U, s: seq<T>, y: U)
    ensures multiset(Mapped(f, s))[y] == |Filter(s, (x: T) => f(x) == y)|
  {
    if |s| > 0 {
      var t, x := s[..|s| - 1], s[|s| - 1];
      MappedElements(f, t, y);
      assert Mapped(f, s) == Mapped(f, t) + [f(x)];
    }
  }

  function Mapped<T, U>(f: T -> U, s: seq<T>): (r: seq<U>)
    ensures |r| == |s| && forall i :: 0 <= i < |s| ==> r[i] == f(s[i])
  {
    seq(|s|, i requires 0 <= i < |s| => f(s[i]))
  }

  lemma {:induction false} CountsByFilter<T>(s: seq<T>, p: T -> bool)
    ensures |Filter(s, p)| == |multiset(Filter(s, p))|
  {
  }

  lemma MappedSame<T(!new), U(!new)>(f: T -> U, s: seq<T>, t: seq<T>)
    requires multiset(s) == multiset(t)
    ensures multiset(Mapped(f, s)) == multiset(Mapped(f, t))
  {
    forall y ensures multiset(Mapped(f, s))[y] == multiset(Mapped(f, t))[y] { MappedCount(f, s, t, y); }
  }

  lemma MappedCount<T(!new), U(!new)>(f: T -> U, s: seq<T>, t: seq<T>, y: U)
    requires multiset(s) == multiset(t)
    ensures multiset(Mapped(f, s))[y] == multiset(Mapped(f, t))[y]
  {
    MappedElements(f, s, y);
    MappedElements(f, t, y);
    var p := (x: T) => f(x) == y;
    FilterMember(s, p);
    FilterMember(t, p);
    assert multiset(Filter(s, p)) == multiset(Filter(t, p));
    CountsByFilter(s, p);
    CountsByFilter(t, p);
  }

  /** Each element precedes the next ones. */
  ghost predicate Increasing<T>(s: seq<T>, less: (T, T) -> bool) {
    forall i, j :: 0 <= i < j < |s| ==> less(s[i], s[j])
  }

  lemma {:induction false} DedupeIncreases<T(!new)>(s: seq<T>, less: (T, T) -> bool)
    requires WeakOrder(less) && SortedBy(s, less) && Untied(s, less)
    ensures Increasing(Dedupe(s), less) && forall x :: x in Dedupe(s) <==> x in s
  {
    if |s| > 0 {
      var t, e := s[..|s| - 1], s[|s| - 1];
      DedupeIncreases(t, less);
      assert s == t + [e];
      var r := Dedupe(t);
      if |s| == 1 || e != s[|s| - 2] {
        forall i | 0 <= i < |r| ensures less(r[i], e) {
          assert r[i] in t;
          LastIsGreatest(s, less, r[i]);
        }
      }
    }
  }

  lemma LastIsGreatest<T(!new)>(s: seq<T>, less: (T, T) -> bool, x: T)
    requires WeakOrder(less) && SortedBy(s, less) && Untied(s, less) && |s| > 1 && s[|s| - 1] != s[|s| - 2]
      && x in s[..|s| - 1]
    ensures less(x, s[|s| - 1])
  {
    var n := |s| - 1;
    var i :| 0 <= i < n && s[i] == x;
    assert s[n] in s && s[n - 1] in s && less(s[n - 1], s[n]);
    assert i < n - 1 ==> !less(s[n - 1], s[i]);
  }

  /** Increasing arrangements of the same elements are the same. */
  lemma IncreasingUnique<T(!new)>(a: seq<T>, b: seq<T>, less: (T, T) -> bool)
    requires WeakOrder(less) && Increasing(a, less) && Increasing(b, less) && forall x :: x in a <==> x in b
    ensures a == b
  {
    forall x ensures multiset(a)[x] == multiset(b)[x] {
      DistinctCount(a, x);
      DistinctCount(b, x);
    }
    forall x, y | x in a && y in a && x != y ensures less(x, y) || less(y, x) {
      var i :| 0 <= i < |a| && a[i] == x;
      var j :| 0 <= j < |a| && a[j] == y;
    }
    SortedUnique(a, b, less);
  }

  /** Sorted and without repetitions. */
  function UniqueSorted<T(!new, ==)>(s: seq<T>, less: (T, T) -> bool): seq<T> { Dedupe(Stable(s, less)) }

  lemma UniqueSortedIncreases<T(!new)>(s: seq<T>, less: (T, T) -> bool)
    requires WeakOrder(less) && Untied(s, less)
    ensures Increasing(UniqueSorted(s, less), less) && forall x :: x in UniqueSorted(s, less) <==> x in s
  {
    StableSorts(s, less);
    var r := Stable(s, less);
    forall x ensures x in r <==> x in s { assert x in r <==> x in multiset(r); assert x in s <==> x in multiset(s); }
    DedupeIncreases(r, less);
  }

  /** It depends only on which elements there are, not on their order or repetition. */
  lemma UniqueSortedIsCanonical<T(!new)>(s: seq<T>, t: seq<T>, less: (T, T) -> bool)
    requires WeakOrder(less) && Untied(s, less) && forall x :: x in s <==> x in t
    ensures UniqueSorted(s, less) == UniqueSorted(t, less)
  {
    UniqueSortedIncreases(s, less);
    UniqueSortedIncreases(t, less);
    IncreasingUnique(UniqueSorted(s, less), UniqueSorted(t, less), less);
  }

  // ---- Sort keys ------------------------------------------------------------------------

  /** strings.Join. */
  function Join(fields: seq<string>, sep: char): string {
    if |fields| == 0 then "" else if |fields| == 1 then fields[0] else fields[0] + [sep] + Join(fields[1..], sep)
  }

  ghost predicate Clean(fields: seq<string>, sep: char) { forall i :: 0 <= i < |fields| ==> sep !in fields[i] }

  lemma SplitUnique(a: string, x: string, b: string, y: string, sep: char)
    requires sep !in a && sep !in b && a + [sep] + x == b + [sep] + y
    ensures a == b && x == y
  {
    var s := a + [sep] + x;
    assert forall i :: 0 <= i < |a| ==> s[i] == a[i];
    assert forall i :: 0 <= i < |b| ==> s[i] == b[i];
    assert s[|a|] == sep && s[|b|] == sep;
    assert |a| == |b|;
    assert a == s[..|a|] && b == s[..|b|] && x == s[|a| + 1..] && y == s[|b| + 1..];
  }

  /** Joined keys of the same number of fields identify the fields. */
  lemma {:induction false} JoinInjective(a: seq<string>, b: seq<string>, sep: char)
    requires |a| == |b| && Clean(a, sep) && Clean(b, sep) && Join(a, sep) == Join(b, sep)
    ensures a == b
  {
    if |a| > 1 {
      SplitUnique(a[0], Join(a[1..], sep), b[0], Join(b[1..], sep), sep);
      JoinInjective(a[1..], b[1..], sep);
      assert a == [a[0]] + a[1..] && b == [b[0]] + b[1..];
    }
  }

  lemma {:induction false} JoinHasSep(a: seq<string>, sep: char)
    requires |a| > 1
    ensures sep in Join(a, sep)
  {
    assert Join(a, sep)[|a[0]|] == sep;
  }

  /** So do joined keys of any number of fields that are not blank. */
  lemma {:induction false} JoinNonblankInjective(a: seq<string>, b: seq<string>, sep: char)
    requires Clean(a, sep) && Clean(b, sep) && Join(a, sep) == Join(b, sep)
    requires forall i :: 0 <= i < |a| ==> a[i] != ""
    requires forall i :: 0 <= i < |b| ==> b[i] != ""
    ensures a == b
  {
    if |a| > 1 { JoinHasSep(a, sep); }
    if |b| > 1 { JoinHasSep(b, sep); }
    if |a| > 1 && |b| > 1 {
      SplitUnique(a[0], Join(a[1..], sep), b[0], Join(b[1..], sep), sep);
      JoinNonblankInjective(a[1..], b[1..], sep);
      assert a == [a[0]] + a[1..] && b == [b[0]] + b[1..];
    } else {
      assert |a| == |b|;
    }
  }

  lemma {:induction false} JoinClean(a: seq<string>, sep: char, other: char)
    requires Clean(a, other) && sep != other
    ensures other !in Join(a, sep)
  {
    if |a| > 1 { JoinClean(a[1..], sep, other); }
  }
}
