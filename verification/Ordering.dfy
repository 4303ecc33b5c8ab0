/**
 String comparison, and what a caller may rely on after `sort.Slice`.

 `sort.Slice` is not stable, so nothing here says where elements end up that the
 comparator does not separate: a caller that wants a determined order has to show that
 its comparator separates the elements (`Separated`), and then `SortUnique` applies.
 */
module Ordering {

  /** The source's `<` on strings. */
  predicate StringLess(a: string, b: string) {
    |b| > 0 && (|a| == 0 || a[0] < b[0] || (a[0] == b[0] && StringLess(a[1..], b[1..])))
  }

  /** What sort.Slice demands of its comparator. */
  ghost predicate StrictWeak<T(!new)>(less: (T, T) -> bool) {
    && (forall a, b :: less(a, b) ==> !less(b, a))
    && (forall a, b, c :: less(a, c) ==> less(a, b) || less(b, c))
  }

  ghost predicate Sorted<T(!new)>(less: (T, T) -> bool, s: seq<T>) {
    forall i, j :: 0 <= i < j < |s| ==> !less(s[j], s[i])
  }

  /** No two elements of `s` are ties under `less`. */
  ghost predicate Separated<T(!new)>(less: (T, T) -> bool, s: seq<T>) {
    forall i, j :: 0 <= i < j < |s| ==> less(s[i], s[j]) || less(s[j], s[i])
  }

  ghost predicate Permutation<T(!new)>(s: seq<T>, t: seq<T>) {
    multiset(s) == multiset(t)
  }

  lemma {:induction false} StringLessAsymmetric(a: string, b: string)
    requires StringLess(a, b)
    ensures !StringLess(b, a)
    decreases |a|
  {
    if |a| > 0 && a[0] == b[0] {
      StringLessAsymmetric(a[1..], b[1..]);
    }
  }

  lemma {:induction false} StringLessSplits(a: string, b: string, c: string)
    requires StringLess(a, c)
    ensures StringLess(a, b) || StringLess(b, c)
    decreases |a|
  {
    if |a| > 0 && |b| > 0 && a[0] == c[0] == b[0] {
      StringLessSplits(a[1..], b[1..], c[1..]);
    }
  }

  lemma {:induction false} StringLessTotal(a: string, b: string)
    requires a != b
    ensures StringLess(a, b) || StringLess(b, a)
    decreases |a|
  {
    if |a| > 0 && |b| > 0 && a[0] == b[0] {
      assert a == [a[0]] + a[1..] && b == [b[0]] + b[1..];
      StringLessTotal(a[1..], b[1..]);
    }
  }

  /** Strings are totally ordered: the last tie-break of every comparator decides. */
  lemma StringOrder()
    ensures forall a, b :: StringLess(a, b) ==> !StringLess(b, a)
    ensures forall a, b, c :: StringLess(a, c) ==> StringLess(a, b) || StringLess(b, c)
    ensures forall a, b :: a != b ==> StringLess(a, b) || StringLess(b, a)
  {
    forall a, b | StringLess(a, b) ensures !StringLess(b, a) { StringLessAsymmetric(a, b); }
    forall a, b, c | StringLess(a, c) ensures StringLess(a, b) || StringLess(b, c) { StringLessSplits(a, b, c); }
    forall a, b: string | a != b ensures StringLess(a, b) || StringLess(b, a) { StringLessTotal(a, b); }
  }

  /** Dictionary order of lists of words. */
  predicate WordsLess(a: seq<string>, b: seq<string>) {
    |b| > 0 && (|a| == 0 || StringLess(a[0], b[0]) || (a[0] == b[0] && WordsLess(a[1..], b[1..])))
  }

  lemma WordsOfTwo(a: string, b: string, c: string, d: string)
    ensures WordsLess([a, b], [c, d]) <==> StringLess(a, c) || (a == c && StringLess(b, d))
  {
    hide StringLess;
    var x, y: seq<string> := [a, b], [c, d];
    assert x[1..] == [b] && y[1..] == [d];
    var v, w: seq<string> := [b], [d];
    assert v[1..] == [] && w[1..] == [];
    assert WordsLess(v, w) <==> StringLess(b, d);
  }

  lemma WordsOfThree(a: seq<string>, b: seq<string>)
    requires |a| == |b| == 3
    ensures WordsLess(a, b) <==>
              || StringLess(a[0], b[0])
              || (a[0] == b[0] && (StringLess(a[1], b[1]) || (a[1] == b[1] && StringLess(a[2], b[2]))))
  {
    hide StringLess;
    var x, y := a[1..], b[1..];
    assert x[0] == a[1] && y[0] == b[1];
    var v, w := x[1..], y[1..];
    assert v[0] == a[2] && w[0] == b[2];
    assert v[1..] == [] && w[1..] == [];
    assert WordsLess(v, w) <==> StringLess(a[2], b[2]);
  }

  lemma InsertKeepsSorted<T(!new)>(less: (T, T) -> bool, r: seq<T>, i: nat, x: T)
    requires StrictWeak(less)
    requires Sorted(less, r)
    requires i <= |r|
    requires i > 0 ==> !less(x, r[i - 1])
    requires forall j :: i <= j < |r| ==> less(x, r[j])
    ensures Sorted(less, r[..i] + [x] + r[i..])
  {
    var t := r[..i] + [x] + r[i..];
    forall j, k | 0 <= j < k < |t| ensures !less(t[k], t[j]) {
      if k == i {
        assert t[j] == r[j] && t[k] == x;
        var last, here := r[i - 1], r[j];
        assert less(x, here) ==> less(x, last) || less(last, here);
      } else if j == i {
        assert t[k] == r[k - 1];
      } else {
        assert t[j] == r[if j < i then j else j - 1] && t[k] == r[if k < i then k else k - 1];
      }
    }
  }

  lemma InsertPermutes<T(!new)>(r: seq<T>, i: nat, s: seq<T>, n: nat)
    requires i <= |r| && n < |s|
    requires Permutation(r, s[..n])
    ensures Permutation(r[..i] + [s[n]] + r[i..], s[..n + 1])
  {
    assert r == r[..i] + r[i..];
    assert s[..n + 1] == s[..n] + [s[n]];
  }

  /** sort.Slice: a permutation of the input with no pair out of order, and no more than that. */
  method SortSlice<T(!new)>(s: seq<T>, less: (T, T) -> bool) returns (r: seq<T>)
    requires StrictWeak(less)
    ensures Permutation(r, s)
    ensures Sorted(less, r)
  {
    hide Permutation, Sorted, StrictWeak;
    r := [];
    assert Permutation(r, s[..0]) && Sorted(less, r) by { Empty(less, s); }
    for n := 0 to |s|
      invariant Permutation(r, s[..n])
      invariant Sorted(less, r)
    {
      var i := |r|;
      while i > 0 && less(s[n], r[i - 1])
        invariant 0 <= i <= |r|
        invariant forall j :: i <= j < |r| ==> less(s[n], r[j])
      {
        i := i - 1;
      }
      InsertKeepsSorted(less, r, i, s[n]);
      InsertPermutes(r, i, s, n);
      r := r[..i] + [s[n]] + r[i..];
    }
    assert s[..|s|] == s;
  }

  lemma Empty<T(!new)>(less: (T, T) -> bool, s: seq<T>)
    ensures Permutation([], s[..0])
    ensures Sorted(less, [])
  {
  }

  /** The first element of a sorted, separated list is determined by what the list holds. */
  lemma SortedFirst<T(!new)>(less: (T, T) -> bool, a: seq<T>, b: seq<T>)
    requires |a| > 0 && |b| > 0
    requires Permutation(a, b)
    requires Sorted(less, a) && Sorted(less, b)
    requires Separated(less, a)
    ensures a[0] == b[0]
  {
    assert a[0] in multiset(b);
    var k :| 0 <= k < |b| && b[k] == a[0];
    assert b[0] in multiset(a);
    var j :| 0 <= j < |a| && a[j] == b[0];
    assert k > 0 ==> !less(a[0], a[j]);
  }

  lemma PermutationTails<T(!new)>(a: seq<T>, b: seq<T>)
    requires a != [] && b != [] && a[0] == b[0] && Permutation(a, b)
    ensures Permutation(a[1..], b[1..])
  {
    assert a == [a[0]] + a[1..] && b == [b[0]] + b[1..];
    assert multiset(a[1..]) == multiset(a) - multiset{a[0]};
    assert multiset(b[1..]) == multiset(b) - multiset{b[0]};
  }

  /** Two sorted arrangements of the same separated elements are the same list. */
  lemma {:induction false} SortUnique<T(!new)>(less: (T, T) -> bool, a: seq<T>, b: seq<T>)
    requires Permutation(a, b)
    requires Sorted(less, a) && Sorted(less, b)
    requires Separated(less, a)
    ensures a == b
    decreases |a|
  {
    PermutationLength(a, b);
    if |a| > 0 {
      SortedFirst(less, a, b);
      PermutationTails(a, b);
      hide Permutation;
      SortUnique(less, a[1..], b[1..]);
      assert a == [a[0]] + a[1..] && b == [b[0]] + b[1..];
    }
  }

  lemma PermutationLength<T(!new)>(a: seq<T>, b: seq<T>)
    requires Permutation(a, b)
    ensures |a| == |b|
  {
    assert |multiset(a)| == |a| && |multiset(b)| == |b|;
  }

  lemma PermutationWithout<T(!new)>(front: seq<T>, last: T, r: seq<T>, i: nat)
    requires i < |r| && r[i] == last
    requires Permutation(front + [last], r)
    ensures Permutation(front, r[..i] + r[i + 1..])
  {
    assert r == r[..i] + [last] + r[i + 1..];
    var rest := r[..i] + r[i + 1..];
    assert multiset(rest) == multiset(r) - multiset{last};
    assert multiset(front) == multiset(front + [last]) - multiset{last};
  }

  /** The last element of one arrangement, found in the other. */
  lemma TakeOutLast<T(!new)>(s: seq<T>, r: seq<T>) returns (i: nat)
    requires s != [] && Permutation(s, r)
    ensures i < |r| && r[i] == s[|s| - 1]
    ensures Permutation(s[..|s| - 1], r[..i] + r[i + 1..])
  {
    var last := s[|s| - 1];
    assert last in multiset(r);
    i :| 0 <= i < |r| && r[i] == last;
    hide Permutation;
    assert s == s[..|s| - 1] + [last];
    PermutationWithout(s[..|s| - 1], last, r, i);
  }

  /** Separation does not depend on the arrangement. */
  lemma SeparatedPermutes<T(!new)>(less: (T, T) -> bool, a: seq<T>, b: seq<T>)
    requires Permutation(a, b)
    requires Separated(less, a)
    ensures Separated(less, b)
  {
    forall i, j | 0 <= i < j < |b| ensures less(b[i], b[j]) || less(b[j], b[i]) {
      SeparatedPair(less, a, b, i, j);
    }
  }

  lemma SeparatedPair<T(!new)>(less: (T, T) -> bool, a: seq<T>, b: seq<T>, i: nat, j: nat)
    requires Permutation(a, b) && Separated(less, a) && i < j < |b|
    ensures less(b[i], b[j]) || less(b[j], b[i])
  {
    var x, y := b[i], b[j];
    if x == y {
      CountsTwice(b, i, j);
      TwoPlaces(a, x);
    } else {
      assert x in multiset(b) && y in multiset(b);
      assert x in a && y in a;
      var k :| 0 <= k < |a| && a[k] == x;
      var l :| 0 <= l < |a| && a[l] == y;
    }
  }

  lemma CountsTwice<T(!new)>(b: seq<T>, i: nat, j: nat)
    requires i < j < |b| && b[i] == b[j]
    ensures multiset(b)[b[i]] >= 2
  {
    assert b == b[..j] + [b[j]] + b[j + 1..];
    assert b[i] in b[..j];
  }

  lemma TwoPlaces<T(!new)>(a: seq<T>, x: T)
    requires multiset(a)[x] >= 2
    ensures exists i, j :: 0 <= i < j < |a| && a[i] == x && a[j] == x
  {
    assert x in multiset(a);
    var i :| 0 <= i < |a| && a[i] == x;
    assert a == a[..i] + [a[i]] + a[i + 1..];
    assert multiset(a) == multiset(a[..i] + a[i + 1..]) + multiset{x};
    assert x in multiset(a[..i] + a[i + 1..]);
    assert x in a[..i] + a[i + 1..];
    if x in a[..i] {
      var j :| 0 <= j < i && a[j] == x;
    } else {
      var j :| i + 1 <= j < |a| && a[j] == x;
    }
  }
}
