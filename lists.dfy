/** Sequence operations the library calls of both runtimes provide: a
    filter that keeps the order (Stream.filter, Array.prototype.filter) and a
    sort by a "comes before" relation (Stream.sorted with a Comparator,
    Array.prototype.sort). The sort is written as an insertion sort on
    values; nothing is sorted in place, and the order it leaves among
    elements that neither comes before the other is not the library's. */
module Lists {

  /** The elements satisfying `p`, in their order. */
  function Keep<T>(xs: seq<T>, p: T -> bool): (r: seq<T>)
    ensures |r| <= |xs|
    ensures forall i :: 0 <= i < |r| ==> p(r[i])
    ensures forall i :: 0 <= i < |xs| && p(xs[i]) ==> xs[i] in r
    ensures forall i :: 0 <= i < |r| ==> r[i] in xs
    ensures multiset(r) <= multiset(xs)
  {
    if |xs| == 0 then []
    else
      assert xs == [xs[0]] + xs[1..];
      (if p(xs[0]) then [xs[0]] else []) + Keep(xs[1..], p)
  }

  /** Keeping everything changes nothing. */
  lemma {:induction false} KeepAll<T>(xs: seq<T>, p: T -> bool)
    requires forall i :: 0 <= i < |xs| ==> p(xs[i])
    ensures Keep(xs, p) == xs
  {
    if |xs| > 0 {
      KeepAll(xs[1..], p);
    }
  }

  /** Filtering keeps every element satisfying `p` as often as it occurs,
      and no other. */
  lemma {:induction false} KeepMultiset<T>(xs: seq<T>, p: T -> bool)
    ensures forall x :: multiset(Keep(xs, p))[x] == if p(x) then multiset(xs)[x] else 0
  {
    if |xs| > 0 {
      KeepMultiset(xs[1..], p);
      assert xs == [xs[0]] + xs[1..];
    }
  }

  /** Filtering out at least one element shortens the sequence. */
  lemma {:induction false} KeepDropsSome<T>(xs: seq<T>, p: T -> bool)
    requires exists k :: 0 <= k < |xs| && !p(xs[k])
    ensures |Keep(xs, p)| < |xs|
  {
    if p(xs[0]) {
      var k :| 0 <= k < |xs| && !p(xs[k]);
      assert xs[1..][k - 1] == xs[k];
      KeepDropsSome(xs[1..], p);
    }
  }

  /** Filtering a concatenation filters each part. */
  lemma {:induction false} KeepConcat<T>(a: seq<T>, b: seq<T>, p: T -> bool)
    ensures Keep(a + b, p) == Keep(a, p) + Keep(b, p)
  {
    if |a| == 0 {
      assert a + b == b;
    } else {
      assert (a + b)[0] == a[0];
      assert (a + b)[1..] == a[1..] + b;
      KeepConcat(a[1..], b, p);
    }
  }

  /** `before` is a strict order: irreflexive and transitive (and so
      asymmetric). */
  ghost predicate StrictOrder<T(!new)>(before: (T, T) -> bool) {
    (forall a :: !before(a, a))
    && (forall a, b, c :: before(a, b) && before(b, c) ==> before(a, c))
  }

  /** No element comes before one that precedes it. */
  ghost predicate SortedBy<T>(s: seq<T>, before: (T, T) -> bool) {
    forall i, j :: 0 <= i < j < |s| ==> !before(s[j], s[i])
  }

  /** Places x in front of the first element it comes before. */
  function Insert<T>(x: T, s: seq<T>, before: (T, T) -> bool): (r: seq<T>)
    ensures multiset(r) == multiset(s) + multiset{x}
    ensures |r| == |s| + 1
  {
    if |s| == 0 || before(x, s[0]) then [x] + s
    else
      assert s == [s[0]] + s[1..];
      [s[0]] + Insert(x, s[1..], before)
  }

  /** The sorted arrangement of `s`: a permutation of it. */
  function SortBy<T>(s: seq<T>, before: (T, T) -> bool): (r: seq<T>)
    ensures multiset(r) == multiset(s)
    ensures |r| == |s|
  {
    if |s| == 0 then []
    else
      assert s == [s[0]] + s[1..];
      Insert(s[0], SortBy(s[1..], before), before)
  }

  /** An element that nothing in a sorted sequence comes before can head
      it. */
  lemma ConsSorted<T>(h: T, t: seq<T>, before: (T, T) -> bool)
    requires SortedBy(t, before)
    requires forall j :: 0 <= j < |t| ==> !before(t[j], h)
    ensures SortedBy([h] + t, before)
  {
    var r := [h] + t;
    forall i, j | 0 <= i < j < |r| ensures !before(r[j], r[i]) {
      if i == 0 {
        assert r[j] == t[j - 1];
      } else {
        assert r[i] == t[i - 1] && r[j] == t[j - 1];
      }
    }
  }

  lemma {:induction false} InsertSorted<T(!new)>(x: T, s: seq<T>, before: (T, T) -> bool)
    requires StrictOrder(before) && SortedBy(s, before)
    ensures SortedBy(Insert(x, s, before), before)
  {
    if |s| == 0 || before(x, s[0]) {
      forall j | 0 <= j < |s| ensures !before(s[j], x) {
        if j > 0 {
          assert !before(s[j], s[0]);
        }
      }
      ConsSorted(x, s, before);
    } else {
      InsertSorted(x, s[1..], before);
      var t := Insert(x, s[1..], before);
      assert multiset(t) == multiset(s[1..]) + multiset{x};
      forall j | 0 <= j < |t| ensures !before(t[j], s[0]) {
        assert t[j] in multiset(t);
        if t[j] != x {
          assert t[j] in multiset(s[1..]);
          var k :| 0 <= k < |s[1..]| && s[1..][k] == t[j];
          assert s[k + 1] == t[j];
        }
      }
      ConsSorted(s[0], t, before);
    }
  }

  /** SortBy orders its result whenever `before` is a strict order. */
  lemma {:induction false} SortBySorted<T(!new)>(s: seq<T>, before: (T, T) -> bool)
    requires StrictOrder(before)
    ensures SortedBy(SortBy(s, before), before)
  {
    if |s| > 0 {
      SortBySorted(s[1..], before);
      InsertSorted(s[0], SortBy(s[1..], before), before);
    }
  }

  /** Filtering and then sorting keeps exactly the elements satisfying `p`,
      each as often as it occurs in `xs`, in order. */
  lemma SortKeep<T(!new)>(xs: seq<T>, p: T -> bool, before: (T, T) -> bool)
    requires StrictOrder(before)
    ensures SortedBy(SortBy(Keep(xs, p), before), before)
    ensures forall x :: x in SortBy(Keep(xs, p), before) <==> x in xs && p(x)
    ensures multiset(SortBy(Keep(xs, p), before)) == multiset(Keep(xs, p))
    ensures forall x :: multiset(SortBy(Keep(xs, p), before))[x] == if p(x) then multiset(xs)[x] else 0
  {
    var kept := Keep(xs, p);
    var r := SortBy(kept, before);
    SortBySorted(kept, before);
    KeepMultiset(xs, p);
    forall x ensures x in r <==> x in xs && p(x) {
      assert x in r <==> x in multiset(kept);
      if x in r {
        assert x in multiset(xs);
        var i :| 0 <= i < |kept| && kept[i] == x;
      }
      if x in xs && p(x) {
        var i :| 0 <= i < |xs| && xs[i] == x;
      }
    }
  }
}
