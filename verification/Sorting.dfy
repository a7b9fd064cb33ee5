/** Go's `sort.SliceStable`: insertion from the right, which is the library's own
    algorithm on at most twenty elements and gives its unique answer on longer
    slices whenever the comparison is a strict weak order. */
module Sorting {
  ghost predicate Asymmetric<T(!new)>(less: (T, T) -> bool) {
    forall a, b :: less(a, b) ==> !less(b, a)
  }

  ghost predicate StrictWeakOrder<T(!new)>(less: (T, T) -> bool) {
    && Asymmetric(less)
    && forall a, b, c {:trigger less(a, b), less(b, c)} :: less(a, c) ==> less(a, b) || less(b, c)
  }

  /** No later element is smaller than an earlier one. */
  ghost predicate Sorted<T(!new)>(s: seq<T>, less: (T, T) -> bool) {
    forall i, j :: 0 <= i < j < |s| ==> !less(s[j], s[i])
  }

  function Insert<T>(s: seq<T>, x: T, less: (T, T) -> bool): (r: seq<T>)
    ensures |r| == |s| + 1
  {
    if s == [] || !less(x, s[|s| - 1]) then s + [x]
    else Insert(s[..|s| - 1], x, less) + [s[|s| - 1]]
  }

  function StableSort<T>(s: seq<T>, less: (T, T) -> bool): (r: seq<T>)
    ensures |r| == |s|
  {
    if s == [] then [] else Insert(StableSort(s[..|s| - 1], less), s[|s| - 1], less)
  }

  /** Insertion splits the old sequence around the new element: everything after
      it is larger, and its left neighbour is not. */
  lemma {:induction false} InsertSplits<T>(s: seq<T>, x: T, less: (T, T) -> bool) returns (k: nat)
    ensures k <= |s|
    ensures Insert(s, x, less) == s[..k] + [x] + s[k..]
    ensures k > 0 ==> !less(x, s[k - 1])
    ensures forall j :: k <= j < |s| ==> less(x, s[j])
  {
    if s == [] || !less(x, s[|s| - 1]) {
      k := |s|;
    } else {
      var t := s[..|s| - 1];
      k := InsertSplits(t, x, less);
      assert t[..k] == s[..k] && s[k..] == t[k..] + [s[|s| - 1]];
    }
  }

  lemma {:induction false} InsertPermutes<T>(s: seq<T>, x: T, less: (T, T) -> bool)
    ensures multiset(Insert(s, x, less)) == multiset(s) + multiset{x}
  {
    if s != [] && less(x, s[|s| - 1]) {
      InsertPermutes(s[..|s| - 1], x, less);
      assert s == s[..|s| - 1] + [s[|s| - 1]];
    }
  }

  lemma {:induction false} StableSortPermutes<T>(s: seq<T>, less: (T, T) -> bool)
    ensures multiset(StableSort(s, less)) == multiset(s)
  {
    if s != [] {
      var t := s[..|s| - 1];
      StableSortPermutes(t, less);
      InsertPermutes(StableSort(t, less), s[|s| - 1], less);
      LastJoins(s);
    }
  }

  lemma LastJoins<T>(s: seq<T>)
    requires s != []
    ensures multiset(s) == multiset(s[..|s| - 1]) + multiset{s[|s| - 1]}
  {
    assert s == s[..|s| - 1] + [s[|s| - 1]];
  }

  /** Membership form of `StableSortPermutes`. */
  lemma StableSortMembers<T>(s: seq<T>, less: (T, T) -> bool)
    ensures forall x :: x in StableSort(s, less) <==> x in s
  {
    StableSortPermutes(s, less);
    forall x ensures x in StableSort(s, less) <==> x in s {
      assert x in StableSort(s, less) <==> x in multiset(StableSort(s, less));
      assert x in s <==> x in multiset(s);
    }
  }

  lemma InsertSorts<T(!new)>(t: seq<T>, x: T, less: (T, T) -> bool)
    requires StrictWeakOrder(less) && Sorted(t, less)
    ensures Sorted(Insert(t, x, less), less)
  {
    var k := InsertSplits(t, x, less);
    var r := Insert(t, x, less);
    forall i, j | 0 <= i < j < |r| ensures !less(r[j], r[i]) {
      if j == k {
        assert r[i] == t[i];
        assert i < k - 1 ==> !less(t[k - 1], t[i]);
      } else if i == k {
        assert r[j] == t[j - 1];
      } else {
        assert r[i] == t[if i < k then i else i - 1] && r[j] == t[if j < k then j else j - 1];
      }
    }
  }

  lemma {:induction false} StableSortSorts<T(!new)>(s: seq<T>, less: (T, T) -> bool)
    requires StrictWeakOrder(less)
    ensures Sorted(StableSort(s, less), less)
  {
    if s != [] {
      StableSortSorts(s[..|s| - 1], less);
      InsertSorts(StableSort(s[..|s| - 1], less), s[|s| - 1], less);
    }
  }

  /** Nothing after a cut in a sorted sequence is smaller than anything before it. */
  lemma CutSorted<T(!new)>(s: seq<T>, less: (T, T) -> bool, n: nat, k: T, d: T)
    requires Sorted(s, less) && n <= |s| && k in s[..n] && d in s[n..]
    ensures !less(d, k)
  {
    var i :| 0 <= i < n && s[..n][i] == k;
    var j :| 0 <= j < |s| - n && s[n..][j] == d;
    assert s[i] == k && s[n + j] == d;
  }

  ghost predicate Increasing(s: seq<int>) {
    forall i, j :: 0 <= i < j < |s| ==> s[i] < s[j]
  }

  /** The total order a stable sort of increasing indices realises. */
  predicate Precedes(less: (int, int) -> bool, a: int, b: int) {
    less(a, b) || (!less(b, a) && a < b)
  }

  ghost predicate PrecedesSorted(s: seq<int>, less: (int, int) -> bool) {
    forall i, j :: 0 <= i < j < |s| ==> Precedes(less, s[i], s[j])
  }

  lemma InsertIndex(t: seq<int>, x: int, less: (int, int) -> bool)
    requires StrictWeakOrder(less) && PrecedesSorted(t, less) && forall i :: 0 <= i < |t| ==> t[i] < x
    ensures PrecedesSorted(Insert(t, x, less), less)
  {
    var k := InsertSplits(t, x, less);
    var r := Insert(t, x, less);
    forall i, j | 0 <= i < j < |r| ensures Precedes(less, r[i], r[j]) {
      if j == k {
        assert r[i] == t[i];
        assert i < k - 1 ==> Precedes(less, t[i], t[k - 1]);
        assert !less(x, t[i]);
      } else if i == k {
        assert r[j] == t[j - 1];
      } else {
        assert r[i] == t[if i < k then i else i - 1] && r[j] == t[if j < k then j else j - 1];
      }
    }
  }

  /** A stable sort of increasing indices is strictly sorted by `Precedes`. */
  lemma {:induction false} StableSortIndices(s: seq<int>, less: (int, int) -> bool)
    requires StrictWeakOrder(less) && Increasing(s)
    ensures PrecedesSorted(StableSort(s, less), less)
  {
    if s != [] {
      var p := s[..|s| - 1];
      StableSortIndices(p, less);
      StableSortMembers(p, less);
      var t := StableSort(p, less);
      forall i | 0 <= i < |t| ensures t[i] < s[|s| - 1] {
        assert t[i] in p;
      }
      InsertIndex(t, s[|s| - 1], less);
    }
  }

  /** Whatever an asymmetric comparison says of other pairs, no element of the result
      is smaller than its left neighbour. */
  lemma {:induction false} StableSortAdjacent<T(!new)>(s: seq<T>, less: (T, T) -> bool)
    requires Asymmetric(less)
    ensures forall i :: 0 < i < |s| ==> !less(StableSort(s, less)[i], StableSort(s, less)[i - 1])
  {
    if s != [] {
      var t := StableSort(s[..|s| - 1], less);
      StableSortAdjacent(s[..|s| - 1], less);
      var x := s[|s| - 1];
      var k := InsertSplits(t, x, less);
      var r := t[..k] + [x] + t[k..];
      forall i | 0 < i < |r| ensures !less(r[i], r[i - 1]) {
        if i < k {
          assert r[i] == t[i] && r[i - 1] == t[i - 1];
        } else if i > k + 1 {
          assert r[i] == t[i - 1] && r[i - 1] == t[i - 2];
        }
      }
    }
  }

  /** a stands before b in s. */
  ghost predicate Before<T(!new)>(s: seq<T>, a: T, b: T) {
    exists i, j :: 0 <= i < j < |s| && s[i] == a && s[j] == b
  }

  lemma InsertKeepsBefore<T(!new)>(t: seq<T>, x: T, less: (T, T) -> bool, a: T, b: T)
    requires Before(t, a, b)
    ensures Before(Insert(t, x, less), a, b)
  {
    var k := InsertSplits(t, x, less);
    var i, j :| 0 <= i < j < |t| && t[i] == a && t[j] == b;
    var r := Insert(t, x, less);
    assert r[if i < k then i else i + 1] == a && r[if j < k then j else j + 1] == b;
  }

  /** Sorting more elements in never swaps two that are already placed. */
  lemma {:induction false} StableSortExtends<T(!new)>(s: seq<T>, rest: seq<T>, less: (T, T) -> bool, a: T, b: T)
    requires Before(StableSort(s, less), a, b)
    ensures Before(StableSort(s + rest, less), a, b)
  {
    if rest == [] {
      assert s + rest == s;
    } else {
      var head, x := rest[..|rest| - 1], rest[|rest| - 1];
      StableSortExtends(s, head, less, a, b);
      assert (s + rest)[..|s + rest| - 1] == s + head;
      InsertKeepsBefore(StableSort(s + head, less), x, less, a, b);
    }
  }
}
