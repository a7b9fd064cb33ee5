/** Folding one list of records into another: first each record may take one match, then
    the records left over are placed one by one. What is picked and where a record is
    placed are parameters; that nothing is lost or used twice is proved for all of them. */
module RecordFolding {
  function NoFlags(n: nat): (r: seq<bool>)
    ensures |r| == n && forall i :: 0 <= i < n ==> !r[i]
  {
    seq(n, _ => false)
  }

  /** Chooses an overlay record for the record at an index, given the flags of those
      already taken; negative for none. */
  type Pick<!T> = (seq<T>, int, seq<bool>) -> int

  /** Where a record goes: the index of the record it is merged into, or negative. */
  type Find<!T> = (seq<T>, T) -> int

  type Merge<!T> = (T, T) -> T

  /** A pick is an overlay record that is not taken yet. */
  ghost predicate PicksFree<T(!new)>(pick: Pick<T>, n: nat) {
    forall r, i, taken :: |taken| == n ==> pick(r, i, taken) < n && (pick(r, i, taken) >= 0 ==> !taken[pick(r, i, taken)])
  }

  ghost predicate FindsInside<T(!new)>(find: Find<T>) { forall s, c :: find(s, c) < |s| }

  // ---- the two phases

  /** The list and the flags of taken overlay records after the first n records. */
  ghost function MatchUpTo<T(!new)>(pick: Pick<T>, merge: Merge<T>, base: seq<T>, overlay: seq<T>, n: nat)
    : (r: (seq<T>, seq<bool>))
    requires n <= |base| && PicksFree(pick, |overlay|)
    ensures |r.0| == |base| && |r.1| == |overlay|
  {
    if n == 0 then (base, NoFlags(|overlay|))
    else
      var r := MatchUpTo(pick, merge, base, overlay, n - 1);
      var k := pick(r.0, n - 1, r.1);
      if k < 0 then r else (r.0[n - 1 := merge(r.0[n - 1], overlay[k])], r.1[k := true])
  }

  function PlaceAt<T>(merge: Merge<T>, items: seq<T>, i: int, c: T): seq<T>
    requires i < |items|
  {
    if i >= 0 then items[i := merge(items[i], c)] else items + [c]
  }

  /** Places, in order, those of the first n candidates that are not taken. */
  ghost function PlaceRest<T(!new)>(find: Find<T>, merge: Merge<T>, items: seq<T>, cs: seq<T>, taken: seq<bool>, n: nat): seq<T>
    requires n <= |cs| == |taken| && FindsInside(find)
  {
    if n == 0 then items
    else
      var r := PlaceRest(find, merge, items, cs, taken, n - 1);
      if taken[n - 1] then r else PlaceAt(merge, r, find(r, cs[n - 1]), cs[n - 1])
  }

  // ---- what is pooled

  function Pooled<T>(parts: seq<seq<T>>, n: nat): multiset<T>
    requires n <= |parts|
  {
    if n == 0 then multiset{} else Pooled(parts, n - 1) + multiset(parts[n - 1])
  }

  /** All records in the parts. */
  function Pool<T>(parts: seq<seq<T>>): multiset<T> { Pooled(parts, |parts|) }

  /** Those of the first n records that are not taken. */
  function Free<T>(s: seq<T>, taken: seq<bool>, n: nat): multiset<T>
    requires n <= |taken| == |s|
  {
    if n == 0 then multiset{} else Free(s, taken, n - 1) + if taken[n - 1] then multiset{} else multiset{s[n - 1]}
  }

  lemma Swap<T>(a: multiset<T>, b: multiset<T>, c: multiset<T>)
    ensures a + b + c == a + c + b
  {
  }

  lemma Move<T>(pool: multiset<T>, x: multiset<T>, free: multiset<T>)
    ensures pool + x + free == pool + (free + x)
  {
  }

  lemma {:induction false} PooledSame<T>(parts: seq<seq<T>>, i: nat, part: seq<T>, n: nat)
    requires n <= i < |parts|
    ensures Pooled(parts[i := part], n) == Pooled(parts, n)
  {
    if n > 0 {
      PooledSame(parts, i, part, n - 1);
    }
  }

  lemma {:induction false} PooledGrow<T>(parts: seq<seq<T>>, i: nat, x: T, n: nat)
    requires i < n <= |parts|
    ensures Pooled(parts[i := parts[i] + [x]], n) == Pooled(parts, n) + multiset{x}
  {
    if i == n - 1 {
      PooledSame(parts, i, parts[i] + [x], i);
    } else {
      PooledGrow(parts, i, x, n - 1);
      Swap(Pooled(parts, n - 1), multiset{x}, multiset(parts[n - 1]));
    }
  }

  lemma {:induction false} PooledPrefix<T>(parts: seq<seq<T>>, more: seq<T>, n: nat)
    requires n <= |parts|
    ensures Pooled(parts + [more], n) == Pooled(parts, n)
  {
    if n > 0 {
      PooledPrefix(parts, more, n - 1);
    }
  }

  function NoParts<T>(n: nat): (r: seq<seq<T>>)
    ensures |r| == n && forall i :: 0 <= i < n ==> r[i] == []
  {
    seq(n, _ => [])
  }

  lemma {:induction false} PooledEmpty<T>(parts: seq<seq<T>>, n: nat)
    requires n <= |parts| && forall i :: 0 <= i < |parts| ==> parts[i] == []
    ensures Pooled(parts, n) == multiset{}
  {
    if n > 0 {
      PooledEmpty(parts, n - 1);
    }
  }

  lemma {:induction false} FreeSame<T>(s: seq<T>, taken: seq<bool>, k: nat, n: nat)
    requires n <= k < |taken| == |s|
    ensures Free(s, taken, n) == Free(s, taken[k := true], n)
  {
    if n > 0 {
      FreeSame(s, taken, k, n - 1);
    }
  }

  lemma {:induction false} FreeAfterTaking<T>(s: seq<T>, taken: seq<bool>, k: nat, n: nat)
    requires k < n <= |taken| == |s| && !taken[k]
    ensures Free(s, taken, n) == Free(s, taken[k := true], n) + multiset{s[k]}
  {
    if k == n - 1 {
      FreeSame(s, taken, k, k);
    } else {
      FreeAfterTaking(s, taken, k, n - 1);
      Swap(Free(s, taken[k := true], n - 1), multiset{s[k]}, if taken[n - 1] then multiset{} else multiset{s[n - 1]});
    }
  }

  lemma {:induction false} AllFree<T>(s: seq<T>, taken: seq<bool>, n: nat)
    requires n <= |taken| == |s| && forall i :: 0 <= i < |s| ==> !taken[i]
    ensures Free(s, taken, n) == multiset(s[..n])
  {
    if n > 0 {
      AllFree(s, taken, n - 1);
      assert s[..n] == s[..n - 1] + [s[n - 1]];
    }
  }

  // ---- what is folded

  function Fold<T>(merge: Merge<T>, start: T, cs: seq<T>): T {
    if cs == [] then start else merge(Fold(merge, start, cs[..|cs| - 1]), cs[|cs| - 1])
  }

  /** The record at i is its start, or the first of its part, with the rest merged in. */
  ghost predicate FoldedAt<T>(merge: Merge<T>, base: seq<T>, r: T, part: seq<T>, i: nat) {
    if i < |base| then r == Fold(merge, base[i], part) else part != [] && r == Fold(merge, part[0], part[1..])
  }

  ghost predicate Folded<T>(merge: Merge<T>, base: seq<T>, r: seq<T>, parts: seq<seq<T>>) {
    |base| <= |r| == |parts| && forall i :: 0 <= i < |r| ==> FoldedAt(merge, base, r[i], parts[i], i)
  }

  lemma FoldSnoc<T>(merge: Merge<T>, start: T, cs: seq<T>, c: T)
    ensures Fold(merge, start, cs + [c]) == merge(Fold(merge, start, cs), c)
  {
    assert (cs + [c])[..|cs|] == cs;
  }

  /** Merging one more record into the record at i. */
  lemma FoldedMerge<T>(merge: Merge<T>, base: seq<T>, r: seq<T>, parts: seq<seq<T>>, i: nat, c: T)
    requires Folded(merge, base, r, parts) && i < |r|
    ensures Folded(merge, base, r[i := merge(r[i], c)], parts[i := parts[i] + [c]])
  {
    if i < |base| {
      FoldSnoc(merge, base[i], parts[i], c);
    } else {
      FoldSnoc(merge, parts[i][0], parts[i][1..], c);
      assert (parts[i] + [c])[1..] == parts[i][1..] + [c];
    }
  }

  lemma FoldedAppend<T>(merge: Merge<T>, base: seq<T>, r: seq<T>, parts: seq<seq<T>>, c: T)
    requires Folded(merge, base, r, parts)
    ensures Folded(merge, base, r + [c], parts + [[c]])
  {
    assert [c][1..] == [];
  }

  /** Every overlay record is in a part or still free. */
  ghost predicate Shared<T>(parts: seq<seq<T>>, overlay: seq<T>, taken: seq<bool>) {
    |taken| == |overlay| && Pool(parts) + Free(overlay, taken, |overlay|) == multiset(overlay)
  }

  lemma ShareOne<T>(parts: seq<seq<T>>, overlay: seq<T>, taken: seq<bool>, i: nat, k: nat)
    requires Shared(parts, overlay, taken) && i < |parts| && k < |overlay| && !taken[k]
    ensures Shared(parts[i := parts[i] + [overlay[k]]], overlay, taken[k := true])
  {
    PooledGrow(parts, i, overlay[k], |parts|);
    FreeAfterTaking(overlay, taken, k, |overlay|);
    Move(Pool(parts), multiset{overlay[k]}, Free(overlay, taken[k := true], |overlay|));
  }

  lemma ShareNone<T>(n: nat, overlay: seq<T>)
    ensures Shared(NoParts(n), overlay, NoFlags(|overlay|))
  {
    PooledEmpty(NoParts<T>(n), n);
    AllFree(overlay, NoFlags(|overlay|), |overlay|);
    assert overlay[..|overlay|] == overlay;
  }

  lemma FoldedNone<T>(merge: Merge<T>, base: seq<T>)
    ensures Folded(merge, base, base, NoParts(|base|))
  {
  }

  lemma {:induction false} MatchFolds<T(!new)>(pick: Pick<T>, merge: Merge<T>, base: seq<T>, overlay: seq<T>, n: nat)
    returns (parts: seq<seq<T>>)
    requires n <= |base| && PicksFree(pick, |overlay|)
    ensures Folded(merge, base, MatchUpTo(pick, merge, base, overlay, n).0, parts)
    ensures Shared(parts, overlay, MatchUpTo(pick, merge, base, overlay, n).1)
  {
    if n == 0 {
      parts := NoParts(|base|);
      ShareNone(|base|, overlay);
      FoldedNone(merge, base);
    } else {
      parts := MatchFolds(pick, merge, base, overlay, n - 1);
      var r := MatchUpTo(pick, merge, base, overlay, n - 1);
      var k := pick(r.0, n - 1, r.1);
      if k >= 0 {
        FoldedMerge(merge, base, r.0, parts, n - 1, overlay[k]);
        ShareOne(parts, overlay, r.1, n - 1, k);
        parts := parts[n - 1 := parts[n - 1] + [overlay[k]]];
      }
    }
  }

  lemma FoldedPlace<T>(merge: Merge<T>, base: seq<T>, items: seq<T>, parts: seq<seq<T>>, i: int, c: T)
    returns (grown: seq<seq<T>>)
    requires Folded(merge, base, items, parts) && i < |items|
    ensures Folded(merge, base, PlaceAt(merge, items, i, c), grown)
    ensures Pool(grown) == Pool(parts) + multiset{c}
  {
    if i >= 0 {
      FoldedMerge(merge, base, items, parts, i, c);
      PooledGrow(parts, i, c, |parts|);
      grown := parts[i := parts[i] + [c]];
    } else {
      FoldedAppend(merge, base, items, parts, c);
      PooledPrefix(parts, [c], |parts|);
      grown := parts + [[c]];
    }
  }

  lemma {:induction false} PlaceFolds<T(!new)>(find: Find<T>, merge: Merge<T>, base: seq<T>, items: seq<T>, start: seq<seq<T>>, cs: seq<T>, taken: seq<bool>, n: nat)
    returns (parts: seq<seq<T>>)
    requires Folded(merge, base, items, start) && n <= |cs| == |taken| && FindsInside(find)
    ensures Folded(merge, base, PlaceRest(find, merge, items, cs, taken, n), parts)
    ensures Pool(parts) == Pool(start) + Free(cs, taken, n)
  {
    if n == 0 {
      parts := start;
    } else {
      parts := PlaceFolds(find, merge, base, items, start, cs, taken, n - 1);
      if !taken[n - 1] {
        var r := PlaceRest(find, merge, items, cs, taken, n - 1);
        parts := FoldedPlace(merge, base, r, parts, find(r, cs[n - 1]), cs[n - 1]);
      }
    }
  }

  /** First each record takes its pick, then what is left is placed. */
  ghost function Overlaid<T(!new)>(pick: Pick<T>, find: Find<T>, merge: Merge<T>, base: seq<T>, overlay: seq<T>): seq<T>
    requires PicksFree(pick, |overlay|) && FindsInside(find)
  {
    var r := MatchUpTo(pick, merge, base, overlay, |base|);
    PlaceRest(find, merge, r.0, overlay, r.1, |overlay|)
  }

  /** Each output record is a base record, or an overlay record no base record took, with
      a list of overlay records merged in; over all outputs every overlay record occurs
      exactly once. */
  lemma OverlayFoldsOnce<T(!new)>(pick: Pick<T>, find: Find<T>, merge: Merge<T>, base: seq<T>, overlay: seq<T>)
    returns (parts: seq<seq<T>>)
    requires PicksFree(pick, |overlay|) && FindsInside(find)
    ensures Folded(merge, base, Overlaid(pick, find, merge, base, overlay), parts)
    ensures Pool(parts) == multiset(overlay)
  {
    var start := MatchFolds(pick, merge, base, overlay, |base|);
    var r := MatchUpTo(pick, merge, base, overlay, |base|);
    parts := PlaceFolds(find, merge, base, r.0, start, overlay, r.1, |overlay|);
  }

  // ---- what every step keeps

  ghost predicate PlacingKeeps<T(!new)>(find: Find<T>, merge: Merge<T>, inv: seq<T> -> bool)
    requires FindsInside(find)
  {
    forall s, c :: inv(s) ==> inv(PlaceAt(merge, s, find(s, c), c))
  }

  ghost predicate MergingKeeps<T(!new)>(merge: Merge<T>, inv: seq<T> -> bool) {
    forall s, i: nat, c :: i < |s| && inv(s) ==> inv(PlaceAt(merge, s, i, c))
  }

  lemma {:induction false} RestKeepsInv<T(!new)>(find: Find<T>, merge: Merge<T>, items: seq<T>, cs: seq<T>, taken: seq<bool>, n: nat, inv: seq<T> -> bool)
    requires FindsInside(find) && PlacingKeeps(find, merge, inv) && inv(items) && n <= |cs| == |taken|
    ensures inv(PlaceRest(find, merge, items, cs, taken, n))
  {
    if n > 0 {
      RestKeepsInv(find, merge, items, cs, taken, n - 1, inv);
    }
  }

  lemma {:induction false} MatchKeepsInv<T(!new)>(pick: Pick<T>, merge: Merge<T>, base: seq<T>, overlay: seq<T>, n: nat, inv: seq<T> -> bool)
    requires PicksFree(pick, |overlay|) && MergingKeeps(merge, inv) && inv(base) && n <= |base|
    ensures inv(MatchUpTo(pick, merge, base, overlay, n).0)
  {
    if n > 0 {
      MatchKeepsInv(pick, merge, base, overlay, n - 1, inv);
      var r := MatchUpTo(pick, merge, base, overlay, n - 1);
      var k := pick(r.0, n - 1, r.1);
      if k >= 0 {
        assert PlaceAt(merge, r.0, n - 1, overlay[k]) == r.0[n - 1 := merge(r.0[n - 1], overlay[k])];
      }
    }
  }

  /** Merging an overlay keeps what each merge and each placement keeps. */
  lemma OverlayKeepsInv<T(!new)>(pick: Pick<T>, find: Find<T>, merge: Merge<T>, base: seq<T>, overlay: seq<T>, inv: seq<T> -> bool)
    requires PicksFree(pick, |overlay|) && FindsInside(find)
    requires PlacingKeeps(find, merge, inv) && MergingKeeps(merge, inv) && inv(base)
    ensures inv(Overlaid(pick, find, merge, base, overlay))
  {
    MatchKeepsInv(pick, merge, base, overlay, |base|, inv);
    var r := MatchUpTo(pick, merge, base, overlay, |base|);
    RestKeepsInv(find, merge, r.0, overlay, r.1, |overlay|, inv);
  }

  // ---- one overlay after another

  ghost function Iterate<S, O>(step: (S, O) -> S, start: S, os: seq<O>, n: nat): S
    requires n <= |os|
  {
    if n == 0 then start else step(Iterate(step, start, os, n - 1), os[n - 1])
  }

  lemma {:induction false} IterateKeeps<S(!new), O(!new)>(step: (S, O) -> S, start: S, os: seq<O>, n: nat, inv: S -> bool, good: O -> bool)
    requires forall s, o :: inv(s) && good(o) ==> inv(step(s, o))
    requires inv(start) && n <= |os| && forall i :: 0 <= i < |os| ==> good(os[i])
    ensures inv(Iterate(step, start, os, n))
  {
    if n > 0 {
      IterateKeeps(step, start, os, n - 1, inv, good);
    }
  }
}
