/** When the spool is in time order. The store compares two samples by parsed time
    if both times parse and by text otherwise; that comparison is not transitive, so
    an unparseable time can hold two parseable ones in the wrong order. */
module SpoolOrder {
  import opened Text
  import opened Sorting
  import opened PendingSpool

  predicate Parses(q: Policy, s: Sample) { q.parse(s.sampledAt).Some? }

  function TimeOf(q: Policy, s: Sample): int
    requires Parses(q, s)
  {
    q.parse(s.sampledAt).value
  }

  /** Samples whose times parse ascend. */
  ghost predicate Ascends(q: Policy, entries: seq<Sample>) {
    forall i, j :: 0 <= i < j < |entries| && Parses(q, entries[i]) && Parses(q, entries[j]) ==>
      TimeOf(q, entries[i]) <= TimeOf(q, entries[j])
  }

  /** u does not parse and its text lies between that of the later sample b and that
      of the earlier sample a, the wrong way round. */
  predicate Straddles(q: Policy, a: Sample, u: Sample, b: Sample) {
    && Parses(q, a) && Parses(q, b) && !Parses(q, u)
    && TimeOf(q, a) < TimeOf(q, b)
    && !StrLess(u.sampledAt, b.sampledAt) && !StrLess(a.sampledAt, u.sampledAt)
  }

  ghost predicate NoStraddle(q: Policy, entries: seq<Sample>) {
    forall a, u, b :: a in entries && u in entries && b in entries ==> !Straddles(q, a, u, b)
  }

  lemma EarlierAsymmetric(q: Policy)
    ensures Asymmetric(Earlier(q))
  {
    forall a, b ensures Earlier(q)(a, b) ==> !Earlier(q)(b, a) {
      StrLessTotal(a.sampledAt, b.sampledAt);
    }
  }

  /** Text order along a stretch of unparseable times. */
  lemma {:induction false} TextClimbs(q: Policy, r: seq<Sample>, i: nat, k: nat)
    requires forall n :: 0 < n < |r| ==> !Earlier(q)(r[n], r[n - 1])
    requires i < k < |r| && forall n :: i < n <= k ==> !Parses(q, r[n])
    ensures !StrLess(r[k].sampledAt, r[i].sampledAt)
    decreases k - i
  {
    assert !Earlier(q)(r[k], r[k - 1]);
    if i < k - 1 {
      TextClimbs(q, r, i, k - 1);
      if StrLess(r[k].sampledAt, r[i].sampledAt) {
        StrLessSplits(r[k].sampledAt, r[k - 1].sampledAt, r[i].sampledAt);
      }
    }
  }

  /** The last parseable entry before j. */
  function LastParse(q: Policy, r: seq<Sample>, i: nat, j: nat): (k: nat)
    requires i < j <= |r| && Parses(q, r[i])
    ensures i <= k < j && Parses(q, r[k]) && forall n :: k < n < j ==> !Parses(q, r[n])
    decreases j
  {
    if Parses(q, r[j - 1]) then j - 1 else LastParse(q, r, i, j - 1)
  }

  lemma {:induction false} ClimbsInTime(q: Policy, r: seq<Sample>, i: nat, j: nat)
    requires forall n :: 0 < n < |r| ==> !Earlier(q)(r[n], r[n - 1])
    requires NoStraddle(q, r) && i < j < |r| && Parses(q, r[i]) && Parses(q, r[j])
    ensures TimeOf(q, r[i]) <= TimeOf(q, r[j])
    decreases j - i
  {
    var k := LastParse(q, r, i, j);
    assert !Earlier(q)(r[j], r[j - 1]);
    if k < j - 1 {
      TextClimbs(q, r, k, j - 1);
      assert !Straddles(q, r[j], r[j - 1], r[k]);
    }
    if i < k {
      ClimbsInTime(q, r, i, k);
    }
  }

  /** Without a straddling triple the sorted spool ascends. */
  lemma SortAscends(q: Policy, entries: seq<Sample>)
    requires NoStraddle(q, entries)
    ensures Ascends(q, Sort(q, entries))
  {
    var r := Sort(q, entries);
    EarlierAsymmetric(q);
    StableSortAdjacent(entries, Earlier(q));
    SortSameMembers(q, entries);
    forall i, j | 0 <= i < j < |r| && Parses(q, r[i]) && Parses(q, r[j])
      ensures TimeOf(q, r[i]) <= TimeOf(q, r[j])
    {
      ClimbsInTime(q, r, i, j);
    }
  }

  /** A straddling triple that is spooled in the order b, u, a is never untangled. */
  lemma StraddleSticks(q: Policy, a: Sample, u: Sample, b: Sample, rest: seq<Sample>)
    requires Straddles(q, a, u, b)
    ensures !Ascends(q, Sort(q, [b, u, a] + rest))
  {
    var less := Earlier(q);
    assert [b, u, a][..2] == [b, u] && [b, u][..1] == [b] && [b][..0] == [];
    assert StableSort([b], less) == [b];
    assert StableSort([b, u], less) == [b, u];
    var three := StableSort([b, u, a], less);
    assert three == [b, u, a];
    assert three[0] == b && three[2] == a;
    StableSortExtends([b, u, a], rest, less, b, a);
    var r := Sort(q, [b, u, a] + rest);
    var i, j :| 0 <= i < j < |r| && r[i] == b && r[j] == a;
    assert TimeOf(q, r[i]) > TimeOf(q, r[j]);
  }

  lemma PickOne(s: seq<Sample>, x: Sample) returns (rest: seq<Sample>)
    requires x in s
    ensures multiset([x] + rest) == multiset(s)
  {
    var i :| 0 <= i < |s| && s[i] == x;
    rest := s[..i] + s[i + 1..];
    assert s == s[..i] + [x] + s[i + 1..];
  }

  /** Three different samples of a sequence can be moved to its front. */
  lemma PickThree(s: seq<Sample>, x: Sample, y: Sample, z: Sample) returns (rest: seq<Sample>)
    requires x in s && y in s && z in s && x != y && y != z && x != z
    ensures multiset([x, y, z] + rest) == multiset(s)
  {
    var r1 := PickOne(s, x);
    assert y in multiset([x] + r1) && z in multiset([x] + r1);
    assert y in [x] + r1 && z in [x] + r1;
    var r2 := PickOne(r1, y);
    assert z in multiset(r1);
    assert z in [y] + r2 by { assert z in multiset([y] + r2); }
    var r3 := PickOne(r2, z);
    rest := r3;
    assert multiset([x, y, z] + r3) == multiset([x]) + multiset([y]) + multiset([z] + r3);
  }

  /** The sorted spool ascends whatever order the samples were spooled in if and only
      if no unparseable time straddles two parseable ones; in particular it always
      ascends when every time parses. */
  lemma AscendsIffNoStraddle(q: Policy, entries: seq<Sample>)
    ensures (forall p :: multiset(p) == multiset(entries) ==> Ascends(q, Sort(q, p))) <==> NoStraddle(q, entries)
    ensures (forall s :: s in entries ==> Parses(q, s)) ==> NoStraddle(q, entries)
  {
    if NoStraddle(q, entries) {
      forall p | multiset(p) == multiset(entries) ensures Ascends(q, Sort(q, p)) {
        forall s | s in p ensures s in entries {
          assert s in multiset(p);
        }
        SortAscends(q, p);
      }
    } else {
      var a, u, b :| a in entries && u in entries && b in entries && Straddles(q, a, u, b);
      var rest := PickThree(entries, b, u, a);
      StraddleSticks(q, a, u, b, rest);
    }
  }

  lemma SuffixAscends(q: Policy, entries: seq<Sample>, k: nat)
    requires Ascends(q, entries) && k <= |entries|
    ensures Ascends(q, entries[k..])
  {
    var r := entries[k..];
    forall i, j | 0 <= i < j < |r| && Parses(q, r[i]) && Parses(q, r[j]) ensures TimeOf(q, r[i]) <= TimeOf(q, r[j]) {
      assert r[i] == entries[k + i] && r[j] == entries[k + j];
    }
  }

  /** After an enqueue of a new sample the spool on disk is in time order, unless an
      unparseable time straddles two others. */
  lemma EnqueueAscends(q: Policy, spool: Option<seq<Line>>, sample: Sample, now: int)
    requires Fill(q, sample).id !in Ids(Prune(q, Contents(q, spool), now))
    requires NoStraddle(q, Prune(q, Contents(q, spool), now) + [Fill(q, sample)])
    ensures Ascends(q, Contents(q, Stored(Enqueued(q, spool, sample, now))))
  {
    var k := EnqueueGuarantees(q, spool, sample, now);
    SortAscends(q, Prune(q, Contents(q, spool), now) + [Fill(q, sample)]);
    SuffixAscends(q, Arrivals(q, spool, sample, now), k);
  }

  lemma SameTimesAscend(q: Policy, a: seq<Sample>, b: seq<Sample>)
    requires Ascends(q, a) && |a| == |b| && forall i :: 0 <= i < |a| ==> a[i].sampledAt == b[i].sampledAt
    ensures Ascends(q, b)
  {
    forall i, j | 0 <= i < j < |b| && Parses(q, b[i]) && Parses(q, b[j]) ensures TimeOf(q, b[i]) <= TimeOf(q, b[j]) {
      assert Parses(q, a[i]) && Parses(q, a[j]);
    }
  }

  /** What a transient failure leaves on disk is in time order too. */
  lemma LeftoverAscends(q: Policy, spool: Option<seq<Line>>, url: string, now: int, post: nat -> Post)
    requires TrimSpace(url) != "" && !EndOfDrain(q, spool, url, now, post).Drained?
    requires NoStraddle(q, Prune(q, Contents(q, spool), now))
    ensures Ascends(q, Contents(q, AfterDrain(q, spool, url, now, post)))
  {
    var all, at := Queue(q, spool, now), EndOfDrain(q, spool, url, now, post).at;
    TransientFailureLeavesSuffix(q, spool, url, now, post);
    SortAscends(q, Prune(q, Contents(q, spool), now));
    ReaddressedAscends(q, all, at, TrimSpace(url));
  }

  lemma ReaddressedAscends(q: Policy, all: seq<Sample>, at: nat, url: string)
    requires Ascends(q, all) && at < |all|
    ensures Ascends(q, [all[at].(serverUrl := url)] + all[at + 1..])
  {
    SuffixAscends(q, all, at);
    SameTimesAscend(q, all[at..], [all[at].(serverUrl := url)] + all[at + 1..]);
  }

  function Stamp(clock: string): string { "2024-01-01T" + clock }

  /** Text order of three stamps of one day: 06:00Z, then 08, then 10:00+05:00. */
  lemma StampTexts()
    ensures !StrLess(Stamp("08"), Stamp("06:00:00Z"))
    ensures !StrLess(Stamp("10:00:00+05:00"), Stamp("08"))
  {
    SamePrefix("2024-01-01T", "08", "06:00:00Z");
    SamePrefix("2024-01-01T", "10:00:00+05:00", "08");
  }

  /** A truncated stamp between a UTC stamp and a later-looking zone-offset stamp: the
      three samples stay in the wrong order. */
  lemma TruncatedStampBlocksOrder(q: Policy, east: Sample, cut: Sample, utc: Sample)
    requires east.sampledAt == Stamp("10:00:00+05:00") && q.parse(east.sampledAt) == Some(18000)
    requires utc.sampledAt == Stamp("06:00:00Z") && q.parse(utc.sampledAt) == Some(21600)
    requires cut.sampledAt == Stamp("08") && q.parse(cut.sampledAt) == None
    ensures !Ascends(q, Sort(q, [utc, cut, east]))
  {
    StampTexts();
    StraddleSticks(q, east, cut, utc, []);
    assert [utc, cut, east] + [] == [utc, cut, east];
  }

  lemma {:induction false} SamePrefix(p: string, a: string, b: string)
    ensures StrLess(p + a, p + b) <==> StrLess(a, b)
  {
    if p == [] {
      assert p + a == a && p + b == b;
    } else {
      SamePrefix(p[1..], a, b);
      assert (p + a)[1..] == p[1..] + a && (p + b)[1..] == p[1..] + b;
    }
  }
}
