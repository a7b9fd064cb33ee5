/** What a round makes of the answers: shares in numbers, counters, and the rows looked at. */
module DockerReadings {
  import opened Text
  import opened Sorting
  import opened DockerScheduler

  function Processors(c: Cpu): nat { if c.online == 0 then c.perCpu else c.online }

  /** The reading an answer is compared with: its own, or the last round's. */
  function BaseOf(m: Memory, engine: string, id: string, answer: Stats): Cpu {
    if answer.precpu.system != 0 then answer.precpu
    else if engine + ":" + id in m.previous then m.previous[engine + ":" + id]
    else Cpu(0, 0, 0, 0)
  }

  predicate Comparable(base: Cpu, now: Cpu) {
    0 < base.system < now.system && base.total <= now.total && Processors(now) > 0
  }

  lemma Quotient(used: real, elapsed: real, n: real)
    requires elapsed > 0.0
    ensures used / elapsed * n * 100.0 * elapsed == used * n * 100.0
  {
    assert used / elapsed * elapsed == used;
    assert used / elapsed * n * 100.0 * elapsed == (used / elapsed * elapsed) * n * 100.0;
  }

  /** A container has a share exactly if it answered and its counters can be compared; the
      share is the container's time over the host's, times processors, in percent. */
  lemma ShareIs(m: Memory, engine: string, id: string, answers: map<string, Stats>)
    ensures var share := ShareOf(m, engine, id, answers);
      && (share.Some? <==> id in answers && Comparable(BaseOf(m, engine, id, answers[id]), answers[id].cpu))
      && (share.Some? ==>
            var base, now := BaseOf(m, engine, id, answers[id]), answers[id].cpu;
            share.value * (now.system - base.system) as real ==
            (now.total - base.total) as real * Processors(now) as real * 100.0)
  {
    if ShareOf(m, engine, id, answers).Some? {
      var base, now := BaseOf(m, engine, id, answers[id]), answers[id].cpu;
      Quotient((now.total - base.total) as real, (now.system - base.system) as real, Processors(now) as real);
    }
  }

  /** The counters kept for the next round are those of the answers. */
  lemma {:induction false} CountersAre(engine: string, ids: seq<string>, jobs: seq<int>, answers: map<string, Stats>, j: nat)
    requires InRange(jobs, |ids|) && j < |jobs| && ids[jobs[j]] in answers
    ensures var k := Key(engine, ids[jobs[j]]);
      k in NextCpus(engine, ids, jobs, answers) && NextCpus(engine, ids, jobs, answers)[k] == answers[ids[jobs[j]]].cpu
  {
    var n := |jobs| - 1;
    if Key(engine, ids[jobs[n]]) == Key(engine, ids[jobs[j]]) {
      KeysDiffer(engine, ids[jobs[n]], ids[jobs[j]]);
    } else {
      CountersAre(engine, ids, jobs[..n], answers, j);
    }
  }

  lemma ByIdIsOrder()
    ensures StrictWeakOrder(ById())
  {
    forall a, b | ById()(a, b) ensures !ById()(b, a) {
      StrLessTotal(a.id, b.id);
    }
    forall a, b, c | ById()(a, c) ensures ById()(a, b) || ById()(b, c) {
      StrLessSplits(a.id, b.id, c.id);
    }
  }

  /** The rows looked at are the 512 with the smallest ids, in order: with the dropped ones
      they make up all rows, and no dropped id is smaller than a kept one. */
  lemma ListedAreSmallest(rows: seq<Row>) returns (dropped: seq<Row>)
    ensures multiset(Listed(rows) + dropped) == multiset(rows)
    ensures |Listed(rows)| == if |rows| < 512 then |rows| else 512
    ensures forall k, d :: k in Listed(rows) && d in dropped ==> !StrLess(d.id, k.id)
    ensures forall i, j :: 0 <= i < j < |Listed(rows)| ==> !StrLess(Listed(rows)[j].id, Listed(rows)[i].id)
  {
    var sorted := StableSort(rows, ById());
    var n := if |rows| < 512 then |rows| else 512;
    ByIdIsOrder();
    StableSortPermutes(rows, ById());
    StableSortSorts(rows, ById());
    dropped := sorted[n..];
    assert Listed(rows) == sorted[..n] && sorted[..n] + dropped == sorted;
    forall k, d | k in Listed(rows) && d in dropped ensures !StrLess(d.id, k.id) {
      CutSorted(sorted, ById(), n, k, d);
      assert !ById()(d, k);
    }
    SortedById(sorted, n);
  }

  lemma SortedById(sorted: seq<Row>, n: nat)
    requires Sorted(sorted, ById()) && n <= |sorted|
    ensures forall i, j :: 0 <= i < j < n ==> !StrLess(sorted[..n][j].id, sorted[..n][i].id)
  {
    forall i, j | 0 <= i < j < n ensures !StrLess(sorted[..n][j].id, sorted[..n][i].id) {
      assert !ById()(sorted[j], sorted[i]);
    }
  }
}
