/** The process list: rates between two collections of the same process, the rank order,
    and the cut to the busiest. */
module ProcessRanking {
  import opened Text
  import opened Sorting

  const READ_LIMIT := 16384
  const RETURN_LIMIT := 4096
  const SECOND := 1_000_000_000

  /** One process as read: its start time, cumulative processor seconds and disk bytes where
      readable, and the moment of reading in nanoseconds. */
  datatype Observation = Observation(pid: int, name: string, memory: Option<nat>, started: int, total: Option<real>,
                                     at: int, read: Option<nat>, write: Option<nat>)

  datatype Process = Process(pid: int, name: string, memory: Option<nat>, cpu: Option<real>,
                             readRate: Option<real>, writeRate: Option<real>)

  datatype Sample = Sample(started: int, total: real, at: int, read: Option<nat>, write: Option<nat>)

  // ---- rates

  function Seconds(from: int, to: int): real { (to - from) as real / SECOND as real }

  /** Null for a missing reading or a counter that went backwards. */
  function CounterRate(previous: Option<nat>, current: Option<nat>, seconds: real): Option<real> {
    if previous.None? || current.None? || current.value < previous.value || seconds <= 0.0 then None
    else Some((current.value - previous.value) as real / seconds)
  }

  /** The sample of the same process, taken earlier. */
  predicate SameProcess(previous: map<int, Sample>, o: Observation) {
    && o.total.Some? && o.pid in previous
    && previous[o.pid].started == o.started && o.at > previous[o.pid].at
  }

  function Usage(before: Sample, o: Observation, cpus: int): real
    requires o.total.Some? && o.at > before.at && cpus > 0
  {
    var usage := (o.total.value - before.total) / Seconds(before.at, o.at) / cpus as real * 100.0;
    if usage > 100.0 then 100.0 else usage
  }

  function Rated(previous: map<int, Sample>, o: Observation, cpus: int): Process
    requires cpus > 0
  {
    if !SameProcess(previous, o) then Process(o.pid, o.name, o.memory, None, None, None)
    else
      var before := previous[o.pid];
      Process(o.pid, o.name, o.memory,
              if o.total.value >= before.total then Some(Usage(before, o, cpus)) else None,
              CounterRate(before.read, o.read, Seconds(before.at, o.at)),
              CounterRate(before.write, o.write, Seconds(before.at, o.at)))
  }

  function RatedAll(previous: map<int, Sample>, os: seq<Observation>, cpus: int): (r: seq<Process>)
    requires cpus > 0
    ensures |r| == |os| && forall i :: 0 <= i < |os| ==> r[i] == Rated(previous, os[i], cpus)
  {
    seq(|os|, i requires 0 <= i < |os| => Rated(previous, os[i], cpus))
  }

  function SampleOf(o: Observation): Sample
    requires o.total.Some?
  {
    Sample(o.started, o.total.value, o.at, o.read, o.write)
  }

  /** The samples of the first n observations; the last reading of a process counts. */
  function Samples(os: seq<Observation>, n: nat): map<int, Sample>
    requires n <= |os|
  {
    if n == 0 then map[]
    else
      var before, o := Samples(os, n - 1), os[n - 1];
      if o.total.Some? then before[o.pid := SampleOf(o)] else before
  }

  // ---- rank

  /** Processor use, then resident memory, then pid; unknown values after known ones. */
  predicate Outranks(a: Process, b: Process) {
    if a.cpu != b.cpu then a.cpu.Some? && (b.cpu.None? || a.cpu.value > b.cpu.value)
    else if a.memory != b.memory then a.memory.Some? && (b.memory.None? || a.memory.value > b.memory.value)
    else a.pid < b.pid
  }

  lemma OutranksIsOrder()
    ensures StrictWeakOrder(Outranks)
  {
    forall a, b, c | Outranks(a, c) ensures Outranks(a, b) || Outranks(b, c) {
    }
  }

  function Ranked(items: seq<Process>): seq<Process> { StableSort(items, Outranks) }

  function Kept(items: seq<Process>): seq<Process> {
    if |items| > RETURN_LIMIT then items[..RETURN_LIMIT] else items
  }

  // ---- the collector

  class ProcessCollector {
    var previous: map<int, Sample>
    ghost var readings: seq<Option<seq<Observation>>>

    /** The samples are those of the collections so far. */
    ghost predicate Valid()
      reads this
    {
      previous == After(readings)
    }

    constructor ()
      ensures Valid() && readings == [] && previous == map[]
    {
      previous, readings := map[], [];
    }

    /** A failed reading leaves the samples; a reading replaces them all. */
    method Collect(observed: Option<seq<Observation>>, count: nat, cpus: int)
      returns (items: seq<Process>, truncated: bool)
      requires Valid() && cpus > 0
      modifies this
      ensures Valid() && readings == old(readings) + [observed]
      ensures observed.None? ==> items == [] && !truncated && previous == old(previous)
      ensures observed.Some? ==> previous == Samples(observed.value, |observed.value|)
      ensures observed.Some? ==> items == Kept(Ranked(RatedAll(old(previous), observed.value, cpus)))
      ensures observed.Some? ==> truncated == (count > READ_LIMIT || |observed.value| > RETURN_LIMIT)
    {
      readings := readings + [observed];
      assert readings[..|readings| - 1] == old(readings);
      if observed.None? {
        return [], false;
      }
      var os := observed.value;
      var next: map<int, Sample> := map[];
      items := [];
      for n := 0 to |os|
        invariant items == RatedAll(previous, os, cpus)[..n] && next == Samples(os, n)
        invariant previous == old(previous)
      {
        var o := os[n];
        var item := Process(o.pid, o.name, o.memory, None, None, None);
        if o.total.Some? {
          var same := o.pid in previous && previous[o.pid].started == o.started && o.at > previous[o.pid].at;
          if same && o.total.value >= previous[o.pid].total {
            item := item.(cpu := Some(Usage(previous[o.pid], o, cpus)));
          }
          if same {
            var seconds := Seconds(previous[o.pid].at, o.at);
            item := item.(readRate := CounterRate(previous[o.pid].read, o.read, seconds),
                          writeRate := CounterRate(previous[o.pid].write, o.write, seconds));
          }
          next := next[o.pid := SampleOf(o)];
        }
        assert item == Rated(previous, o, cpus);
        items := items + [item];
      }
      assert items == RatedAll(previous, os, cpus);
      previous := next;
      items := StableSort(items, Outranks);
      truncated := count > READ_LIMIT || |items| > RETURN_LIMIT;
      if |items| > RETURN_LIMIT {
        items := items[..RETURN_LIMIT];
      }
    }
  }

  // ---- what the list promises

  /** k is known to use at least as much processor time as d; at equal use at least as much
      memory; and at equal memory its pid is not larger. */
  predicate AtLeast(k: Process, d: Process) {
    && (d.cpu.Some? ==> k.cpu.Some? && k.cpu.value >= d.cpu.value)
    && (k.cpu == d.cpu && d.memory.Some? ==> k.memory.Some? && k.memory.value >= d.memory.value)
    && (k.cpu == d.cpu && k.memory == d.memory ==> k.pid <= d.pid)
  }

  /** The list is the busiest part of everything rated: what is kept and what is dropped
      make up all of it, and nothing dropped outranks anything kept. */
  lemma KeepsTheBusiest(items: seq<Process>) returns (dropped: seq<Process>)
    ensures multiset(Kept(Ranked(items)) + dropped) == multiset(items)
    ensures dropped != [] ==> |Kept(Ranked(items))| == RETURN_LIMIT
    ensures forall k, d :: k in Kept(Ranked(items)) && d in dropped ==> !Outranks(d, k) && AtLeast(k, d)
    ensures Sorted(Kept(Ranked(items)), Outranks)
  {
    var ranked := Ranked(items);
    OutranksIsOrder();
    StableSortPermutes(items, Outranks);
    StableSortSorts(items, Outranks);
    dropped := if |ranked| > RETURN_LIMIT then ranked[RETURN_LIMIT..] else [];
    assert Kept(ranked) + dropped == ranked;
    forall k, d | k in Kept(ranked) && d in dropped ensures !Outranks(d, k) && AtLeast(k, d) {
      CutSorted(ranked, Outranks, RETURN_LIMIT, k, d);
    }
  }

  lemma UsageInRange(before: Sample, o: Observation, cpus: int)
    requires o.total.Some? && o.at > before.at && cpus > 0 && o.total.value >= before.total
    ensures 0.0 <= Usage(before, o, cpus) <= 100.0
  {
    var used, seconds := o.total.value - before.total, Seconds(before.at, o.at);
    assert seconds > 0.0;
    assert used / seconds >= 0.0;
  }

  /** Processor use lies in 0 to 100, and any rate comes from the sample of the same pid and
      start time, taken earlier; without one all rates are null. */
  lemma RatesAreSound(previous: map<int, Sample>, o: Observation, cpus: int)
    requires cpus > 0
    ensures var p := Rated(previous, o, cpus);
      && (p.cpu.Some? ==> 0.0 <= p.cpu.value <= 100.0)
      && (p.cpu.Some? || p.readRate.Some? || p.writeRate.Some? ==>
            o.pid in previous && previous[o.pid].started == o.started && previous[o.pid].at < o.at)
      && (p.cpu.Some? <==> SameProcess(previous, o) && o.total.value >= previous[o.pid].total)
      && (p.readRate.Some? ==> p.readRate.value >= 0.0) && (p.writeRate.Some? ==> p.writeRate.value >= 0.0)
  {
    if SameProcess(previous, o) && o.total.value >= previous[o.pid].total {
      UsageInRange(previous[o.pid], o, cpus);
    }
  }

  /** A stored sample is of an observation of the very last collection. */
  lemma {:induction false} SamplesAreObserved(os: seq<Observation>, n: nat, pid: int) returns (i: nat)
    requires n <= |os| && pid in Samples(os, n)
    ensures i < n && os[i].pid == pid && os[i].total.Some? && Samples(os, n)[pid] == SampleOf(os[i])
    ensures forall j :: i < j < n && os[j].pid == pid ==> os[j].total.None?
  {
    if os[n - 1].total.Some? && os[n - 1].pid == pid {
      i := n - 1;
    } else {
      i := SamplesAreObserved(os, n - 1, pid);
    }
  }

  /** Processor seconds used over b's and o's readings, as a share of all processors. */
  ghost predicate UsesShare(b: Observation, o: Observation, cpus: int, share: real)
    requires b.total.Some? && o.total.Some?
  {
    var used, nanos := (o.total.value - b.total.value) * 1_000_000_000.0, (o.at - b.at) as real;
    && 0.0 <= share <= 100.0
    && (share < 100.0 ==> share * nanos * cpus as real == used * 100.0)
    && (share == 100.0 ==> 100.0 * nanos * cpus as real <= used * 100.0)
  }

  /** A rate is known exactly if both counters are and they did not go backwards. */
  ghost predicate RateIs(b: Observation, o: Observation, before: Option<nat>, now: Option<nat>, rate: Option<real>) {
    && (rate.Some? <==> before.Some? && now.Some? && before.value <= now.value)
    && (rate.Some? ==> rate.value * (o.at - b.at) as real == (now.value - before.value) as real * 1_000_000_000.0)
  }

  /** p's rates span the time since the same process was read as b, with its counters. */
  ghost predicate RatedAgainst(b: Observation, o: Observation, cpus: int, p: Process) {
    && b.pid == o.pid && b.started == o.started && b.at < o.at && b.total.Some? && o.total.Some?
    && (p.cpu.Some? <==> o.total.value >= b.total.value)
    && (p.cpu.Some? ==> UsesShare(b, o, cpus, p.cpu.value))
    && RateIs(b, o, b.read, o.read, p.readRate) && RateIs(b, o, b.write, o.write, p.writeRate)
  }

  lemma DivideTwice(used: real, nanos: real, cpus: real)
    requires nanos > 0.0 && cpus > 0.0
    ensures var usage := used / (nanos / 1_000_000_000.0) / cpus * 100.0;
            usage * nanos * cpus == used * 1_000_000_000.0 * 100.0
  {
    var perSecond := used / (nanos / 1_000_000_000.0);
    assert perSecond * nanos == used * 1_000_000_000.0;
    var each := perSecond / cpus;
    assert each * cpus == perSecond;
    assert each * 100.0 * nanos * cpus == (each * cpus) * nanos * 100.0;
  }

  lemma Cap(usage: real, nanos: real, cpus: real, used: real)
    requires nanos > 0.0 && cpus > 0.0 && usage * nanos * cpus == used && usage > 100.0
    ensures 100.0 * nanos * cpus <= used
  {
    assert (usage - 100.0) * nanos >= 0.0;
    assert (usage - 100.0) * nanos * cpus >= 0.0;
  }

  lemma UsageIsShare(b: Observation, o: Observation, cpus: int)
    requires b.total.Some? && o.total.Some? && b.at < o.at && cpus > 0 && o.total.value >= b.total.value
    ensures UsesShare(b, o, cpus, Usage(SampleOf(b), o, cpus))
  {
    var used, nanos := o.total.value - b.total.value, (o.at - b.at) as real;
    var usage := used / (nanos / 1_000_000_000.0) / cpus as real * 100.0;
    DivideTwice(used, nanos, cpus as real);
    UsageInRange(SampleOf(b), o, cpus);
    if usage > 100.0 {
      Cap(usage, nanos, cpus as real, used * 1_000_000_000.0 * 100.0);
    }
  }

  lemma CounterRateIs(b: Observation, o: Observation, before: Option<nat>, now: Option<nat>)
    requires b.at < o.at
    ensures RateIs(b, o, before, now, CounterRate(before, now, Seconds(b.at, o.at)))
  {
    var nanos := (o.at - b.at) as real;
    assert Seconds(b.at, o.at) == nanos / 1_000_000_000.0 && nanos / 1_000_000_000.0 > 0.0;
    if before.Some? && now.Some? && before.value <= now.value {
      var bytes := (now.value - before.value) as real;
      assert bytes / (nanos / 1_000_000_000.0) * nanos == bytes * 1_000_000_000.0;
    }
  }

  lemma RatesAgainst(before: seq<Observation>, o: Observation, cpus: int) returns (i: nat)
    requires cpus > 0 && SameProcess(Samples(before, |before|), o)
    ensures i < |before| && RatedAgainst(before[i], o, cpus, Rated(Samples(before, |before|), o, cpus))
  {
    i := SamplesAreObserved(before, |before|, o.pid);
    RatedAgainstSample(before[i], o, cpus, Samples(before, |before|));
  }

  // ---- runs

  /** The samples after a run of collections, of which some could not read anything. */
  function After(readings: seq<Option<seq<Observation>>>): map<int, Sample> {
    if readings == [] then map[]
    else
      var last := readings[|readings| - 1];
      if last.Some? then Samples(last.value, |last.value|) else After(readings[..|readings| - 1])
  }

  /** The k-th collection is the last that read anything. */
  ghost predicate LastRead(readings: seq<Option<seq<Observation>>>, k: int) {
    0 <= k < |readings| && readings[k].Some? && forall j :: k < j < |readings| ==> readings[j].None?
  }

  ghost predicate NoneRead(readings: seq<Option<seq<Observation>>>) {
    forall j :: 0 <= j < |readings| ==> readings[j].None?
  }

  lemma {:induction false} AfterLastRead(readings: seq<Option<seq<Observation>>>) returns (k: int)
    ensures k < 0 ==> NoneRead(readings) && After(readings) == map[]
    ensures k >= 0 ==> LastRead(readings, k) && After(readings) == Samples(readings[k].value, |readings[k].value|)
  {
    if readings == [] {
      k := -1;
    } else if readings[|readings| - 1].Some? {
      k := |readings| - 1;
    } else {
      k := AfterLastRead(readings[..|readings| - 1]);
    }
  }

  /** In every run of collections, failed ones included: a process has rates only if the
      last collection that read anything read it too, under the same pid and start time, and
      the rates are taken against that reading; otherwise all its rates are null. */
  lemma RatesSpanLastReading(readings: seq<Option<seq<Observation>>>, o: Observation, cpus: int)
    requires cpus > 0
    ensures var p := Rated(After(readings), o, cpus);
      || (p.cpu.None? && p.readRate.None? && p.writeRate.None?)
      || exists k, i :: LastRead(readings, k) && 0 <= i < |readings[k].value|
                        && RatedAgainst(readings[k].value[i], o, cpus, p)
  {
    var k := AfterLastRead(readings);
    if SameProcess(After(readings), o) {
      var i := RatesAgainst(readings[k].value, o, cpus);
    }
  }

  /** A reading with a total is stored unless the same pid is read again later. */
  lemma {:induction false} SamplesHold(os: seq<Observation>, n: nat, i: nat)
    requires i < n <= |os| && os[i].total.Some?
    requires forall j :: i < j < n && os[j].pid == os[i].pid ==> os[j].total.None?
    ensures os[i].pid in Samples(os, n) && Samples(os, n)[os[i].pid] == SampleOf(os[i])
  {
    if i < n - 1 {
      SamplesHold(os, n - 1, i);
    }
  }

  lemma {:induction false} AfterIsLastRead(readings: seq<Option<seq<Observation>>>, k: nat)
    requires LastRead(readings, k)
    ensures After(readings) == Samples(readings[k].value, |readings[k].value|)
  {
    if k < |readings| - 1 {
      AfterIsLastRead(readings[..|readings| - 1], k);
    }
  }

  /** Conversely, a process that the last collection that read anything read too, under the
      same pid and start time and with its processor time, is rated against that reading. */
  lemma RatesAppear(readings: seq<Option<seq<Observation>>>, k: nat, i: nat, o: Observation, cpus: int)
    requires cpus > 0 && LastRead(readings, k) && i < |readings[k].value| && o.total.Some?
    requires var os := readings[k].value;
      && os[i].total.Some? && os[i].pid == o.pid && os[i].started == o.started && os[i].at < o.at
      && forall j :: i < j < |os| && os[j].pid == o.pid ==> os[j].total.None?
    ensures RatedAgainst(readings[k].value[i], o, cpus, Rated(After(readings), o, cpus))
  {
    var os := readings[k].value;
    AfterIsLastRead(readings, k);
    SamplesHold(os, |os|, i);
    RatedAgainstSample(os[i], o, cpus, After(readings));
  }

  lemma RatedAgainstSample(b: Observation, o: Observation, cpus: int, previous: map<int, Sample>)
    requires cpus > 0 && b.total.Some? && o.total.Some? && b.pid == o.pid && b.started == o.started && b.at < o.at
    requires o.pid in previous && previous[o.pid] == SampleOf(b)
    ensures RatedAgainst(b, o, cpus, Rated(previous, o, cpus))
  {
    if o.total.value >= b.total.value {
      UsageIsShare(b, o, cpus);
    }
    CounterRateIs(b, o, b.read, o.read);
    CounterRateIs(b, o, b.write, o.write);
  }
}
