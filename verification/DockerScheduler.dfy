/** Container statistics scheduling: which running containers get one of the
    bounded stats calls of a round, and the bookkeeping that later rounds use. */
module DockerScheduler {
  import opened Text
  import opened Sorting

  const STATS_LIMIT := 32
  const STATS_ROTATION := 8
  const LIST_LIMIT := 512

  datatype Cpu = Cpu(total: nat, system: nat, online: nat, perCpu: nat)
  datatype Stats = Stats(cpu: Cpu, precpu: Cpu)
  datatype Row = Row(id: string, state: string)

  /** The collector's memory between rounds, keyed by engine and container. Times
      count from Go's zero time, which is what an absent stamp answers as. */
  datatype Memory = Memory(previous: map<string, Cpu>, percent: map<string, real>, sampledAt: map<string, nat>)

  datatype Report = Report(totalCount: nat, truncated: bool, statsCandidates: nat, statsRead: nat)
  datatype Outcome = Failed(error: string) | Collected(report: Report)

  function Key(engine: string, id: string): string { engine + ":" + id }

  function Keys(engine: string, ids: seq<string>): (r: seq<string>)
    ensures |r| == |ids|
    ensures forall i :: 0 <= i < |ids| ==> r[i] == Key(engine, ids[i])
  {
    seq(|ids|, i requires 0 <= i < |ids| => Key(engine, ids[i]))
  }

  predicate ValidId(id: string) {
    12 <= |id| <= 64 && forall c :: c in id ==> '0' <= c <= '9' || 'a' <= c <= 'f'
  }

  /** The share of host CPU between two readings, if both are usable. */
  function CpuPercent(stats: Stats): Option<real> {
    var cpus := if stats.cpu.online == 0 then stats.cpu.perCpu else stats.cpu.online;
    if 0 < stats.precpu.system < stats.cpu.system && stats.cpu.total >= stats.precpu.total && cpus > 0 then
      Some((stats.cpu.total - stats.precpu.total) as real / (stats.cpu.system - stats.precpu.system) as real
           * cpus as real * 100.0)
    else None
  }

  /** A reading without its own baseline borrows the one from the last round. */
  function WithBaseline(m: Memory, key: string, stats: Stats): Stats {
    if stats.precpu.system != 0 then stats
    else stats.(precpu := if key in m.previous then m.previous[key] else Cpu(0, 0, 0, 0))
  }

  function Percent(m: Memory, keys: seq<string>, i: int): Option<real> {
    if 0 <= i < |keys| && keys[i] in m.percent then Some(m.percent[keys[i]]) else None
  }

  function StampOf(m: Memory, key: string): nat {
    if key in m.sampledAt then m.sampledAt[key] else 0
  }

  function Stamp(m: Memory, keys: seq<string>, i: int): nat {
    if 0 <= i < |keys| then StampOf(m, keys[i]) else 0
  }

  function Busier(m: Memory, keys: seq<string>): (int, int) -> bool {
    (i: int, j: int) =>
      var left, right := Percent(m, keys, i), Percent(m, keys, j);
      if left.Some? != right.Some? then left.Some? else left.Some? && left.value > right.value
  }

  function Staler(m: Memory, keys: seq<string>): (int, int) -> bool {
    (i: int, j: int) => Stamp(m, keys, i) < Stamp(m, keys, j)
  }

  /** The leading entries whose CPU share is known, up to a limit. */
  function TakeKnown(m: Memory, keys: seq<string>, order: seq<int>, limit: nat): (r: seq<int>)
    ensures |r| <= limit
  {
    if order == [] || limit == 0 || Percent(m, keys, order[0]).None? then []
    else [order[0]] + TakeKnown(m, keys, order[1..], limit - 1)
  }

  /** The leading entries not chosen yet, up to a limit. */
  function FillStale(order: seq<int>, chosen: set<int>, limit: nat): seq<int> {
    if order == [] || limit == 0 then []
    else if order[0] in chosen then FillStale(order[1..], chosen, limit)
    else [order[0]] + FillStale(order[1..], chosen + {order[0]}, limit - 1)
  }

  function BusyJobs(m: Memory, keys: seq<string>, running: seq<int>): seq<int> {
    TakeKnown(m, keys, StableSort(running, Busier(m, keys)), STATS_LIMIT - STATS_ROTATION)
  }

  function StaleJobs(m: Memory, keys: seq<string>, running: seq<int>): seq<int> {
    var busy := BusyJobs(m, keys, running);
    FillStale(StableSort(running, Staler(m, keys)), Elements(busy), STATS_LIMIT - |busy|)
  }

  /** The containers a round samples. */
  function Jobs(m: Memory, keys: seq<string>, running: seq<int>): seq<int> {
    if |running| <= STATS_LIMIT then running else BusyJobs(m, keys, running) + StaleJobs(m, keys, running)
  }

  function Elements(s: seq<int>): set<int> { set x | x in s }

  ghost predicate Distinct(s: seq<int>) { forall i, j :: 0 <= i < j < |s| ==> s[i] != s[j] }

  lemma {:induction false} DistinctCount(s: seq<int>)
    requires Distinct(s)
    ensures |Elements(s)| == |s|
  {
    if s != [] {
      DistinctCount(s[1..]);
      assert Elements(s) == Elements(s[1..]) + {s[0]};
    }
  }

  // ---- what one round picks

  lemma BusierOrder(m: Memory, keys: seq<string>)
    ensures StrictWeakOrder(Busier(m, keys)) && StrictWeakOrder(Staler(m, keys))
  {
  }

  lemma {:induction false} FillStaleMembers(order: seq<int>, chosen: set<int>, limit: nat)
    requires Distinct(order)
    ensures Distinct(FillStale(order, chosen, limit))
    ensures forall x :: x in FillStale(order, chosen, limit) ==> x in order && x !in chosen
    decreases |order|
  {
    if order != [] && limit > 0 {
      var more := if order[0] in chosen then chosen else chosen + {order[0]};
      FillStaleMembers(order[1..], more, if order[0] in chosen then limit else limit - 1);
    }
  }

  /** How many entries of an order are not chosen yet. */
  function Unchosen(order: seq<int>, chosen: set<int>): nat {
    if order == [] then 0
    else if order[0] in chosen then Unchosen(order[1..], chosen)
    else 1 + Unchosen(order[1..], chosen + {order[0]})
  }

  lemma {:induction false} FillStaleCount(order: seq<int>, chosen: set<int>, limit: nat)
    requires Unchosen(order, chosen) >= limit
    ensures |FillStale(order, chosen, limit)| == limit
    decreases |order|
  {
    if limit > 0 && order[0] in chosen {
      FillStaleCount(order[1..], chosen, limit);
    } else if limit > 0 {
      FillStaleCount(order[1..], chosen + {order[0]}, limit - 1);
    }
  }

  /** In an order without repetition at most |chosen| entries are chosen. */
  lemma {:induction false} UnchosenCount(order: seq<int>, chosen: set<int>, extra: set<int>)
    requires Distinct(order) && forall i :: 0 <= i < |order| ==> order[i] !in extra
    ensures Unchosen(order, chosen + extra) + |chosen| >= |order|
    decreases |order|
  {
    if order != [] {
      if order[0] in chosen {
        assert chosen + extra == (chosen - {order[0]}) + (extra + {order[0]});
        UnchosenCount(order[1..], chosen - {order[0]}, extra + {order[0]});
      } else {
        assert chosen + extra + {order[0]} == chosen + (extra + {order[0]});
        UnchosenCount(order[1..], chosen, extra + {order[0]});
      }
    }
  }

  /** An entry that was passed over comes after every entry that was taken. */
  lemma {:induction false} FillStaleFair(order: seq<int>, chosen: set<int>, limit: nat, less: (int, int) -> bool, x: int)
    requires PrecedesSorted(order, less)
    requires x in order && x !in chosen && x !in FillStale(order, chosen, limit)
    ensures forall y :: y in FillStale(order, chosen, limit) ==> Precedes(less, y, x)
    decreases |order|
  {
    if limit > 0 {
      if order[0] in chosen {
        FillStaleFair(order[1..], chosen, limit, less, x);
      } else {
        assert x != order[0] && x in order[1..];
        FillStaleFair(order[1..], chosen + {order[0]}, limit - 1, less, x);
      }
    }
  }

  /** Both orders list the running containers without repetition. */
  lemma OrderIsDistinct(running: seq<int>, less: (int, int) -> bool)
    requires Increasing(running) && StrictWeakOrder(less)
    ensures Distinct(StableSort(running, less))
    ensures forall x :: x in StableSort(running, less) <==> x in running
  {
    StableSortIndices(running, less);
    StableSortMembers(running, less);
    var s := StableSort(running, less);
    forall i, j | 0 <= i < j < |s| ensures s[i] != s[j] {
      assert Precedes(less, s[i], s[j]);
    }
  }

  /** The busy slots are a prefix of the order, and short only if the CPU share of
      the next entry is unknown. */
  lemma {:induction false} TakeKnownPrefix(m: Memory, keys: seq<string>, order: seq<int>, limit: nat)
    ensures TakeKnown(m, keys, order, limit) <= order
    ensures forall x :: x in TakeKnown(m, keys, order, limit) ==> Percent(m, keys, x).Some?
    ensures var n := |TakeKnown(m, keys, order, limit)|;
            n < limit && n < |order| ==> Percent(m, keys, order[n]).None?
  {
    if order != [] && limit > 0 && Percent(m, keys, order[0]).Some? {
      TakeKnownPrefix(m, keys, order[1..], limit - 1);
    }
  }

  lemma BusyJobsDistinct(m: Memory, keys: seq<string>, running: seq<int>)
    requires Increasing(running)
    ensures Distinct(BusyJobs(m, keys, running))
    ensures forall x :: x in BusyJobs(m, keys, running) ==> x in running
  {
    BusierOrder(m, keys);
    OrderIsDistinct(running, Busier(m, keys));
    var busy := BusyJobs(m, keys, running);
    TakeKnownPrefix(m, keys, StableSort(running, Busier(m, keys)), STATS_LIMIT - STATS_ROTATION);
    assert busy == StableSort(running, Busier(m, keys))[..|busy|];
  }

  lemma RotationFills(order: seq<int>, busy: seq<int>)
    requires Distinct(order) && Distinct(busy) && |busy| <= STATS_LIMIT
    ensures var r := FillStale(order, Elements(busy), STATS_LIMIT - |busy|);
            && Distinct(r)
            && (forall x :: x in r ==> x in order && x !in busy)
            && (|order| >= STATS_LIMIT ==> |r| == STATS_LIMIT - |busy|)
  {
    FillStaleMembers(order, Elements(busy), STATS_LIMIT - |busy|);
    DistinctCount(busy);
    UnchosenCount(order, Elements(busy), {});
    assert Elements(busy) + {} == Elements(busy);
    if |order| >= STATS_LIMIT {
      FillStaleCount(order, Elements(busy), STATS_LIMIT - |busy|);
    }
  }

  lemma StaleJobsDistinct(m: Memory, keys: seq<string>, running: seq<int>)
    requires Increasing(running)
    ensures Distinct(StaleJobs(m, keys, running))
    ensures forall x :: x in StaleJobs(m, keys, running) ==> x in running && x !in BusyJobs(m, keys, running)
    ensures |running| >= STATS_LIMIT ==>
              |StaleJobs(m, keys, running)| == STATS_LIMIT - |BusyJobs(m, keys, running)|
  {
    BusierOrder(m, keys);
    OrderIsDistinct(running, Staler(m, keys));
    BusyJobsDistinct(m, keys, running);
    RotationFills(StableSort(running, Staler(m, keys)), BusyJobs(m, keys, running));
  }

  /** Each round picks exactly min(32, n) distinct running containers, and at least
      eight of them are rotation picks. */
  lemma JobsAreDistinctRunning(m: Memory, keys: seq<string>, running: seq<int>)
    requires Increasing(running)
    ensures Distinct(Jobs(m, keys, running))
    ensures forall x :: x in Jobs(m, keys, running) ==> x in running
    ensures |Jobs(m, keys, running)| == if |running| < STATS_LIMIT then |running| else STATS_LIMIT
    ensures |running| > STATS_LIMIT ==> |StaleJobs(m, keys, running)| >= STATS_ROTATION
  {
    BusyJobsDistinct(m, keys, running);
    StaleJobsDistinct(m, keys, running);
    var busy, stale := BusyJobs(m, keys, running), StaleJobs(m, keys, running);
    var jobs := busy + stale;
    forall i, j | 0 <= i < j < |jobs| ensures jobs[i] != jobs[j] {
      if i < |busy| <= j {
        assert jobs[i] in busy && jobs[j] == stale[j - |busy|];
      }
    }
  }

  lemma JobsInRange(m: Memory, keys: seq<string>, running: seq<int>, n: nat)
    requires Increasing(running) && InRange(running, n)
    ensures InRange(Jobs(m, keys, running), n)
  {
    JobsAreDistinctRunning(m, keys, running);
    var jobs := Jobs(m, keys, running);
    forall i | 0 <= i < |jobs| ensures 0 <= jobs[i] < n {
      assert jobs[i] in running;
    }
  }

  lemma StaleOrderIs(m: Memory, keys: seq<string>, running: seq<int>)
    requires Increasing(running)
    ensures var order := StableSort(running, Staler(m, keys));
      PrecedesSorted(order, Staler(m, keys)) && forall x :: x in order <==> x in running
  {
    BusierOrder(m, keys);
    StableSortIndices(running, Staler(m, keys));
    StableSortMembers(running, Staler(m, keys));
  }

  /** No container left out of a round is staler than any rotation pick. */
  lemma RotationIsFair(m: Memory, keys: seq<string>, running: seq<int>, x: int)
    requires Increasing(running) && |running| > STATS_LIMIT
    requires x in running && x !in Jobs(m, keys, running)
    ensures forall y :: y in StaleJobs(m, keys, running) ==> Precedes(Staler(m, keys), y, x)
  {
    StaleOrderIs(m, keys, running);
    var busy := BusyJobs(m, keys, running);
    FillStaleFair(StableSort(running, Staler(m, keys)), Elements(busy), STATS_LIMIT - |busy|, Staler(m, keys), x);
  }

  /** The other slots go to the busiest: a container left out was not busier, by its
      last known share, than any container in a busy slot. */
  lemma BusySlotsAreBusiest(m: Memory, keys: seq<string>, running: seq<int>, x: int, y: int)
    requires Increasing(running) && |running| > STATS_LIMIT
    requires x in running && x !in Jobs(m, keys, running) && Percent(m, keys, x).Some?
    requires y in BusyJobs(m, keys, running)
    ensures |BusyJobs(m, keys, running)| == STATS_LIMIT - STATS_ROTATION
    ensures Percent(m, keys, y).Some? && Percent(m, keys, y).value >= Percent(m, keys, x).value
  {
    BusierOrder(m, keys);
    var less := Busier(m, keys);
    var order := StableSort(running, less);
    StableSortSorts(running, less);
    StableSortMembers(running, less);
    var busy := BusyJobs(m, keys, running);
    TakeKnownPrefix(m, keys, order, STATS_LIMIT - STATS_ROTATION);
    assert busy == order[..|busy|];
    var i :| 0 <= i < |order| && order[i] == x;
    var j :| 0 <= j < |busy| && busy[j] == y;
    assert i >= |busy|;
    assert order[j] == y && !less(order[i], order[j]);
    assert !less(order[i], order[|busy|]);
  }

  // ---- the memory after a round

  ghost predicate InRange(xs: seq<int>, n: nat) { forall i :: 0 <= i < |xs| ==> 0 <= xs[i] < n }

  /** The CPU counters a round obtained: those of the sampled containers that answered. */
  function NextCpus(engine: string, ids: seq<string>, jobs: seq<int>, answers: map<string, Stats>): (r: map<string, Cpu>)
    requires InRange(jobs, |ids|)
    ensures forall k :: k in r <==> exists j :: 0 <= j < |jobs| && ids[jobs[j]] in answers && k == Key(engine, ids[jobs[j]])
  {
    if jobs == [] then map[]
    else
      var id, rest := ids[jobs[|jobs| - 1]], jobs[..|jobs| - 1];
      var before := NextCpus(engine, ids, rest, answers);
      assert forall j :: 0 <= j < |rest| ==> rest[j] == jobs[j];
      if id in answers then before[Key(engine, id) := answers[id].cpu] else before
  }

  function ShareOf(m: Memory, engine: string, id: string, answers: map<string, Stats>): Option<real> {
    if id in answers then CpuPercent(WithBaseline(m, Key(engine, id), answers[id])) else None
  }

  /** The CPU shares computed from them. */
  function NextShares(m: Memory, engine: string, ids: seq<string>, jobs: seq<int>, answers: map<string, Stats>): map<string, real>
    requires InRange(jobs, |ids|)
  {
    if jobs == [] then map[]
    else
      var id := ids[jobs[|jobs| - 1]];
      var before := NextShares(m, engine, ids, jobs[..|jobs| - 1], answers);
      var share := ShareOf(m, engine, id, answers);
      if share.Some? then before[Key(engine, id) := share.value] else before
  }

  /** A round knows the share of exactly those sampled containers whose answer yields one,
      against the baseline of the answer or else of the last round. */
  lemma {:induction false} SharesAreExact(m: Memory, engine: string, ids: seq<string>, jobs: seq<int>, answers: map<string, Stats>, k: string)
    requires InRange(jobs, |ids|)
    ensures k in NextShares(m, engine, ids, jobs, answers) <==>
            exists j :: 0 <= j < |jobs| && k == Key(engine, ids[jobs[j]]) && ShareOf(m, engine, ids[jobs[j]], answers).Some?
    ensures forall j :: 0 <= j < |jobs| && k == Key(engine, ids[jobs[j]]) && k in NextShares(m, engine, ids, jobs, answers) ==>
              ShareOf(m, engine, ids[jobs[j]], answers) == Some(NextShares(m, engine, ids, jobs, answers)[k])
  {
    if jobs != [] {
      var n := |jobs| - 1;
      SharesAreExact(m, engine, ids, jobs[..n], answers, k);
      assert forall j :: 0 <= j < n ==> jobs[..n][j] == jobs[j];
      forall i, j | 0 <= i < |jobs| && 0 <= j < |jobs| && Key(engine, ids[jobs[i]]) == Key(engine, ids[jobs[j]])
        ensures ids[jobs[i]] == ids[jobs[j]]
      {
        KeysDiffer(engine, ids[jobs[i]], ids[jobs[j]]);
      }
    }
  }

  function Advance(m: Memory, engine: string, ids: seq<string>, running: seq<int>, answers: map<string, Stats>, now: nat): (r: Memory)
    requires InRange(running, |ids|) && Increasing(running)
  {
    var keys := Keys(engine, ids);
    JobsInRange(m, keys, running, |ids|);
    var jobs := Jobs(m, keys, running);
    var next := NextCpus(engine, ids, jobs, answers);
    Memory(next, NextShares(m, engine, ids, jobs, answers),
           (map k | k in m.sampledAt && RunningKey(keys, running, k) :: m.sampledAt[k]) +
           (map k | k in next :: now))
  }

  /** A running container's stamp after a round: the round's time if it answered. */
  lemma AdvanceStamp(m: Memory, engine: string, ids: seq<string>, running: seq<int>, answers: map<string, Stats>, now: nat, p: nat)
    requires InRange(running, |ids|) && Increasing(running) && p < |running|
    requires InRange(Jobs(m, Keys(engine, ids), running), |ids|)
    ensures var key := Key(engine, ids[running[p]]);
            StampOf(Advance(m, engine, ids, running, answers, now), key) ==
            if key in NextCpus(engine, ids, Jobs(m, Keys(engine, ids), running), answers) then now else StampOf(m, key)
  {
    var keys := Keys(engine, ids);
    assert RunningKey(keys, running, keys[running[p]]);
  }

  predicate RunningKey(keys: seq<string>, running: seq<int>, k: string)
    requires InRange(running, |keys|)
  {
    exists j :: 0 <= j < |running| && keys[running[j]] == k
  }

  // ---- no starvation

  /** One completed round over some container list. */
  datatype Round = Round(ids: seq<string>, running: seq<int>, answers: map<string, Stats>, now: nat)

  ghost predicate RoundOver(r: Round, live: seq<string>) {
    && InRange(r.running, |r.ids|)
    && Increasing(r.running)
    && |r.running| == |live|
    && forall p :: 0 <= p < |live| ==> r.ids[r.running[p]] == live[p]
  }

  ghost predicate AllRead(m: Memory, engine: string, r: Round)
    requires InRange(r.running, |r.ids|) && Increasing(r.running)
  {
    forall x :: x in Jobs(m, Keys(engine, r.ids), r.running) && 0 <= x < |r.ids| ==> r.ids[x] in r.answers
  }

  function After(m: Memory, engine: string, r: Round): Memory
    requires InRange(r.running, |r.ids|) && Increasing(r.running)
  {
    Advance(m, engine, r.ids, r.running, r.answers, r.now)
  }

  ghost predicate ClockAhead(m: Memory, now: nat) {
    now > 0 && forall k :: k in m.sampledAt ==> m.sampledAt[k] < now
  }

  /** A run of rounds over the same running containers: every chosen stats call is
      answered and every round answers a later time than any stamp it finds. */
  ghost predicate SteadyRun(m: Memory, engine: string, live: seq<string>, rounds: seq<Round>)
    decreases |rounds|
  {
    rounds == [] ||
    (&& RoundOver(rounds[0], live)
     && AllRead(m, engine, rounds[0])
     && ClockAhead(m, rounds[0].now)
     && SteadyRun(After(m, engine, rounds[0]), engine, live, rounds[1..]))
  }

  ghost predicate Chosen(m: Memory, engine: string, r: Round, p: nat)
    requires InRange(r.running, |r.ids|) && Increasing(r.running) && p < |r.running|
  {
    r.running[p] in Jobs(m, Keys(engine, r.ids), r.running)
  }

  /** Some round of the run samples the container at position p. */
  ghost predicate EventuallyChosen(m: Memory, engine: string, live: seq<string>, rounds: seq<Round>, p: nat)
    requires SteadyRun(m, engine, live, rounds) && p < |live|
    decreases |rounds|
  {
    rounds != [] &&
    (Chosen(m, engine, rounds[0], p) ||
     EventuallyChosen(After(m, engine, rounds[0]), engine, live, rounds[1..], p))
  }

  ghost predicate Ahead(m: Memory, engine: string, live: seq<string>, q: int, p: int)
    requires 0 <= q < |live| && 0 <= p < |live|
  {
    var sq, sp := StampOf(m, Key(engine, live[q])), StampOf(m, Key(engine, live[p]));
    sq < sp || (sq == sp && q < p)
  }

  /** The containers that go before position p in the rotation. */
  ghost function Queue(m: Memory, engine: string, live: seq<string>, p: nat): set<int>
    requires p < |live|
  {
    set q | 0 <= q < |live| && Ahead(m, engine, live, q, p)
  }

  ghost function UpTo(n: nat): (r: set<int>)
    ensures |r| == n && forall q :: q in r <==> 0 <= q < n
  {
    if n == 0 then {} else UpTo(n - 1) + {n - 1}
  }

  lemma SubsetCount<T>(a: set<T>, b: set<T>)
    requires a <= b
    ensures |a| <= |b|
  {
    assert b == a + (b - a);
  }

  lemma QueueBound(m: Memory, engine: string, live: seq<string>, p: nat)
    requires p < |live|
    ensures |Queue(m, engine, live, p)| <= |live| - 1
  {
    SubsetCount(Queue(m, engine, live, p), UpTo(|live|) - {p});
  }

  lemma KeysDiffer(engine: string, a: string, b: string)
    requires Key(engine, a) == Key(engine, b)
    ensures a == b
  {
    assert Key(engine, a)[|engine| + 1..] == a && Key(engine, b)[|engine| + 1..] == b;
  }

  /** Keys tell distinct containers apart. */
  lemma JobAtPosition(engine: string, live: seq<string>, r: Round, x: int, p: nat)
    requires RoundOver(r, live) && p < |live| && x in r.running && 0 <= x < |r.ids|
    requires forall i, j :: 0 <= i < j < |live| ==> live[i] != live[j]
    requires Key(engine, live[p]) == Key(engine, r.ids[x])
    ensures x == r.running[p]
  {
    KeysDiffer(engine, r.ids[x], live[p]);
    var q :| 0 <= q < |r.running| && r.running[q] == x;
    assert live[q] == live[p];
  }

  /** Among distinct containers, a round reads position p exactly when it chose it. */
  lemma ReadExactlyChosen(m: Memory, engine: string, live: seq<string>, r: Round, p: nat)
    requires RoundOver(r, live) && AllRead(m, engine, r) && p < |live|
    requires forall i, j :: 0 <= i < j < |live| ==> live[i] != live[j]
    ensures InRange(Jobs(m, Keys(engine, r.ids), r.running), |r.ids|)
    ensures Key(engine, live[p]) in NextCpus(engine, r.ids, Jobs(m, Keys(engine, r.ids), r.running), r.answers)
            <==> Chosen(m, engine, r, p)
  {
    var keys := Keys(engine, r.ids);
    JobsInRange(m, keys, r.running, |r.ids|);
    JobsAreDistinctRunning(m, keys, r.running);
    var jobs, key := Jobs(m, keys, r.running), Key(engine, live[p]);
    if Chosen(m, engine, r, p) {
      var j :| 0 <= j < |jobs| && jobs[j] == r.running[p];
      assert r.ids[jobs[j]] in r.answers && key == Key(engine, r.ids[jobs[j]]);
    }
    if key in NextCpus(engine, r.ids, jobs, r.answers) {
      var j :| 0 <= j < |jobs| && r.ids[jobs[j]] in r.answers && key == Key(engine, r.ids[jobs[j]]);
      JobAtPosition(engine, live, r, jobs[j], p);
    }
  }

  /** After a steady round, chosen containers carry the new time and the others
      keep their stamp. */
  lemma StampsAfter(m: Memory, engine: string, live: seq<string>, r: Round, p: nat)
    requires RoundOver(r, live) && AllRead(m, engine, r) && p < |live|
    requires forall i, j :: 0 <= i < j < |live| ==> live[i] != live[j]
    ensures StampOf(After(m, engine, r), Key(engine, live[p])) ==
            if Chosen(m, engine, r, p) then r.now else StampOf(m, Key(engine, live[p]))
  {
    ReadExactlyChosen(m, engine, live, r, p);
    var keys := Keys(engine, r.ids);
    assert keys[r.running[p]] == Key(engine, live[p]);
    AdvanceStamp(m, engine, r.ids, r.running, r.answers, r.now, p);
  }

  ghost function Positions(running: seq<int>, xs: seq<int>): set<int> {
    set q | 0 <= q < |running| && running[q] in xs
  }

  lemma PositionsPeel(running: seq<int>, xs: seq<int>, q: int)
    requires Distinct(xs) && Increasing(running) && xs != [] && 0 <= q < |running| && running[q] == xs[0]
    ensures |Positions(running, xs)| == |Positions(running, xs[1..])| + 1
  {
    PositionsSplit(running, xs, q);
    assert |Positions(running, xs[1..]) + {q}| == |Positions(running, xs[1..])| + 1;
  }

  lemma PositionsSplit(running: seq<int>, xs: seq<int>, q: int)
    requires Distinct(xs) && Increasing(running) && xs != [] && 0 <= q < |running| && running[q] == xs[0]
    ensures Positions(running, xs) == Positions(running, xs[1..]) + {q} && q !in Positions(running, xs[1..])
  {
    assert xs == [xs[0]] + xs[1..];
    forall z | z in Positions(running, xs) ensures z in Positions(running, xs[1..]) + {q} {
      assert running[z] == xs[0] ==> z == q;
    }
  }

  lemma {:induction false} PositionsCount(running: seq<int>, xs: seq<int>)
    requires Distinct(xs) && Increasing(running) && forall i :: 0 <= i < |xs| ==> xs[i] in running
    ensures |Positions(running, xs)| == |xs|
  {
    if xs == [] {
      assert Positions(running, xs) == {};
    } else {
      PositionsCount(running, xs[1..]);
      var q :| 0 <= q < |running| && running[q] == xs[0];
      PositionsPeel(running, xs, q);
    }
  }

  /** The rotation picks of a round all stood in the queue of a container it passed over. */
  lemma PicksWereQueued(m: Memory, engine: string, live: seq<string>, r: Round, p: nat)
    requires RoundOver(r, live) && p < |live| && !Chosen(m, engine, r, p)
    ensures Positions(r.running, StaleJobs(m, Keys(engine, r.ids), r.running)) <= Queue(m, engine, live, p)
    ensures |Positions(r.running, StaleJobs(m, Keys(engine, r.ids), r.running))| >= STATS_ROTATION
  {
    var keys := Keys(engine, r.ids);
    var stale := StaleJobs(m, keys, r.running);
    JobsAreDistinctRunning(m, keys, r.running);
    RotationIsFair(m, keys, r.running, r.running[p]);
    StaleJobsDistinct(m, keys, r.running);
    forall i | 0 <= i < |stale| ensures stale[i] in r.running {
      assert stale[i] in stale;
    }
    PositionsCount(r.running, stale);
    forall q | q in Positions(r.running, stale) ensures q in Queue(m, engine, live, p) {
      assert Precedes(Staler(m, keys), r.running[q], r.running[p]);
      assert keys[r.running[q]] == Key(engine, live[q]) && keys[r.running[p]] == Key(engine, live[p]);
    }
  }

  /** A container sampled in a round leaves every queue it stood in. */
  lemma ChosenLeaveQueue(m: Memory, engine: string, live: seq<string>, r: Round, p: nat, q: nat)
    requires RoundOver(r, live) && AllRead(m, engine, r) && ClockAhead(m, r.now) && p < |live| && q < |live|
    requires forall i, j :: 0 <= i < j < |live| ==> live[i] != live[j]
    requires !Chosen(m, engine, r, p) && Ahead(After(m, engine, r), engine, live, q, p)
    ensures Ahead(m, engine, live, q, p) && !Chosen(m, engine, r, q)
  {
    StampsAfter(m, engine, live, r, p);
    StampsAfter(m, engine, live, r, q);
    assert StampOf(m, Key(engine, live[p])) < r.now;
  }

  /** A round that passes a container over takes at least eight out of its queue. */
  lemma RoundProgress(m: Memory, engine: string, live: seq<string>, r: Round, p: nat)
    requires RoundOver(r, live) && AllRead(m, engine, r) && ClockAhead(m, r.now) && p < |live|
    requires forall i, j :: 0 <= i < j < |live| ==> live[i] != live[j]
    requires !Chosen(m, engine, r, p)
    ensures |Queue(After(m, engine, r), engine, live, p)| + STATS_ROTATION <= |Queue(m, engine, live, p)|
  {
    var keys := Keys(engine, r.ids);
    PicksWereQueued(m, engine, live, r, p);
    var picks := Positions(r.running, StaleJobs(m, keys, r.running));
    var before, after := Queue(m, engine, live, p), Queue(After(m, engine, r), engine, live, p);
    forall q | q in after ensures q in before - picks {
      ChosenLeaveQueue(m, engine, live, r, p, q);
      assert |r.running| > STATS_LIMIT;
    }
    SubsetCount(after, before - picks);
    assert |before - picks| == |before| - |picks|;
  }

  lemma {:induction false} RotationReaches(m: Memory, engine: string, live: seq<string>, rounds: seq<Round>, p: nat)
    requires SteadyRun(m, engine, live, rounds) && p < |live|
    requires forall i, j :: 0 <= i < j < |live| ==> live[i] != live[j]
    requires |Queue(m, engine, live, p)| < STATS_ROTATION * |rounds|
    ensures EventuallyChosen(m, engine, live, rounds, p)
    decreases |rounds|
  {
    if !Chosen(m, engine, rounds[0], p) {
      RoundProgress(m, engine, live, rounds[0], p);
      RotationReaches(After(m, engine, rounds[0]), engine, live, rounds[1..], p);
    }
  }

  /** No starvation: whatever the CPU shares are, any running container is sampled
      within floor((n - 1) / 8) + 1 completed rounds. */
  lemma NoStarvation(m: Memory, engine: string, live: seq<string>, rounds: seq<Round>, p: nat)
    requires SteadyRun(m, engine, live, rounds) && p < |live|
    requires forall i, j :: 0 <= i < j < |live| ==> live[i] != live[j]
    requires |rounds| == (|live| - 1) / STATS_ROTATION + 1
    ensures EventuallyChosen(m, engine, live, rounds, p)
  {
    QueueBound(m, engine, live, p);
    RotationReaches(m, engine, live, rounds, p);
  }

  // ---- the collector object

  function ById(): (Row, Row) -> bool { (a: Row, b: Row) => StrLess(a.id, b.id) }

  /** The rows a round looks at: the first 512 by id. */
  function Listed(rows: seq<Row>): (r: seq<Row>)
    ensures |r| <= LIST_LIMIT
  {
    var sorted := StableSort(rows, ById());
    if |sorted| > LIST_LIMIT then sorted[..LIST_LIMIT] else sorted
  }

  predicate AllValid(rows: seq<Row>) { forall i :: 0 <= i < |rows| ==> ValidId(rows[i].id) }

  function Ids(rows: seq<Row>): (r: seq<string>)
    ensures |r| == |rows| && forall i :: 0 <= i < |rows| ==> r[i] == rows[i].id
  {
    seq(|rows|, i requires 0 <= i < |rows| => rows[i].id)
  }

  /** The indices of the running rows, in order. */
  function RunningIndices(rows: seq<Row>): (r: seq<int>)
    ensures InRange(r, |rows|) && Increasing(r)
    ensures forall i :: i in r <==> 0 <= i < |rows| && rows[i].state == "running"
  {
    if rows == [] then []
    else
      var before := RunningIndices(rows[..|rows| - 1]);
      if rows[|rows| - 1].state == "running" then before + [|rows| - 1] else before
  }

  function Answered(ids: seq<string>, jobs: seq<int>, answers: map<string, Stats>): nat
    requires InRange(jobs, |ids|)
  {
    if jobs == [] then 0
    else Answered(ids, jobs[..|jobs| - 1], answers) + if ids[jobs[|jobs| - 1]] in answers then 1 else 0
  }

  class DockerCollector {
    var previous: map<string, Cpu>
    var percent: map<string, real>
    var sampledAt: map<string, nat>

    ghost function View(): Memory
      reads this
    {
      Memory(previous, percent, sampledAt)
    }

    constructor ()
      ensures View() == Memory(map[], map[], map[])
    {
      previous, percent, sampledAt := map[], map[], map[];
    }

    /** Picks the jobs of a round. */
    method StatsJobs(keys: seq<string>, running: seq<int>) returns (jobs: seq<int>)
      requires InRange(running, |keys|)
      ensures jobs == Jobs(View(), keys, running)
    {
      var memory := Memory(previous, percent, sampledAt);
      if |running| <= STATS_LIMIT {
        return running;
      }
      assert memory == View();
      var busy := PickBusiest(memory, keys, StableSort(running, Busier(memory, keys)));
      assert busy == BusyJobs(memory, keys, running);
      jobs := FillRotation(StableSort(running, Staler(memory, keys)), busy);
      assert jobs == busy + StaleJobs(memory, keys, running);
    }

    static method PickBusiest(memory: Memory, keys: seq<string>, busiest: seq<int>) returns (jobs: seq<int>)
      ensures jobs == TakeKnown(memory, keys, busiest, STATS_LIMIT - STATS_ROTATION)
    {
      jobs := [];
      var limit := STATS_LIMIT - STATS_ROTATION;
      var i := 0;
      while i < |busiest| && |jobs| < limit && Percent(memory, keys, busiest[i]).Some?
        invariant 0 <= i == |jobs| <= |busiest| && |jobs| <= limit
        invariant TakeKnown(memory, keys, busiest, limit) == jobs + TakeKnown(memory, keys, busiest[i..], limit - i)
      {
        jobs := jobs + [busiest[i]];
        i := i + 1;
      }
    }

    static method FillRotation(stale: seq<int>, busy: seq<int>) returns (jobs: seq<int>)
      requires |busy| <= STATS_LIMIT
      ensures jobs == busy + FillStale(stale, Elements(busy), STATS_LIMIT - |busy|)
    {
      jobs := busy;
      var chosen := Elements(busy);
      var i := 0;
      while i < |stale| && |jobs| < STATS_LIMIT
        invariant 0 <= i <= |stale| && |jobs| <= STATS_LIMIT
        invariant busy + FillStale(stale, Elements(busy), STATS_LIMIT - |busy|) ==
                  jobs + FillStale(stale[i..], chosen, STATS_LIMIT - |jobs|)
      {
        if stale[i] !in chosen {
          chosen := chosen + {stale[i]};
          jobs := jobs + [stale[i]];
        }
        i := i + 1;
      }
    }

    /** One collection. `answers` holds what each container's stats call returned,
        if it was made and answered; a failed or cancelled round changes nothing. */
    method Collect(engine: string, infoOk: bool, listing: Option<seq<Row>>, answers: map<string, Stats>,
                   now: nat, cancelled: bool) returns (outcome: Outcome)
      modifies this
      ensures outcome.Collected? <==>
                infoOk && engine != "" && listing.Some? && AllValid(Listed(listing.value)) && !cancelled
      ensures outcome.Failed? ==> View() == old(View())
      ensures outcome.Collected? ==>
                var rows := Listed(listing.value);
                var running := RunningIndices(rows);
                && View() == Advance(old(View()), engine, Ids(rows), running, answers, now)
                && outcome.report.totalCount == |listing.value|
                && (outcome.report.truncated <==> |listing.value| > LIST_LIMIT)
                && outcome.report.statsCandidates == |running|
                && InRange(Jobs(old(View()), Keys(engine, Ids(rows)), running), |rows|)
                && outcome.report.statsRead ==
                   Answered(Ids(rows), Jobs(old(View()), Keys(engine, Ids(rows)), running), answers)
                && outcome.report.statsRead <= (if |running| < STATS_LIMIT then |running| else STATS_LIMIT)
    {
      if !infoOk || engine == "" || listing.None? {
        return Failed("docker_unavailable");
      }
      var rows := Listed(listing.value);
      var ok, running := Scan(rows);
      if !ok {
        return Failed("docker_unavailable");
      }
      var count := RunRound(engine, Ids(rows), running, answers, now, cancelled);
      if cancelled {
        return Failed("context canceled");
      }
      outcome := Collected(Report(|listing.value|, |listing.value| > LIST_LIMIT, |running|, count));
    }

    method RunRound(engine: string, ids: seq<string>, running: seq<int>, answers: map<string, Stats>,
                    now: nat, cancelled: bool) returns (count: nat)
      requires InRange(running, |ids|) && Increasing(running)
      modifies this
      ensures View() == if cancelled then old(View()) else Advance(old(View()), engine, ids, running, answers, now)
      ensures InRange(Jobs(old(View()), Keys(engine, ids), running), |ids|)
      ensures count == Answered(ids, Jobs(old(View()), Keys(engine, ids), running), answers)
      ensures count <= if |running| < STATS_LIMIT then |running| else STATS_LIMIT
    {
      var keys := Keys(engine, ids);
      var jobs := StatsJobs(keys, running);
      JobsInRange(View(), keys, running, |ids|);
      JobsAreDistinctRunning(View(), keys, running);
      var next, shares;
      next, shares, count := Sample(engine, ids, jobs, answers);
      if !cancelled {
        var live := Retain(keys, running);
        previous, percent, sampledAt := next, shares, live + (map k | k in next :: now);
      }
    }

    /** Checks the listed ids and collects the running rows. */
    method Scan(rows: seq<Row>) returns (ok: bool, running: seq<int>)
      ensures ok <==> AllValid(rows)
      ensures ok ==> running == RunningIndices(rows)
    {
      running := [];
      var i := 0;
      while i < |rows|
        invariant 0 <= i <= |rows|
        invariant forall j :: 0 <= j < i ==> ValidId(rows[j].id)
        invariant running == RunningIndices(rows[..i])
      {
        if !ValidId(rows[i].id) {
          return false, [];
        }
        assert rows[..i + 1][..i] == rows[..i];
        if rows[i].state == "running" {
          running := running + [i];
        }
        i := i + 1;
      }
      assert rows[..|rows|] == rows;
      ok := true;
    }

    /** One answered stats call. */
    method SampleOne(engine: string, id: string, answers: map<string, Stats>, cpus: map<string, Cpu>, known: map<string, real>)
      returns (next: map<string, Cpu>, shares: map<string, real>)
      requires id in answers
      ensures next == cpus[Key(engine, id) := answers[id].cpu]
      ensures var share := ShareOf(View(), engine, id, answers);
        shares == if share.Some? then known[Key(engine, id) := share.value] else known
    {
      var key := Key(engine, id);
      var stats := answers[id];
      if stats.precpu.system == 0 {
        stats := stats.(precpu := if key in previous then previous[key] else Cpu(0, 0, 0, 0));
      }
      next, shares := cpus[key := stats.cpu], known;
      var share := CpuPercent(stats);
      if share.Some? {
        shares := shares[key := share.value];
      }
    }

    /** The stats calls of a round; each is independent of the others. */
    method Sample(engine: string, ids: seq<string>, jobs: seq<int>, answers: map<string, Stats>)
      returns (next: map<string, Cpu>, shares: map<string, real>, count: nat)
      requires InRange(jobs, |ids|)
      ensures next == NextCpus(engine, ids, jobs, answers)
      ensures shares == NextShares(View(), engine, ids, jobs, answers)
      ensures count == Answered(ids, jobs, answers) && count <= |jobs|
    {
      next, shares, count := map[], map[], 0;
      var i := 0;
      while i < |jobs|
        invariant 0 <= i <= |jobs| && count == Answered(ids, jobs[..i], answers) && count <= i
        invariant next == NextCpus(engine, ids, jobs[..i], answers)
        invariant shares == NextShares(View(), engine, ids, jobs[..i], answers)
      {
        assert jobs[..i + 1][..i] == jobs[..i];
        if ids[jobs[i]] in answers {
          next, shares := SampleOne(engine, ids[jobs[i]], answers, next, shares);
          count := count + 1;
        }
        i := i + 1;
      }
      assert jobs[..|jobs|] == jobs;
    }

    /** The stamps of the containers that still run. */
    method Retain(keys: seq<string>, running: seq<int>) returns (live: map<string, nat>)
      requires InRange(running, |keys|)
      ensures live == (map k | k in sampledAt && RunningKey(keys, running, k) :: sampledAt[k])
    {
      live := map[];
      var i := 0;
      while i < |running|
        invariant 0 <= i <= |running|
        invariant forall k :: k in live <==> k in sampledAt && exists j :: 0 <= j < i && keys[running[j]] == k
        invariant forall k :: k in live ==> live[k] == sampledAt[k]
      {
        var key := keys[running[i]];
        if key in sampledAt {
          live := live[key := sampledAt[key]];
        }
        i := i + 1;
      }
    }
  }
}
