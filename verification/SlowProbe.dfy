/** The background slow probe: at most one worker, whose outcome comes back over a one-slot
    channel and is merged by the next refresh. */
module SlowProbe {
  import opened Text

  const SECOND := 1_000_000_000
  const DEFAULT_INTERVAL := 60
  const CHANNEL_SLOTS := 1

  datatype Outcome<A, M, S> = Outcome(assets: A, metrics: M, overtime: bool, system: Option<S>)

  /** A worker start: when, under which interval, and with which hardware cache. */
  datatype Launch<A> = Launch(at: int, interval: int, input: A)

  /** The sampler's fields, the channel and the running workers; and the history: all
      launches and all outcomes sent, of which the first `runs` have been merged. */
  datatype Sampler<A, M, S> = Sampler(
    pending: bool, nextAt: int, assets: A, slow: Option<M>, system: Option<(S, int)>, runs: nat, overruns: nat,
    channel: seq<Outcome<A, M, S>>, workers: nat,
    launches: seq<Launch<A>>, sent: seq<Outcome<A, M, S>>)

  datatype Event<A, M, S> =
    | Refresh(now: int, configured: int)
    | Finish(outcome: Outcome<A, M, S>)

  function Initial<A, M, S>(assets: A): Sampler<A, M, S> {
    Sampler(false, 0, assets, None, None, 0, 0, [], 0, [], [])
  }

  function Interval(configured: int): (i: int)
    ensures i > 0
  {
    if configured > 0 then configured else DEFAULT_INTERVAL
  }

  // ---- steps

  function Receive<A, M, S>(merge: (M, M) -> M, s: Sampler<A, M, S>, now: int): Sampler<A, M, S> {
    if s.channel == [] then s
    else
      var o := s.channel[0];
      s.(channel := s.channel[1..], pending := false, assets := o.assets, runs := s.runs + 1,
         overruns := s.overruns + if o.overtime then 1 else 0,
         slow := Some(if s.slow.None? then o.metrics else merge(s.slow.value, o.metrics)),
         system := if o.system.Some? then Some((o.system.value, now)) else s.system)
  }

  function Start<A, M, S>(s: Sampler<A, M, S>, now: int, configured: int): Sampler<A, M, S> {
    if s.pending || now < s.nextAt then s
    else
      s.(pending := true, nextAt := now + Interval(configured) * SECOND, workers := s.workers + 1,
         launches := s.launches + [Launch(now, Interval(configured), s.assets)])
  }

  /** A worker that finds the channel full waits. */
  predicate CanSend<A, M, S>(s: Sampler<A, M, S>) { |s.channel| < CHANNEL_SLOTS }

  function Step<A, M, S>(merge: (M, M) -> M, s: Sampler<A, M, S>, e: Event<A, M, S>): Sampler<A, M, S> {
    match e
    case Refresh(now, configured) => Start(Receive(merge, s, now), now, configured)
    case Finish(o) =>
      if s.workers == 0 || !CanSend(s) then s
      else s.(channel := s.channel + [o], workers := s.workers - 1, sent := s.sent + [o])
  }

  function Run<A, M, S>(merge: (M, M) -> M, s: Sampler<A, M, S>, events: seq<Event<A, M, S>>): Sampler<A, M, S> {
    if events == [] then s
    else Step(merge, Run(merge, s, events[..|events| - 1]), events[|events| - 1])
  }

  class SlowSampler<A, M, S> {
    const merge: (M, M) -> M
    var state: Sampler<A, M, S>

    constructor (merge: (M, M) -> M, assets: A)
      ensures this.merge == merge && state == Initial(assets)
    {
      this.merge := merge;
      state := Initial(assets);
    }

    /** Takes a waiting outcome, if there is one. */
    method Drain(now: int)
      modifies this`state
      ensures state == Receive(merge, old(state), now)
    {
      if |state.channel| > 0 {
        var outcome := state.channel[0];
        state := state.(channel := state.channel[1..], pending := false, assets := outcome.assets, runs := state.runs + 1);
        if outcome.overtime {
          state := state.(overruns := state.overruns + 1);
        }
        match state.slow {
          case None => state := state.(slow := Some(outcome.metrics));
          case Some(last) => state := state.(slow := Some(merge(last, outcome.metrics)));
        }
        if outcome.system.Some? {
          state := state.(system := Some((outcome.system.value, now)));
        }
      }
    }

    /** Drains the channel, then starts a worker when none is pending and the time has
        come. */
    method RefreshSlow(now: int, configured: int)
      modifies this`state
      ensures state == Step(merge, old(state), Refresh(now, configured))
    {
      Drain(now);
      if state.pending || now < state.nextAt {
        return;
      }
      state := state.(pending := true, nextAt := now + Interval(configured) * SECOND, workers := state.workers + 1,
                      launches := state.launches + [Launch(now, Interval(configured), state.assets)]);
    }
  }

  // ---- the invariant

  /** Pending exactly while one worker runs or one outcome waits, never both or more. */
  ghost predicate SingleFlight<A, M, S>(s: Sampler<A, M, S>) {
    s.workers + |s.channel| == if s.pending then 1 else 0
  }

  /** What has been sent is what was merged, in order, and then what waits. */
  ghost predicate Accounted<A, M, S>(s: Sampler<A, M, S>) {
    && s.runs + |s.channel| == |s.sent| && s.channel == s.sent[s.runs..]
    && |s.sent| + s.workers == |s.launches|
  }

  function Merged<A, M, S>(merge: (M, M) -> M, sent: seq<Outcome<A, M, S>>, n: nat): Option<M>
    requires n <= |sent|
  {
    if n == 0 then None
    else
      var before := Merged(merge, sent, n - 1);
      Some(if before.None? then sent[n - 1].metrics else merge(before.value, sent[n - 1].metrics))
  }

  /** The hardware cache after the first n outcomes. */
  function Cache<A, M, S>(first: A, sent: seq<Outcome<A, M, S>>, n: nat): A
    requires n <= |sent|
  {
    if n == 0 then first else sent[n - 1].assets
  }

  ghost predicate Current<A, M, S>(merge: (M, M) -> M, first: A, s: Sampler<A, M, S>) {
    s.runs <= |s.sent| && s.slow == Merged(merge, s.sent, s.runs) && s.assets == Cache(first, s.sent, s.runs)
  }

  /** Each worker starts from what the previous one left, no earlier than allowed. */
  ghost predicate Spaced<A, M, S>(first: A, s: Sampler<A, M, S>) {
    && (forall i :: 0 <= i < |s.launches| ==> s.launches[i].interval > 0)
    && (forall i :: 0 <= i < |s.launches| ==> i <= |s.sent| && s.launches[i].input == Cache(first, s.sent, i))
    && (forall i, j :: 0 <= i < j < |s.launches| ==>
          s.launches[j].at >= s.launches[i].at + s.launches[i].interval * SECOND)
    && (s.launches != [] ==>
          var l := s.launches[|s.launches| - 1]; s.nextAt == l.at + l.interval * SECOND)
  }

  ghost predicate Inv<A, M, S>(merge: (M, M) -> M, first: A, s: Sampler<A, M, S>) {
    SingleFlight(s) && Accounted(s) && Current(merge, first, s) && Spaced(first, s)
  }

  lemma {:induction false} MergedSnoc<A, M, S>(merge: (M, M) -> M, sent: seq<Outcome<A, M, S>>, o: Outcome<A, M, S>, n: nat)
    requires n <= |sent|
    ensures Merged(merge, sent + [o], n) == Merged(merge, sent, n)
  {
    if n > 0 {
      MergedSnoc(merge, sent, o, n - 1);
    }
  }

  lemma ReceiveKeeps<A, M, S>(merge: (M, M) -> M, first: A, s: Sampler<A, M, S>, now: int)
    requires Inv(merge, first, s)
    ensures Inv(merge, first, Receive(merge, s, now))
    ensures Receive(merge, s, now).channel == []
  {
  }

  lemma StartKeeps<A, M, S>(merge: (M, M) -> M, first: A, s: Sampler<A, M, S>, now: int, configured: int)
    requires Inv(merge, first, s) && s.channel == []
    ensures Inv(merge, first, Start(s, now, configured))
  {
    var r := Start(s, now, configured);
    if r != s {
      StartSpaced(first, s, now, configured);
    }
  }

  lemma StartSpaced<A, M, S>(first: A, s: Sampler<A, M, S>, now: int, configured: int)
    requires Spaced(first, s) && !s.pending && now >= s.nextAt
    requires |s.launches| == |s.sent| && s.assets == Cache(first, s.sent, |s.sent|)
    ensures Spaced(first, Start(s, now, configured))
  {
    var n := |s.launches|;
    if n > 0 {
      forall i | 0 <= i < n ensures now >= s.launches[i].at + s.launches[i].interval * SECOND {
        assert i < n - 1 ==> s.launches[n - 1].at >= s.launches[i].at + s.launches[i].interval * SECOND;
      }
    }
  }

  lemma FinishKeeps<A, M, S>(merge: (M, M) -> M, first: A, s: Sampler<A, M, S>, o: Outcome<A, M, S>)
    requires Inv(merge, first, s) && s.workers > 0
    ensures Inv(merge, first, Step(merge, s, Finish(o)))
  {
    MergedSnoc(merge, s.sent, o, s.runs);
  }

  lemma StepKeeps<A, M, S>(merge: (M, M) -> M, first: A, s: Sampler<A, M, S>, e: Event<A, M, S>)
    requires Inv(merge, first, s)
    ensures Inv(merge, first, Step(merge, s, e))
  {
    match e
    case Refresh(now, configured) =>
      ReceiveKeeps(merge, first, s, now);
      StartKeeps(merge, first, Receive(merge, s, now), now, configured);
    case Finish(o) =>
      if s.workers > 0 {
        FinishKeeps(merge, first, s, o);
      }
  }

  /** Every reachable state satisfies the invariant. */
  lemma {:induction false} RunKeeps<A, M, S>(merge: (M, M) -> M, first: A, events: seq<Event<A, M, S>>)
    ensures Inv(merge, first, Run(merge, Initial(first), events))
  {
    if events != [] {
      RunKeeps(merge, first, events[..|events| - 1]);
      StepKeeps(merge, first, Run(merge, Initial(first), events[..|events| - 1]), events[|events| - 1]);
    }
  }

  // ---- theorems

  /** In every run: the pending flag says exactly whether a worker runs or an outcome
      waits, there is never more than one of either, and a worker never waits to send. */
  lemma {:induction false} SingleFlightAlways<A, M, S>(merge: (M, M) -> M, first: A, events: seq<Event<A, M, S>>)
    ensures var s := Run(merge, Initial(first), events);
      && (s.pending <==> s.workers > 0 || s.channel != [])
      && s.workers + |s.channel| <= 1
      && (s.workers > 0 ==> CanSend(s))
  {
    RunKeeps(merge, first, events);
  }

  /** In every run: each launch yields one outcome, outcomes are merged exactly once and in
      the order they were sent, and each worker started from the cache the previous left. */
  lemma {:induction false} MergedExactlyOnce<A, M, S>(merge: (M, M) -> M, first: A, events: seq<Event<A, M, S>>)
    ensures var s := Run(merge, Initial(first), events);
      && s.runs <= |s.sent| && s.sent == s.sent[..s.runs] + s.channel
      && s.slow == Merged(merge, s.sent, s.runs)
      && |s.launches| == |s.sent| + s.workers
      && forall i :: 0 <= i < |s.launches| ==> i <= |s.sent| && s.launches[i].input == Cache(first, s.sent, i)
  {
    RunKeeps(merge, first, events);
  }

  /** In every run: two launches are at least the earlier one's interval apart. */
  lemma {:induction false} LaunchesAreSpaced<A, M, S>(merge: (M, M) -> M, first: A, events: seq<Event<A, M, S>>, i: nat, j: nat)
    requires i < j < |Run(merge, Initial(first), events).launches|
    ensures var launches := Run(merge, Initial(first), events).launches;
      launches[j].at >= launches[i].at + launches[i].interval * SECOND > launches[i].at
  {
    RunKeeps(merge, first, events);
  }

  // ---- progress

  /** In every reachable state: a refresh starts a worker exactly if none runs and the time
      has come, from the newest cache, and with the configured interval or else 60 seconds;
      the next one may start when that interval is over. */
  lemma {:induction false} RefreshLaunchesIff<A, M, S>(merge: (M, M) -> M, first: A, events: seq<Event<A, M, S>>, now: int, configured: int)
    ensures var s := Run(merge, Initial(first), events);
      var r := Step(merge, s, Refresh(now, configured));
      if s.workers == 0 && now >= s.nextAt then
        var interval := if configured >= 1 then configured else 60;
        && r.launches == s.launches + [Launch(now, interval, Cache(first, s.sent, |s.sent|))]
        && r.workers == 1 && r.pending && r.nextAt == now + interval * 1_000_000_000
      else r.launches == s.launches && r.workers == s.workers && r.nextAt == s.nextAt
  {
    RunKeeps(merge, first, events);
  }

  /** In every reachable state a refresh takes the waiting outcome, if there is one. */
  lemma {:induction false} RefreshDrains<A, M, S>(merge: (M, M) -> M, first: A, events: seq<Event<A, M, S>>, now: int, configured: int)
    ensures var s := Run(merge, Initial(first), events);
      var r := Step(merge, s, Refresh(now, configured));
      && r.channel == [] && r.runs == |s.sent| && r.sent == s.sent && r.slow == Merged(merge, s.sent, |s.sent|)
      && (s.channel != [] && s.channel[0].system.Some? ==> r.system == Some((s.channel[0].system.value, now)))
      && (s.channel == [] || s.channel[0].system.None? ==> r.system == s.system)
  {
    RunKeeps(merge, first, events);
    ReceiveDrains(merge, first, Run(merge, Initial(first), events), now);
  }

  lemma ReceiveDrains<A, M, S>(merge: (M, M) -> M, first: A, s: Sampler<A, M, S>, now: int)
    requires Inv(merge, first, s)
    ensures var r := Receive(merge, s, now);
      r.channel == [] && r.runs == |s.sent| && r.sent == s.sent && r.slow == Merged(merge, s.sent, |s.sent|)
  {
    ReceiveKeeps(merge, first, s, now);
  }

  /** A worker's outcome reaches the channel at once. */
  lemma {:induction false} FinishSends<A, M, S>(merge: (M, M) -> M, first: A, events: seq<Event<A, M, S>>, o: Outcome<A, M, S>)
    requires Run(merge, Initial(first), events).workers > 0
    ensures var s := Run(merge, Initial(first), events);
      var r := Step(merge, s, Finish(o)); r.channel == [o] && r.workers == 0 && r.sent == s.sent + [o]
  {
    RunKeeps(merge, first, events);
  }

  function Overtimes<A, M, S>(sent: seq<Outcome<A, M, S>>, n: nat): nat
    requires n <= |sent|
  {
    if n == 0 then 0 else Overtimes(sent, n - 1) + if sent[n - 1].overtime then 1 else 0
  }

  lemma {:induction false} OvertimesSnoc<A, M, S>(sent: seq<Outcome<A, M, S>>, o: Outcome<A, M, S>, n: nat)
    requires n <= |sent|
    ensures Overtimes(sent + [o], n) == Overtimes(sent, n)
  {
    if n > 0 {
      OvertimesSnoc(sent, o, n - 1);
    }
  }

  /** In every run the overrun counter is the number of merged outcomes over their budget. */
  lemma {:induction false} OverrunsCounted<A, M, S>(merge: (M, M) -> M, first: A, events: seq<Event<A, M, S>>)
    ensures var s := Run(merge, Initial(first), events); s.runs <= |s.sent| && s.overruns == Overtimes(s.sent, s.runs)
  {
    RunKeeps(merge, first, events);
    if events != [] {
      var init, e := events[..|events| - 1], events[|events| - 1];
      OverrunsCounted(merge, first, init);
      RunKeeps(merge, first, init);
      OverrunsStep(merge, first, Run(merge, Initial(first), init), e);
    }
  }

  lemma OverrunsStep<A, M, S>(merge: (M, M) -> M, first: A, s: Sampler<A, M, S>, e: Event<A, M, S>)
    requires Inv(merge, first, s) && s.overruns == Overtimes(s.sent, s.runs)
    ensures var r := Step(merge, s, e); r.runs <= |r.sent| && r.overruns == Overtimes(r.sent, r.runs)
  {
    if e.Finish? {
      OvertimesSnoc(s.sent, e.outcome, s.runs);
    }
  }
}
