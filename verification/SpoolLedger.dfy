/** Conservation of stored samples over whole runs of the spool, crashes included: every
    storing is accounted for separately, also of samples that are equal. */
module SpoolLedger {
  import opened Text
  import opened Sorting
  import opened PendingSpool

  /** A sample without its server URL, which a replay may rewrite. */
  datatype Core = Core(id: string, sampledAt: string, payload: Payload)

  function CoreOf(s: Sample): Core { Core(s.id, s.sampledAt, s.payload) }

  /** The cores of some samples, each as often as it occurs. */
  function Bag(entries: seq<Sample>): multiset<Core> { multiset(Cores(entries)) }

  function Cores(entries: seq<Sample>): (r: seq<Core>)
    ensures |r| == |entries| && forall i :: 0 <= i < |r| ==> r[i] == CoreOf(entries[i])
  {
    seq(|entries|, i requires 0 <= i < |entries| => CoreOf(entries[i]))
  }

  /** The spool, every sample stored so far, and for those that left the spool the reason:
      accepted or rejected by the server, too old, evicted by size, or a repeated id. */
  datatype Ledger = Ledger(spool: Option<seq<Line>>, stored: multiset<Core>, accepted: multiset<Core>,
                           rejected: multiset<Core>, aged: multiset<Core>, evicted: multiset<Core>,
                           duplicates: multiset<Core>)

  const EMPTY := Ledger(None, multiset{}, multiset{}, multiset{}, multiset{}, multiset{}, multiset{})

  /** A crash strikes between file replacements: an interrupted enqueue or drain is one whose
      write did not happen, whatever was uploaded before. */
  datatype Event =
    | Enqueue(sample: Sample, now: int, readOk: bool, writeOk: bool)
    | Drain(url: string, now: int, post: nat -> Post, readOk: bool, writeOk: bool)

  // ---- why samples leave

  /** The samples whose id an earlier one has. */
  function Repeats(entries: seq<Sample>): multiset<Core> {
    if entries == [] then multiset{}
    else
      var rest, last := entries[..|entries| - 1], entries[|entries| - 1];
      if last.id in Ids(rest) then Repeats(rest) + multiset{CoreOf(last)} else Repeats(rest)
  }

  /** The others that are past the age limit. */
  function Aged(q: Policy, entries: seq<Sample>, now: int): multiset<Core> {
    if entries == [] then multiset{}
    else
      var rest, last := entries[..|entries| - 1], entries[|entries| - 1];
      if last.id !in Ids(rest) && TooOld(q, last, now) then Aged(q, rest, now) + multiset{CoreOf(last)}
      else Aged(q, rest, now)
  }

  /** Those of the first n samples whose upload ended in the given way. */
  function Dealt(entries: seq<Sample>, post: nat -> Post, n: nat, verdict: Post -> bool): multiset<Core>
    requires n <= |entries|
  {
    if n == 0 then multiset{}
    else
      var before := Dealt(entries, post, n - 1, verdict);
      if verdict(post(n - 1)) then before + multiset{CoreOf(entries[n - 1])} else before
  }

  function AcceptedBy(): Post -> bool { (p: Post) => Accepted(p) }

  function RejectedBy(): Post -> bool { (p: Post) => Permanent(p) }

  // ---- the two operations

  /** Pruning happens to the spool as it was read. */
  function NotePruned(q: Policy, l: Ledger, now: int): Ledger {
    var contents := Contents(q, l.spool);
    l.(aged := l.aged + Aged(q, contents, now), duplicates := l.duplicates + Repeats(contents))
  }

  function OnEnqueue(q: Policy, l: Ledger, sample: Sample, now: int): Ledger {
    var kept, filled := Prune(q, Contents(q, l.spool), now), Fill(q, sample);
    var noted := NotePruned(q, l, now).(stored := l.stored + multiset{CoreOf(filled)});
    if filled.id in Ids(kept) then
      noted.(spool := Stored(kept), duplicates := noted.duplicates + multiset{CoreOf(filled)})
    else
      var all := Arrivals(q, l.spool, sample, now);
      var k := Cutoff(q, all);
      noted.(spool := Stored(all[k..]), evicted := noted.evicted + Bag(all[..k]))
  }

  /** How many of the oldest samples do not fit. */
  function Cutoff(q: Policy, all: seq<Sample>): (k: nat)
    ensures k <= |all| && Fit(q, all) == all[k..]
  {
    FitShrinks(q, all);
    |all| - |Fit(q, all)|
  }

  lemma FitShrinks(q: Policy, all: seq<Sample>)
    ensures |Fit(q, all)| <= |all| && Fit(q, all) == all[|all| - |Fit(q, all)|..]
  {
    var k := FitIsLongestSuffix(q, all);
  }

  /** The books follow the store: the spool is what the store's enqueue leaves. */
  lemma BooksFollowEnqueue(q: Policy, l: Ledger, sample: Sample, now: int)
    ensures OnEnqueue(q, l, sample, now).spool == Stored(Enqueued(q, l.spool, sample, now))
  {
  }

  /** How many samples a drain has dealt with for good. */
  function Done(entries: seq<Sample>, end: DrainEnd): (n: nat)
    requires !end.Drained? ==> end.at < |entries|
    ensures n <= |entries|
  {
    if end.Drained? then |entries| else end.at
  }

  function OnDrain(q: Policy, l: Ledger, url: string, now: int, post: nat -> Post): Ledger {
    var all, end := Queue(q, l.spool, now), EndOfDrain(q, l.spool, url, now, post);
    if end.NoUrl? then l
    else
      var noted := NotePruned(q, l, now);
      noted.(spool := AfterDrain(q, l.spool, url, now, post),
             accepted := noted.accepted + Dealt(all, post, Done(all, end), AcceptedBy()),
             rejected := noted.rejected + Dealt(all, post, Done(all, end), RejectedBy()))
  }

  function Step(q: Policy, l: Ledger, e: Event): Ledger {
    match e
    case Enqueue(sample, now, readOk, writeOk) => if readOk && writeOk then OnEnqueue(q, l, sample, now) else l
    case Drain(url, now, post, readOk, writeOk) => if readOk && writeOk then OnDrain(q, l, url, now, post) else l
  }

  function Run(q: Policy, l: Ledger, es: seq<Event>): Ledger
    decreases |es|
  {
    if es == [] then l else Run(q, Step(q, l, es[0]), es[1..])
  }

  /** What an event makes of the spool, as the store's two operations say. */
  function StoreStep(q: Policy, spool: Option<seq<Line>>, e: Event): Option<seq<Line>> {
    match e
    case Enqueue(sample, now, readOk, writeOk) =>
      if readOk && writeOk then Stored(Enqueued(q, spool, sample, now)) else spool
    case Drain(url, now, post, readOk, writeOk) =>
      if readOk && writeOk then AfterDrain(q, spool, url, now, post) else spool
  }

  function StoreRun(q: Policy, spool: Option<seq<Line>>, es: seq<Event>): Option<seq<Line>>
    decreases |es|
  {
    if es == [] then spool else StoreRun(q, StoreStep(q, spool, es[0]), es[1..])
  }

  /** Over every run the spool in the books is the one the store leaves. */
  lemma {:induction false} BooksFollowStore(q: Policy, l: Ledger, es: seq<Event>)
    ensures Run(q, l, es).spool == StoreRun(q, l.spool, es)
    decreases |es|
  {
    if es != [] {
      if es[0].Enqueue? {
        BooksFollowEnqueue(q, l, es[0].sample, es[0].now);
      }
      BooksFollowStore(q, Step(q, l, es[0]), es[1..]);
    }
  }

  function Gone(l: Ledger): multiset<Core> { l.accepted + l.rejected + l.aged + l.evicted + l.duplicates }

  /** What was stored is what is spooled and what left, storing by storing. */
  ghost predicate Conserved(q: Policy, l: Ledger) { l.stored == Bag(Contents(q, l.spool)) + Gone(l) }

  // ---- bags

  lemma Assoc<T>(a: multiset<T>, b: multiset<T>, c: multiset<T>)
    ensures a + b + c == a + (b + c)
  {
  }

  lemma Swap<T>(a: multiset<T>, b: multiset<T>, c: multiset<T>)
    ensures a + b + c == a + c + b
  {
  }

  /** One more element joins any of three parts. */
  lemma Join<T>(k: multiset<T>, a: multiset<T>, r: multiset<T>, x: multiset<T>)
    ensures k + a + r + x == (k + x) + a + r == k + (a + x) + r == k + a + (r + x)
  {
    Assoc(k + a, r, x);
    Swap(k + a, r, x);
    Assoc(k, a, x);
    Swap(k, a, x);
  }

  lemma BagConcat(a: seq<Sample>, b: seq<Sample>)
    ensures Bag(a + b) == Bag(a) + Bag(b)
  {
    assert Cores(a + b) == Cores(a) + Cores(b);
  }

  lemma BagSnoc(s: seq<Sample>, x: Sample)
    ensures Bag(s + [x]) == Bag(s) + multiset{CoreOf(x)}
  {
    assert Cores(s + [x]) == Cores(s) + [CoreOf(x)];
  }

  lemma BagCut(s: seq<Sample>, k: nat)
    requires k <= |s|
    ensures Bag(s) == Bag(s[..k]) + Bag(s[k..]) == Bag(s[k..]) + Bag(s[..k])
  {
    assert s == s[..k] + s[k..];
    BagConcat(s[..k], s[k..]);
  }

  lemma BagLast(s: seq<Sample>)
    requires s != []
    ensures Bag(s) == Bag(s[..|s| - 1]) + multiset{CoreOf(s[|s| - 1])}
  {
    assert s == s[..|s| - 1] + [s[|s| - 1]];
    BagSnoc(s[..|s| - 1], s[|s| - 1]);
  }

  lemma {:induction false} BagInsert(s: seq<Sample>, x: Sample, less: (Sample, Sample) -> bool)
    ensures Bag(Insert(s, x, less)) == Bag(s) + multiset{CoreOf(x)}
  {
    if s == [] || !less(x, s[|s| - 1]) {
      BagSnoc(s, x);
    } else {
      var rest, last := s[..|s| - 1], s[|s| - 1];
      BagLast(s);
      BagInsert(rest, x, less);
      BagSnoc(Insert(rest, x, less), last);
      Swap(Bag(rest), multiset{CoreOf(x)}, multiset{CoreOf(last)});
    }
  }

  lemma {:induction false} BagSort(s: seq<Sample>, less: (Sample, Sample) -> bool)
    ensures Bag(StableSort(s, less)) == Bag(s)
  {
    if s != [] {
      BagLast(s);
      BagSort(s[..|s| - 1], less);
      BagInsert(StableSort(s[..|s| - 1], less), s[|s| - 1], less);
    }
  }

  lemma PruneStep(q: Policy, rest: seq<Sample>, last: Sample, now: int)
    ensures Bag(Prune(q, rest, now) + if last.id in Ids(rest) || TooOld(q, last, now) then [] else [last]) ==
            if last.id in Ids(rest) || TooOld(q, last, now) then Bag(Prune(q, rest, now))
            else Bag(Prune(q, rest, now)) + multiset{CoreOf(last)}
  {
    BagSnoc(Prune(q, rest, now), last);
    assert Prune(q, rest, now) + [] == Prune(q, rest, now);
  }

  /** Pruning splits the samples into those kept, those too old and those repeated. */
  lemma {:induction false} PruneSplits(q: Policy, entries: seq<Sample>, now: int)
    ensures Bag(entries) == Bag(Prune(q, entries, now)) + Aged(q, entries, now) + Repeats(entries)
  {
    if entries != [] {
      var rest, last := entries[..|entries| - 1], entries[|entries| - 1];
      PruneSplits(q, rest, now);
      BagLast(entries);
      PruneStep(q, rest, last, now);
      Join(Bag(Prune(q, rest, now)), Aged(q, rest, now), Repeats(rest), multiset{CoreOf(last)});
    }
  }

  lemma OneVerdict(p: Post)
    ensures AcceptedBy()(p) == Accepted(p) && RejectedBy()(p) == Permanent(p) && !(Accepted(p) && Permanent(p))
  {
  }

  /** What a drain has dealt with was accepted or rejected. */
  lemma {:induction false} DealtSplits(entries: seq<Sample>, post: nat -> Post, n: nat)
    requires n <= |entries| && forall k :: 0 <= k < n ==> Accepted(post(k)) || Permanent(post(k))
    ensures Bag(entries[..n]) == Dealt(entries, post, n, AcceptedBy()) + Dealt(entries, post, n, RejectedBy())
  {
    if n > 0 {
      DealtSplits(entries, post, n - 1);
      assert entries[..n] == entries[..n - 1] + [entries[n - 1]];
      BagSnoc(entries[..n - 1], entries[n - 1]);
      var yes, no := Dealt(entries, post, n - 1, AcceptedBy()), Dealt(entries, post, n - 1, RejectedBy());
      Assoc(yes, no, multiset{CoreOf(entries[n - 1])});
      Swap(yes, no, multiset{CoreOf(entries[n - 1])});
      OneVerdict(post(n - 1));
    }
  }

  /** Rewriting the server URL of the first sample left does not touch the bag. */
  lemma RemainingBag(replay: string, all: seq<Sample>, end: DrainEnd)
    requires !end.NoUrl? && (end.Stopped? ==> end.at < |all|)
    ensures Bag(all) == Bag(all[..Done(all, end)]) + Bag(Remaining(replay, all, end))
  {
    BagCut(all, Done(all, end));
    assert Cores(all[Done(all, end)..]) == Cores(Remaining(replay, all, end));
  }

  // ---- conservation

  /** Part of what is kept leaves for one of the reasons. */
  lemma Leaves<T>(stored: multiset<T>, kept: multiset<T>, disk: multiset<T>, left: multiset<T>, gone: multiset<T>)
    requires stored == kept + gone && kept == disk + left
    ensures stored == disk + (gone + left)
  {
    Assoc(disk, left, gone);
    Swap(disk, left, gone);
    Assoc(disk, gone, left);
  }

  lemma EnqueueDuplicateConserves(q: Policy, l: Ledger, sample: Sample, now: int)
    requires Conserved(q, l) && Fill(q, sample).id in Ids(Prune(q, Contents(q, l.spool), now))
    ensures Conserved(q, OnEnqueue(q, l, sample, now))
  {
    PruneSplits(q, Contents(q, l.spool), now);
    QueueFilled(q, l.spool, now);
    ReadBack(q, Prune(q, Contents(q, l.spool), now));
  }

  lemma ArrivalsBag(q: Policy, spool: Option<seq<Line>>, sample: Sample, now: int)
    ensures Bag(Arrivals(q, spool, sample, now)) ==
            Bag(Prune(q, Contents(q, spool), now)) + multiset{CoreOf(Fill(q, sample))}
  {
    var kept := Prune(q, Contents(q, spool), now);
    BagSort(kept + [Fill(q, sample)], Earlier(q));
    BagSnoc(kept, Fill(q, sample));
  }

  lemma SuffixBag(q: Policy, all: seq<Sample>, k: nat)
    requires AllFilled(q, all) && k <= |all|
    ensures Bag(all) == Bag(Contents(q, Stored(all[k..]))) + Bag(all[..k])
  {
    ReadBack(q, all[k..]);
    BagCut(all, k);
  }

  lemma PrunedConserves(q: Policy, l: Ledger, now: int)
    requires Conserved(q, l)
    ensures l.stored == Bag(Prune(q, Contents(q, l.spool), now)) + Gone(NotePruned(q, l, now))
  {
    PruneSplits(q, Contents(q, l.spool), now);
  }

  lemma GoneEvicted(l: Ledger, left: multiset<Core>)
    ensures Gone(l.(evicted := l.evicted + left)) == Gone(l) + left
  {
  }

  /** A new sample joins what is kept. */
  lemma Arrives<T>(stored: multiset<T>, kept: multiset<T>, gone: multiset<T>, x: multiset<T>)
    requires stored == kept + gone
    ensures stored + x == kept + x + gone
  {
    Swap(kept, gone, x);
  }

  lemma ArrivalConserves(q: Policy, noted: Ledger, kept: multiset<Core>, core: multiset<Core>, all: seq<Sample>, k: nat)
    requires noted.stored == kept + Gone(noted) && Bag(all) == kept + core && AllFilled(q, all) && k <= |all|
    ensures Conserved(q, noted.(stored := noted.stored + core, spool := Stored(all[k..]),
                                evicted := noted.evicted + Bag(all[..k])))
  {
    SuffixBag(q, all, k);
    Arrives(noted.stored, kept, Gone(noted), core);
    Leaves(noted.stored + core, Bag(all), Bag(Contents(q, Stored(all[k..]))), Bag(all[..k]), Gone(noted));
    GoneEvicted(noted, Bag(all[..k]));
  }

  lemma EnqueueNewConserves(q: Policy, l: Ledger, sample: Sample, now: int)
    requires Conserved(q, l) && Fill(q, sample).id !in Ids(Prune(q, Contents(q, l.spool), now))
    ensures Conserved(q, OnEnqueue(q, l, sample, now))
  {
    PrunedConserves(q, l, now);
    ArrivalsBag(q, l.spool, sample, now);
    ArrivalsFilled(q, l.spool, sample, now);
    ArrivalConserves(q, NotePruned(q, l, now), Bag(Prune(q, Contents(q, l.spool), now)),
                     multiset{CoreOf(Fill(q, sample))}, Arrivals(q, l.spool, sample, now),
                     Cutoff(q, Arrivals(q, l.spool, sample, now)));
  }

  lemma LeftBag(q: Policy, replay: string, all: seq<Sample>, post: nat -> Post, end: DrainEnd)
    requires AllFilled(q, all) && !end.NoUrl? && (end.Stopped? ==> end.at < |all|)
    requires forall k :: 0 <= k < Done(all, end) ==> Accepted(post(k)) || Permanent(post(k))
    ensures Bag(all) == Bag(Contents(q, Stored(Remaining(replay, all, end))))
                        + Dealt(all, post, Done(all, end), AcceptedBy()) + Dealt(all, post, Done(all, end), RejectedBy())
  {
    DealtSplits(all, post, Done(all, end));
    RemainingBag(replay, all, end);
    RemainingFilled(q, replay, all, end);
    ReadBack(q, Remaining(replay, all, end));
    Assoc(Bag(Remaining(replay, all, end)), Dealt(all, post, Done(all, end), AcceptedBy()),
          Dealt(all, post, Done(all, end), RejectedBy()));
  }

  lemma DrainBag(q: Policy, spool: Option<seq<Line>>, url: string, now: int, post: nat -> Post)
    requires !EndOfDrain(q, spool, url, now, post).NoUrl?
    ensures var all, end := Queue(q, spool, now), EndOfDrain(q, spool, url, now, post);
            Bag(Prune(q, Contents(q, spool), now)) ==
            Bag(Contents(q, AfterDrain(q, spool, url, now, post)))
            + Dealt(all, post, Done(all, end), AcceptedBy()) + Dealt(all, post, Done(all, end), RejectedBy())
  {
    var all, end := Queue(q, spool, now), EndOfDrain(q, spool, url, now, post);
    BagSort(Prune(q, Contents(q, spool), now), Earlier(q));
    DrainPrefix(TrimSpace(url), all, post, 0);
    QueueFilled(q, spool, now);
    LeftBag(q, TrimSpace(url), all, post, end);
  }

  lemma DrainConserves(q: Policy, l: Ledger, url: string, now: int, post: nat -> Post)
    requires Conserved(q, l)
    ensures Conserved(q, OnDrain(q, l, url, now, post))
  {
    if !EndOfDrain(q, l.spool, url, now, post).NoUrl? {
      PruneSplits(q, Contents(q, l.spool), now);
      DrainBag(q, l.spool, url, now, post);
    }
  }

  lemma StepConserves(q: Policy, l: Ledger, e: Event)
    requires Conserved(q, l)
    ensures Conserved(q, Step(q, l, e))
  {
    match e
    case Enqueue(sample, now, readOk, writeOk) =>
      if Fill(q, sample).id in Ids(Prune(q, Contents(q, l.spool), now)) {
        EnqueueDuplicateConserves(q, l, sample, now);
      } else {
        EnqueueNewConserves(q, l, sample, now);
      }
    case Drain(url, now, post, readOk, writeOk) => DrainConserves(q, l, url, now, post);
  }

  /** Over every run of enqueues and drains, with any upload outcomes, failed writes and
      crashes, each storing of a sample is still spooled or has left for exactly one reason:
      accepted, rejected with 400, 413 or 422, too old, evicted by size, or a repeated id;
      and the spool holds nothing else. */
  lemma {:induction false} SpoolConserves(q: Policy, l: Ledger, es: seq<Event>)
    requires Conserved(q, l)
    ensures Conserved(q, Run(q, l, es))
    decreases |es|
  {
    if es != [] {
      StepConserves(q, l, es[0]);
      SpoolConserves(q, Step(q, l, es[0]), es[1..]);
    }
  }

  lemma EveryRunConserves(q: Policy, es: seq<Event>)
    ensures Conserved(q, Run(q, EMPTY, es))
  {
    SpoolConserves(q, EMPTY, es);
  }
}
