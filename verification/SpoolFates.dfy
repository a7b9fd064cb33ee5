/** Why samples leave the spool, in terms of HTTP statuses and clock arithmetic. */
module SpoolFates {
  import opened Text
  import opened Picking
  import opened PendingSpool
  import opened SpoolLedger

  // ---- uploads

  /** The server took the sample. */
  predicate Taken(p: Post) { p.HttpStatus? && p.code < 300 }

  /** The server will never take it: bad request, too large, or unprocessable. */
  predicate Refused(p: Post) { p == HttpStatus(400) || p == HttpStatus(413) || p == HttpStatus(422) }

  /** It may be taken later. */
  predicate Postponed(p: Post) {
    p.NoResponse? || (p.code >= 300 && p.code != 400 && p.code != 413 && p.code != 422)
  }

  lemma OneOutcome(p: Post)
    ensures Accepted(p) <==> Taken(p)
    ensures Permanent(p) <==> Refused(p)
    ensures Postponed(p) <==> !Taken(p) && !Refused(p)
  {
  }

  /** Where a drain of a queue ends, and what is left of it. */
  ghost predicate Ends(q: Policy, replay: string, all: seq<Sample>, post: nat -> Post, n: nat, left: seq<Sample>) {
    && n <= |all| && (forall k :: 0 <= k < n ==> Taken(post(k)) || Refused(post(k)))
    && (n < |all| ==> Postponed(post(n)))
    && left == if n == |all| then []
               else [all[n].(serverUrl := if replay != "" then replay else TrimSpace(all[n].serverUrl))] + all[n + 1..]
  }

  lemma QueueEnds(q: Policy, replay: string, all: seq<Sample>, post: nat -> Post) returns (n: nat)
    requires AllFilled(q, all) && !DrainFrom(replay, all, post, 0).NoUrl?
    ensures Ends(q, replay, all, post, n, Contents(q, Stored(Remaining(replay, all, DrainFrom(replay, all, post, 0)))))
  {
    var end := DrainFrom(replay, all, post, 0);
    DrainPrefix(replay, all, post, 0);
    n := if end.Drained? then |all| else end.at;
    forall k | 0 <= k < n ensures Taken(post(k)) || Refused(post(k)) {
      OneOutcome(post(k));
    }
    OneOutcome(post(n));
    RemainingFilled(q, replay, all, end);
    ReadBack(q, Remaining(replay, all, end));
  }

  /** A drain to a server deals with a prefix of the queue: every upload before the end was
      taken or refused; it ends at the first one that is postponed, and then exactly the
      samples from there on stay, or at the end of the queue, and then none stays. */
  lemma DrainEndsAtFirstPostponed(q: Policy, spool: Option<seq<Line>>, url: string, now: int, post: nat -> Post)
    returns (n: nat)
    requires TrimSpace(url) != ""
    ensures Ends(q, TrimSpace(url), Queue(q, spool, now), post, n, Contents(q, AfterDrain(q, spool, url, now, post)))
  {
    QueueFilled(q, spool, now);
    DrainPrefix(TrimSpace(url), Queue(q, spool, now), post, 0);
    n := QueueEnds(q, TrimSpace(url), Queue(q, spool, now), post);
  }

  lemma {:induction false} OwnServerEnd(all: seq<Sample>, post: nat -> Post, i: nat)
    requires i <= |all| && !DrainFrom("", all, post, i).Drained?
    ensures var end := DrainFrom("", all, post, i); end.NoUrl? <==> TrimSpace(all[end.at].serverUrl) == ""
    decreases |all| - i
  {
    if TrimSpace(all[i].serverUrl) != "" && (Accepted(post(i)) || Permanent(post(i))) {
      OwnServerEnd(all, post, i + 1);
    }
  }

  /** A drain of a queue without a current server stops short of a sample without its own. */
  ghost predicate Strands(all: seq<Sample>, post: nat -> Post, n: nat) {
    && n < |all| && TrimSpace(all[n].serverUrl) == ""
    && forall k :: 0 <= k < n ==> Taken(post(k)) || Refused(post(k))
  }

  lemma QueueStrands(all: seq<Sample>, post: nat -> Post) returns (n: nat)
    requires DrainFrom("", all, post, 0).NoUrl?
    ensures Strands(all, post, n)
  {
    DrainPrefix("", all, post, 0);
    OwnServerEnd(all, post, 0);
    n := DrainFrom("", all, post, 0).at;
    forall k | 0 <= k < n ensures Taken(post(k)) || Refused(post(k)) {
      OneOutcome(post(k));
    }
  }

  /** Without a current server each sample goes to its own, and the drain ends as before; one
      that meets a sample without any server leaves the spool file as it was. */
  lemma OwnServers(q: Policy, spool: Option<seq<Line>>, url: string, now: int, post: nat -> Post) returns (n: nat)
    requires TrimSpace(url) == ""
    ensures || Ends(q, "", Queue(q, spool, now), post, n, Contents(q, AfterDrain(q, spool, url, now, post)))
            || (Strands(Queue(q, spool, now), post, n) && AfterDrain(q, spool, url, now, post) == spool)
  {
    if DrainFrom("", Queue(q, spool, now), post, 0).NoUrl? {
      n := QueueStrands(Queue(q, spool, now), post);
    } else {
      QueueFilled(q, spool, now);
      n := QueueEnds(q, "", Queue(q, spool, now), post);
    }
  }

  lemma EndsKeep(q: Policy, replay: string, all: seq<Sample>, post: nat -> Post, n: nat, left: seq<Sample>, k: nat)
    requires Ends(q, replay, all, post, n, left) && k < |all| && Postponed(post(k))
    ensures exists x :: x in left && CoreOf(x) == CoreOf(all[k])
  {
    OneOutcome(post(k));
    assert n <= k && left[k - n] in left && CoreOf(left[k - n]) == CoreOf(all[k]);
  }

  /** So a sample whose upload was postponed is never dropped by that drain. */
  lemma PostponedStays(q: Policy, spool: Option<seq<Line>>, url: string, now: int, post: nat -> Post, k: nat)
    requires TrimSpace(url) != "" && k < |Queue(q, spool, now)| && Postponed(post(k))
    ensures exists x :: x in Contents(q, AfterDrain(q, spool, url, now, post)) && CoreOf(x) == CoreOf(Queue(q, spool, now)[k])
  {
    var n := DrainEndsAtFirstPostponed(q, spool, url, now, post);
    EndsKeep(q, TrimSpace(url), Queue(q, spool, now), post, n, Contents(q, AfterDrain(q, spool, url, now, post)), k);
  }

  // ---- age

  /** The sample's time does not parse, or lies at most the age limit back. */
  predicate Young(q: Policy, s: Sample, now: int) {
    match q.parse(s.sampledAt)
    case None => true
    case Some(t) => now <= t + q.maxAge
  }

  predicate FirstOfId(entries: seq<Sample>, i: nat)
    requires i < |entries|
  {
    forall j :: 0 <= j < i ==> entries[j].id != entries[i].id
  }

  /** The indices of the young samples that are the first of their id. */
  function Staying(q: Policy, entries: seq<Sample>, now: int): nat -> bool {
    (i: nat) => i < |entries| && FirstOfId(entries, i) && Young(q, entries[i], now)
  }

  lemma FirstOrRepeated(entries: seq<Sample>, n: nat)
    requires n < |entries|
    ensures entries[n].id in Ids(entries[..n]) <==> !FirstOfId(entries, n)
  {
    if !FirstOfId(entries, n) {
      var j :| 0 <= j < n && entries[j].id == entries[n].id;
      assert entries[..n][j].id == entries[n].id;
    }
  }

  lemma YoungOrOld(q: Policy, s: Sample, now: int)
    ensures Young(q, s, now) <==> !TooOld(q, s, now)
  {
  }

  lemma {:induction false} PruneUpTo(q: Policy, entries: seq<Sample>, now: int, n: nat)
    requires n <= |entries|
    ensures Prune(q, entries[..n], now) == Wanted(entries, Staying(q, entries, now), n)
  {
    if n > 0 {
      PruneUpTo(q, entries, now, n - 1);
      assert entries[..n][..n - 1] == entries[..n - 1];
      FirstOrRepeated(entries, n - 1);
      YoungOrOld(q, entries[n - 1], now);
      WantedNext(entries, Staying(q, entries, now), n - 1);
    }
  }

  /** Pruning keeps exactly the young samples that are the first of their id, in order. */
  lemma PruneKeepsYoung(q: Policy, entries: seq<Sample>, now: int)
    ensures Prune(q, entries, now) == Wanted(entries, Staying(q, entries, now), |entries|)
  {
    PruneUpTo(q, entries, now, |entries|);
    assert entries[..|entries|] == entries;
  }

  // ---- reading and repeated ids

  function Decodable(lines: seq<Line>): nat -> bool { (i: nat) => i < |lines| && lines[i].Entry? }

  /** s as read: an empty id is replaced by the payload's digest, an empty time by the
      payload's timestamp, and nothing else is touched. */
  predicate ReadAs(q: Policy, s: Sample, r: Sample) {
    && r.id == (if s.id == "" then q.digest(s.payload) else s.id)
    && r.sampledAt == (if s.sampledAt == "" then s.payload.timestamp else s.sampledAt)
    && r.serverUrl == s.serverUrl && r.payload == s.payload
  }

  ghost predicate ReadFrom(q: Policy, lines: seq<Line>, picks: seq<nat>, r: seq<Sample>) {
    |r| == |picks| && forall k :: 0 <= k < |r| ==> picks[k] < |lines| && lines[picks[k]].Entry?
                                                   && ReadAs(q, lines[picks[k]].sample, r[k])
  }

  lemma {:induction false} LinesUpTo(q: Policy, lines: seq<Line>, n: nat)
    requires n <= |lines|
    ensures ReadFrom(q, lines, Picked(Decodable(lines), n), ReadLines(q, lines[..n]))
  {
    if n > 0 {
      LinesUpTo(q, lines, n - 1);
      assert lines[..n][..n - 1] == lines[..n - 1];
    }
  }

  /** Reading yields exactly the decodable lines, in order. */
  lemma LinesAreRead(q: Policy, lines: seq<Line>)
    ensures ReadFrom(q, lines, Picked(Decodable(lines), |lines|), ReadLines(q, lines))
  {
    LinesUpTo(q, lines, |lines|);
    assert lines[..|lines|] == lines;
  }

  /** An enqueue of an id that is still spooled adds nothing. */
  lemma RepeatedIdAddsNothing(q: Policy, spool: Option<seq<Line>>, sample: Sample, now: int)
    requires Fill(q, sample).id in Ids(Prune(q, Contents(q, spool), now))
    ensures Contents(q, Stored(Enqueued(q, spool, sample, now))) == Prune(q, Contents(q, spool), now)
  {
    QueueFilled(q, spool, now);
    ReadBack(q, Prune(q, Contents(q, spool), now));
  }

  // ---- the books

  /** Event e uploaded sample c from its queue, and the upload ended so. */
  predicate UploadedIn(q: Policy, spool: Option<seq<Line>>, e: Event, c: Core, ended: Post -> bool) {
    && e.Drain?
    && exists i :: 0 <= i < |Queue(q, spool, e.now)| && CoreOf(Queue(q, spool, e.now)[i]) == c && ended(e.post(i))
  }

  /** Event e read sample c and its time was over. */
  predicate AgedIn(q: Policy, spool: Option<seq<Line>>, e: Event, c: Core) {
    var read := Contents(q, spool);
    exists i :: 0 <= i < |read| && CoreOf(read[i]) == c && !Young(q, read[i], e.now)
  }

  /** Event e read sample c behind another with its id, or tried to store it beside one. */
  predicate RepeatedIn(q: Policy, spool: Option<seq<Line>>, e: Event, c: Core) {
    var read := Contents(q, spool);
    || (exists i :: 0 <= i < |read| && CoreOf(read[i]) == c && !FirstOfId(read, i))
    || (e.Enqueue? && CoreOf(Fill(q, e.sample)) == c && Fill(q, e.sample).id in Ids(Prune(q, read, e.now)))
  }

  /** Event e stored a sample, and with c and everything after it the spool would have been
      too large. */
  predicate EvictedIn(q: Policy, spool: Option<seq<Line>>, e: Event, c: Core) {
    && e.Enqueue? && q.maxBytes > 0
    && var all := Arrivals(q, spool, e.sample, e.now);
       exists i :: 0 <= i < |all| && CoreOf(all[i]) == c && ArrayBytes(q, all[i..]) > q.maxBytes
  }

  function TakenBy(): Post -> bool { (p: Post) => Taken(p) }

  function RefusedBy(): Post -> bool { (p: Post) => Refused(p) }

  lemma {:induction false} DealtWith(entries: seq<Sample>, post: nat -> Post, n: nat, verdict: Post -> bool, c: Core) returns (i: nat)
    requires n <= |entries| && c in Dealt(entries, post, n, verdict)
    ensures i < n && CoreOf(entries[i]) == c && verdict(post(i))
  {
    if verdict(post(n - 1)) && CoreOf(entries[n - 1]) == c {
      i := n - 1;
    } else {
      i := DealtWith(entries, post, n - 1, verdict, c);
    }
  }

  lemma {:induction false} AgedWas(q: Policy, entries: seq<Sample>, now: int, n: nat, c: Core) returns (i: nat)
    requires n <= |entries| && c in Aged(q, entries[..n], now)
    ensures i < n && CoreOf(entries[i]) == c && !Young(q, entries[i], now)
  {
    assert entries[..n][..n - 1] == entries[..n - 1];
    if CoreOf(entries[n - 1]) == c && TooOld(q, entries[n - 1], now) {
      YoungOrOld(q, entries[n - 1], now);
      i := n - 1;
    } else {
      i := AgedWas(q, entries, now, n - 1, c);
    }
  }

  lemma {:induction false} RepeatWas(entries: seq<Sample>, n: nat, c: Core) returns (i: nat)
    requires n <= |entries| && c in Repeats(entries[..n])
    ensures i < n && CoreOf(entries[i]) == c && !FirstOfId(entries, i)
  {
    assert entries[..n][..n - 1] == entries[..n - 1];
    FirstOrRepeated(entries, n - 1);
    if CoreOf(entries[n - 1]) == c && entries[n - 1].id in Ids(entries[..n - 1]) {
      i := n - 1;
    } else {
      i := RepeatWas(entries, n - 1, c);
    }
  }

  lemma EvictedWas(q: Policy, all: seq<Sample>, c: Core) returns (i: nat)
    requires c in Bag(all[..Cutoff(q, all)])
    ensures i < |all| && CoreOf(all[i]) == c && q.maxBytes > 0 && ArrayBytes(q, all[i..]) > q.maxBytes
  {
    var k := FitIsLongestSuffix(q, all);
    var n := Cutoff(q, all);
    assert |all[n..]| == |all[k..]|;
    assert c in Cores(all[..n]);
    i :| 0 <= i < n && Cores(all[..n])[i] == c;
  }

  /** The reasons, one for each book. */
  datatype Book = AcceptedBook | RejectedBook | AgedBook | EvictedBook | DuplicateBook

  function BookOf(l: Ledger, b: Book): multiset<Core> {
    match b
    case AcceptedBook => l.accepted
    case RejectedBook => l.rejected
    case AgedBook => l.aged
    case EvictedBook => l.evicted
    case DuplicateBook => l.duplicates
  }

  predicate Reason(q: Policy, spool: Option<seq<Line>>, e: Event, c: Core, b: Book) {
    match b
    case AcceptedBook => UploadedIn(q, spool, e, c, TakenBy())
    case RejectedBook => UploadedIn(q, spool, e, c, RefusedBy())
    case AgedBook => AgedIn(q, spool, e, c)
    case EvictedBook => EvictedIn(q, spool, e, c)
    case DuplicateBook => RepeatedIn(q, spool, e, c)
  }

  lemma PruneBooks(q: Policy, spool: Option<seq<Line>>, e: Event, c: Core)
    ensures c in Aged(q, Contents(q, spool), e.now) ==> AgedIn(q, spool, e, c)
    ensures c in Repeats(Contents(q, spool)) ==> RepeatedIn(q, spool, e, c)
  {
    var read := Contents(q, spool);
    assert read[..|read|] == read;
    if c in Aged(q, read, e.now) {
      var i := AgedWas(q, read, e.now, |read|, c);
    }
    if c in Repeats(read) {
      var i := RepeatWas(read, |read|, c);
    }
  }

  lemma EnqueueAged(q: Policy, l: Ledger, e: Event, c: Core)
    requires e.Enqueue?
    ensures OnEnqueue(q, l, e.sample, e.now).accepted == l.accepted
    ensures OnEnqueue(q, l, e.sample, e.now).rejected == l.rejected
    ensures c in OnEnqueue(q, l, e.sample, e.now).aged ==> c in l.aged || AgedIn(q, l.spool, e, c)
  {
    PruneBooks(q, l.spool, e, c);
  }

  lemma EnqueueRepeated(q: Policy, l: Ledger, e: Event, c: Core)
    requires e.Enqueue?
    ensures c in OnEnqueue(q, l, e.sample, e.now).duplicates ==> c in l.duplicates || RepeatedIn(q, l.spool, e, c)
  {
    PruneBooks(q, l.spool, e, c);
  }

  lemma EvictedReason(q: Policy, spool: Option<seq<Line>>, e: Event, c: Core)
    requires e.Enqueue?
    ensures var all := Arrivals(q, spool, e.sample, e.now);
      c in Bag(all[..Cutoff(q, all)]) ==> EvictedIn(q, spool, e, c)
  {
    var all := Arrivals(q, spool, e.sample, e.now);
    if c in Bag(all[..Cutoff(q, all)]) {
      var i := EvictedWas(q, all, c);
    }
  }

  lemma EnqueueEvicted(q: Policy, l: Ledger, e: Event, c: Core)
    requires e.Enqueue?
    ensures c in OnEnqueue(q, l, e.sample, e.now).evicted ==> c in l.evicted || EvictedIn(q, l.spool, e, c)
  {
    EvictedReason(q, l.spool, e, c);
  }

  lemma EnqueueBooks(q: Policy, l: Ledger, e: Event, c: Core, b: Book)
    requires e.Enqueue? && c in BookOf(OnEnqueue(q, l, e.sample, e.now), b)
    ensures c in BookOf(l, b) || Reason(q, l.spool, e, c, b)
  {
    match b
    case AcceptedBook => EnqueueAged(q, l, e, c);
    case RejectedBook => EnqueueAged(q, l, e, c);
    case AgedBook => EnqueueAged(q, l, e, c);
    case EvictedBook => EnqueueEvicted(q, l, e, c);
    case DuplicateBook => EnqueueRepeated(q, l, e, c);
  }

  lemma DealtBooks(q: Policy, spool: Option<seq<Line>>, e: Event, n: nat, c: Core)
    requires e.Drain? && n <= |Queue(q, spool, e.now)|
    ensures c in Dealt(Queue(q, spool, e.now), e.post, n, AcceptedBy()) ==> UploadedIn(q, spool, e, c, TakenBy())
    ensures c in Dealt(Queue(q, spool, e.now), e.post, n, RejectedBy()) ==> UploadedIn(q, spool, e, c, RefusedBy())
  {
    var all := Queue(q, spool, e.now);
    if c in Dealt(all, e.post, n, AcceptedBy()) {
      var i := DealtWith(all, e.post, n, AcceptedBy(), c);
      OneOutcome(e.post(i));
      assert TakenBy()(e.post(i));
    }
    if c in Dealt(all, e.post, n, RejectedBy()) {
      var i := DealtWith(all, e.post, n, RejectedBy(), c);
      OneOutcome(e.post(i));
      assert RefusedBy()(e.post(i));
    }
  }

  lemma DrainBooks(q: Policy, l: Ledger, e: Event, c: Core, b: Book)
    requires e.Drain? && c in BookOf(OnDrain(q, l, e.url, e.now, e.post), b)
    ensures c in BookOf(l, b) || Reason(q, l.spool, e, c, b)
  {
    var all, end := Queue(q, l.spool, e.now), EndOfDrain(q, l.spool, e.url, e.now, e.post);
    PruneBooks(q, l.spool, e, c);
    if !end.NoUrl? {
      DealtBooks(q, l.spool, e, Done(all, end), c);
    }
  }

  lemma StepBooks(q: Policy, l: Ledger, e: Event, c: Core, b: Book)
    requires c in BookOf(Step(q, l, e), b)
    ensures c in BookOf(l, b) || Reason(q, l.spool, e, c, b)
  {
    if e.readOk && e.writeOk {
      if e.Enqueue? {
        EnqueueBooks(q, l, e, c, b);
      } else {
        DrainBooks(q, l, e, c, b);
      }
    }
  }

  lemma {:induction false} RunSnoc(q: Policy, l: Ledger, es: seq<Event>, e: Event)
    ensures Run(q, l, es + [e]) == Step(q, Run(q, l, es), e)
    decreases |es|
  {
    if es == [] {
      assert [e][1..] == [];
    } else {
      assert (es + [e])[1..] == es[1..] + [e];
      RunSnoc(q, Step(q, l, es[0]), es[1..], e);
    }
  }

  lemma PrefixStep(q: Policy, es: seq<Event>, j: nat)
    requires j < |es|
    ensures Run(q, EMPTY, es[..j + 1]) == Step(q, Run(q, EMPTY, es[..j]), es[j])
  {
    assert es[..j + 1] == es[..j] + [es[j]];
    RunSnoc(q, EMPTY, es[..j], es[j]);
  }

  /** What holds in the end and not at first was caused somewhere. */
  lemma {:induction false} Cause(holds: nat -> bool, why: nat -> bool, n: nat) returns (k: nat)
    requires !holds(0) && holds(n) && forall j: nat :: j < n && holds(j + 1) ==> holds(j) || why(j)
    ensures k < n && why(k)
  {
    assert holds(n - 1 + 1);
    if why(n - 1) {
      k := n - 1;
    } else {
      k := Cause(holds, why, n - 1);
    }
  }

  function BookedAfter(q: Policy, es: seq<Event>, c: Core, b: Book): nat -> bool {
    (j: nat) => j <= |es| && c in BookOf(Run(q, EMPTY, es[..j]), b)
  }

  function ReasonAt(q: Policy, es: seq<Event>, c: Core, b: Book): nat -> bool {
    (j: nat) => j < |es| && Reason(q, Run(q, EMPTY, es[..j]).spool, es[j], c, b)
  }

  lemma BookStep(q: Policy, es: seq<Event>, c: Core, b: Book, j: nat)
    requires j < |es| && BookedAfter(q, es, c, b)(j + 1)
    ensures BookedAfter(q, es, c, b)(j) || ReasonAt(q, es, c, b)(j)
  {
    PrefixStep(q, es, j);
    StepBooks(q, Run(q, EMPTY, es[..j]), es[j], c, b);
  }

  lemma NothingBooked(q: Policy, es: seq<Event>, c: Core, b: Book)
    ensures !BookedAfter(q, es, c, b)(0)
  {
    assert es[..0] == [];
  }

  /** Over every run, whatever stands in a book was put there for that book's reason: an
      accepted sample was uploaded with a status below 300, a rejected one answered with 400,
      413 or 422, an aged one read past its time, an evicted one did not fit, and a duplicate
      met another with its id. */
  lemma BooksTellTheTruth(q: Policy, es: seq<Event>, c: Core, b: Book) returns (k: nat)
    requires c in BookOf(Run(q, EMPTY, es), b)
    ensures k < |es| && Reason(q, Run(q, EMPTY, es[..k]).spool, es[k], c, b)
  {
    assert es[..|es|] == es;
    NothingBooked(q, es, c, b);
    forall j: nat | j < |es| && BookedAfter(q, es, c, b)(j + 1)
      ensures BookedAfter(q, es, c, b)(j) || ReasonAt(q, es, c, b)(j)
    {
      BookStep(q, es, c, b, j);
    }
    k := Cause(BookedAfter(q, es, c, b), ReasonAt(q, es, c, b), |es|);
  }
}
