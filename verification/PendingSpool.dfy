/** The store-and-forward spool: samples whose upload failed wait in a JSONL file
    until a later cycle replays them. */
module PendingSpool {
  import opened Text
  import opened Sorting

  /** A metrics payload: its timestamp, and everything else as an opaque number. */
  datatype Payload = Payload(timestamp: string, body: nat)

  datatype Sample = Sample(id: string, serverUrl: string, sampledAt: string, payload: Payload)

  /** A line of the file: an encoded sample, or something that does not decode. */
  datatype Line = Garbage | Entry(sample: Sample)

  /** The store's limits together with the foreign functions it relies on: the length
      of a sample's JSON encoding, time parsing, and the payload digest. */
  datatype Policy = Policy(length: Sample -> nat, parse: string -> Option<int>, digest: Payload -> string,
                           maxBytes: int, maxAge: int)

  /** How one upload went. */
  datatype Post = NoResponse | HttpStatus(code: int)

  predicate Accepted(p: Post) { p.HttpStatus? && p.code < 300 }

  /** The statuses after which a sample is dropped instead of retried. */
  predicate Permanent(p: Post) { p.HttpStatus? && (p.code == 400 || p.code == 413 || p.code == 422) }

  /** Missing ids and times are derived from the payload. */
  function Fill(q: Policy, s: Sample): Sample {
    s.(id := if s.id == "" then q.digest(s.payload) else s.id,
       sampledAt := if s.sampledAt == "" then s.payload.timestamp else s.sampledAt)
  }

  predicate Filled(q: Policy, s: Sample) { Fill(q, s) == s }

  function ReadLines(q: Policy, lines: seq<Line>): (r: seq<Sample>)
    ensures forall i :: 0 <= i < |r| ==> Filled(q, r[i])
  {
    if lines == [] then []
    else
      var last := lines[|lines| - 1];
      ReadLines(q, lines[..|lines| - 1]) + if last.Entry? then [Fill(q, last.sample)] else []
  }

  /** The decoded contents of the spool file; a missing file is an empty spool. */
  function Contents(q: Policy, spool: Option<seq<Line>>): seq<Sample> {
    if spool.None? then [] else ReadLines(q, spool.value)
  }

  function Lines(entries: seq<Sample>): (r: seq<Line>)
    ensures |r| == |entries| && forall i :: 0 <= i < |r| ==> r[i] == Entry(entries[i])
  {
    seq(|entries|, i requires 0 <= i < |entries| => Entry(entries[i]))
  }

  /** Writing replaces the file, or removes it when nothing is left. */
  function Stored(entries: seq<Sample>): Option<seq<Line>> {
    if entries == [] then None else Some(Lines(entries))
  }

  predicate TooOld(q: Policy, s: Sample, now: int) {
    q.parse(s.sampledAt).Some? && now - q.parse(s.sampledAt).value > q.maxAge
  }

  /** Drops repeated ids and samples past the age limit. */
  function Prune(q: Policy, entries: seq<Sample>, now: int): (r: seq<Sample>)
  {
    if entries == [] then []
    else
      var rest, last := entries[..|entries| - 1], entries[|entries| - 1];
      Prune(q, rest, now) + if last.id in Ids(rest) || TooOld(q, last, now) then [] else [last]
  }

  function Ids(entries: seq<Sample>): set<string> { set i | 0 <= i < |entries| :: entries[i].id }

  /** The time order, as the store compares: by parsed time when both parse, by text
      otherwise. */
  function Earlier(q: Policy): (Sample, Sample) -> bool {
    (a: Sample, b: Sample) =>
      var ta, tb := q.parse(a.sampledAt), q.parse(b.sampledAt);
      if ta.Some? && tb.Some? then ta.value < tb.value else StrLess(a.sampledAt, b.sampledAt)
  }

  function Sort(q: Policy, entries: seq<Sample>): seq<Sample> { StableSort(entries, Earlier(q)) }

  function TotalLength(q: Policy, entries: seq<Sample>): nat {
    if entries == [] then 0 else q.length(entries[0]) + TotalLength(q, entries[1..])
  }

  /** Brackets and commas of the JSON array, or one newline per JSONL line. */
  function ArrayBytes(q: Policy, entries: seq<Sample>): nat {
    2 + TotalLength(q, entries) + if entries == [] then 0 else |entries| - 1
  }

  function FileBytes(q: Policy, entries: seq<Sample>): nat { TotalLength(q, entries) + |entries| }

  function Fit(q: Policy, entries: seq<Sample>): seq<Sample> {
    if q.maxBytes <= 0 || entries == [] || ArrayBytes(q, entries) <= q.maxBytes then entries
    else Fit(q, entries[1..])
  }

  function Enqueued(q: Policy, spool: Option<seq<Line>>, sample: Sample, now: int): seq<Sample> {
    var kept, new' := Prune(q, Contents(q, spool), now), Fill(q, sample);
    if new'.id in Ids(kept) then kept else Fit(q, Sort(q, kept + [new']))
  }

  /** How a drain ends: a sample without any server URL, a transient failure at an
      index, or every sample dealt with. */
  datatype DrainEnd = NoUrl(at: nat) | Stopped(at: nat) | Drained

  function Target(replay: string, s: Sample): string {
    if replay != "" then replay else TrimSpace(s.serverUrl)
  }

  function DrainFrom(replay: string, entries: seq<Sample>, post: nat -> Post, i: nat): (r: DrainEnd)
    requires i <= |entries|
    ensures r.NoUrl? || r.Stopped? ==> i <= r.at < |entries|
    decreases |entries| - i
  {
    if i == |entries| then Drained
    else if Target(replay, entries[i]) == "" then NoUrl(i)
    else if Accepted(post(i)) || Permanent(post(i)) then DrainFrom(replay, entries, post, i + 1)
    else Stopped(i)
  }

  function Queue(q: Policy, spool: Option<seq<Line>>, now: int): seq<Sample> {
    Sort(q, Prune(q, Contents(q, spool), now))
  }

  /** What a drain rewrites the spool to, unless it ends without a rewrite. */
  function Remaining(replay: string, entries: seq<Sample>, end: DrainEnd): seq<Sample>
    requires end.Stopped? ==> end.at < |entries|
  {
    if end.Stopped? then
      [entries[end.at].(serverUrl := Target(replay, entries[end.at]))] + entries[end.at + 1..]
    else []
  }

  /** The spool after a drain whose rewrite, if it gets to one, succeeds. */
  function AfterDrain(q: Policy, spool: Option<seq<Line>>, url: string, now: int, post: nat -> Post): Option<seq<Line>> {
    var entries := Queue(q, spool, now);
    var end := DrainFrom(TrimSpace(url), entries, post, 0);
    if end.NoUrl? then spool else Stored(Remaining(TrimSpace(url), entries, end))
  }

  function EndOfDrain(q: Policy, spool: Option<seq<Line>>, url: string, now: int, post: nat -> Post): DrainEnd {
    DrainFrom(TrimSpace(url), Queue(q, spool, now), post, 0)
  }

  // ---- the store object

  class PendingStore {
    const policy: Policy
    var spool: Option<seq<Line>>
    var lastUploadFailed: bool

    constructor (policy: Policy, spool: Option<seq<Line>>)
      ensures this.policy == policy && this.spool == spool && !lastUploadFailed
    {
      this.policy, this.spool, lastUploadFailed := policy, spool, false;
    }

    method ReadEntries() returns (entries: seq<Sample>)
      ensures entries == Contents(policy, spool)
    {
      entries := [];
      if spool.None? {
        return;
      }
      var lines := spool.value;
      var i := 0;
      while i < |lines|
        invariant 0 <= i <= |lines| && entries == ReadLines(policy, lines[..i])
      {
        assert lines[..i + 1][..i] == lines[..i];
        if lines[i].Entry? {
          entries := entries + [Fill(policy, lines[i].sample)];
        }
        i := i + 1;
      }
      assert lines[..|lines|] == lines;
    }

    method PruneEntries(entries: seq<Sample>, now: int) returns (kept: seq<Sample>)
      ensures kept == Prune(policy, entries, now)
    {
      kept := [];
      var seen: set<string> := {};
      var i := 0;
      while i < |entries|
        invariant 0 <= i <= |entries|
        invariant seen == Ids(entries[..i]) && kept == Prune(policy, entries[..i], now)
      {
        assert entries[..i + 1][..i] == entries[..i];
        IdsSnoc(entries[..i], entries[i]);
        assert entries[..i] + [entries[i]] == entries[..i + 1];
        if entries[i].id !in seen {
          seen := seen + {entries[i].id};
          if !TooOld(policy, entries[i], now) {
            kept := kept + [entries[i]];
          }
        } else {
          assert seen + {entries[i].id} == seen;
        }
        i := i + 1;
      }
      assert entries[..|entries|] == entries;
    }

    method FitEntries(entries: seq<Sample>) returns (kept: seq<Sample>)
      ensures kept == Fit(policy, entries)
    {
      kept := entries;
      if policy.maxBytes <= 0 {
        return;
      }
      while |kept| > 0
        invariant Fit(policy, kept) == Fit(policy, entries)
        decreases |kept|
      {
        if ArrayBytes(policy, kept) <= policy.maxBytes {
          return;
        }
        kept := kept[1..];
      }
    }

    /** Replaces the spool file in one step, or reports that it could not. */
    method WriteEntries(entries: seq<Sample>, writeOk: bool)
      modifies this`spool
      ensures spool == if writeOk then Stored(entries) else old(spool)
    {
      if writeOk {
        spool := Stored(entries);
      }
    }

    method Enqueue(sample: Sample, now: int, readOk: bool, writeOk: bool) returns (ok: bool)
      modifies this`spool
      ensures ok <==> readOk && writeOk
      ensures spool == if ok then Stored(Enqueued(policy, old(spool), sample, now)) else old(spool)
    {
      if !readOk {
        return false;
      }
      var filled := Fill(policy, sample);
      var entries := ReadEntries();
      entries := PruneEntries(entries, now);
      var i := 0;
      while i < |entries|
        invariant 0 <= i <= |entries|
        invariant forall j :: 0 <= j < i ==> entries[j].id != filled.id
      {
        if entries[i].id == filled.id {
          WriteEntries(entries, writeOk);
          return writeOk;
        }
        i := i + 1;
      }
      entries := FitEntries(Sort(policy, entries + [filled]));
      WriteEntries(entries, writeOk);
      ok := writeOk;
    }

    /** Replays the spool in time order. `post(i)` is the outcome of the i-th upload. */
    method Drain(url: string, now: int, post: nat -> Post, readOk: bool, writeOk: bool) returns (ok: bool)
      modifies this
      ensures ok <==> readOk && writeOk && EndOfDrain(policy, old(spool), url, now, post).Drained?
      ensures spool == if readOk && writeOk then AfterDrain(policy, old(spool), url, now, post) else old(spool)
      ensures lastUploadFailed ==
              if !readOk || EndOfDrain(policy, old(spool), url, now, post).NoUrl? then old(lastUploadFailed)
              else EndOfDrain(policy, old(spool), url, now, post).Stopped?
    {
      if !readOk {
        return false;
      }
      var entries := LoadQueue(now);
      var replay := TrimSpace(url);
      var end := Replay(replay, entries, post);
      if end.NoUrl? {
        return false;
      }
      lastUploadFailed := end.Stopped?;
      WriteEntries(Remaining(replay, entries, end), writeOk);
      ok := writeOk && end.Drained?;
    }

    method LoadQueue(now: int) returns (entries: seq<Sample>)
      ensures entries == Queue(policy, spool, now)
    {
      entries := ReadEntries();
      entries := PruneEntries(entries, now);
      entries := Sort(policy, entries);
    }

    /** The upload loop of a drain. */
    static method Replay(replay: string, entries: seq<Sample>, post: nat -> Post) returns (end: DrainEnd)
      ensures end == DrainFrom(replay, entries, post, 0)
    {
      var index := 0;
      while index < |entries|
        invariant 0 <= index <= |entries|
        invariant DrainFrom(replay, entries, post, 0) == DrainFrom(replay, entries, post, index)
      {
        if Target(replay, entries[index]) == "" {
          return NoUrl(index);
        }
        if !Accepted(post(index)) && !Permanent(post(index)) {
          return Stopped(index);
        }
        index := index + 1;
      }
      end := Drained;
    }
  }

  lemma IdsSnoc(s: seq<Sample>, x: Sample)
    ensures Ids(s + [x]) == Ids(s) + {x.id}
  {
    var t := s + [x];
    forall id | id in Ids(s) + {x.id} ensures id in Ids(t) {
      if id in Ids(s) {
        var i :| 0 <= i < |s| && s[i].id == id;
        assert t[i].id == id;
      } else {
        assert t[|s|].id == id;
      }
    }
    forall id | id in Ids(t) ensures id in Ids(s) + {x.id} {
      var i :| 0 <= i < |t| && t[i].id == id;
      assert i < |s| ==> t[i] == s[i];
    }
  }

  // ---- what pruning, fitting and rewriting keep

  ghost predicate AllFilled(q: Policy, entries: seq<Sample>) { forall i :: 0 <= i < |entries| ==> Filled(q, entries[i]) }

  /** Reading back what was written gives the same samples. */
  lemma {:induction false} ReadBack(q: Policy, entries: seq<Sample>)
    requires AllFilled(q, entries)
    ensures Contents(q, Stored(entries)) == entries
  {
    if entries != [] {
      var rest := entries[..|entries| - 1];
      ReadBack(q, rest);
      assert Lines(entries)[..|entries| - 1] == Lines(rest);
      assert rest == [] ==> Lines(rest) == [];
    }
  }

  lemma {:induction false} PruneSelects(q: Policy, entries: seq<Sample>, now: int)
    ensures forall i :: 0 <= i < |Prune(q, entries, now)| ==>
              Prune(q, entries, now)[i] in entries && !TooOld(q, Prune(q, entries, now)[i], now)
    ensures Ids(Prune(q, entries, now)) <= Ids(entries)
  {
    if entries != [] {
      var rest, last := entries[..|entries| - 1], entries[|entries| - 1];
      PruneSelects(q, rest, now);
      IdsSnoc(rest, last);
      IdsSnoc(Prune(q, rest, now), last);
      assert entries == rest + [last];
    }
  }

  ghost predicate DistinctIds(entries: seq<Sample>) {
    forall i, j :: 0 <= i < j < |entries| ==> entries[i].id != entries[j].id
  }

  lemma DistinctSnoc(s: seq<Sample>, x: Sample)
    requires DistinctIds(s) && x.id !in Ids(s)
    ensures DistinctIds(s + [x])
  {
    var t := s + [x];
    forall i, j | 0 <= i < j < |t| ensures t[i].id != t[j].id {
      assert t[i].id in Ids(s);
    }
  }

  lemma {:induction false} PruneDistinct(q: Policy, entries: seq<Sample>, now: int)
    ensures DistinctIds(Prune(q, entries, now))
  {
    if entries != [] {
      var rest, last := entries[..|entries| - 1], entries[|entries| - 1];
      PruneDistinct(q, rest, now);
      PruneSelects(q, rest, now);
      if last.id !in Ids(rest) {
        DistinctSnoc(Prune(q, rest, now), last);
      }
    }
  }

  /** A pruned sample was too old or repeated the id of an earlier one. */
  lemma {:induction false} PruneConserves(q: Policy, entries: seq<Sample>, now: int, i: nat)
    requires i < |entries|
    ensures entries[i] in Prune(q, entries, now) || TooOld(q, entries[i], now) || entries[i].id in Ids(entries[..i])
  {
    var n := |entries| - 1;
    if i < n {
      PruneConserves(q, entries[..n], now, i);
      assert entries[..n][..i] == entries[..i];
    }
  }

  /** The samples kept by size are the longest suffix whose JSON array fits. */
  lemma {:induction false} FitIsLongestSuffix(q: Policy, entries: seq<Sample>) returns (k: nat)
    ensures k <= |entries| && Fit(q, entries) == entries[k..]
    ensures q.maxBytes <= 0 ==> k == 0
    ensures q.maxBytes > 0 && k < |entries| ==> ArrayBytes(q, entries[k..]) <= q.maxBytes
    ensures q.maxBytes > 0 ==> forall j :: 0 <= j < k ==> ArrayBytes(q, entries[j..]) > q.maxBytes
  {
    if q.maxBytes <= 0 || entries == [] || ArrayBytes(q, entries) <= q.maxBytes {
      k := 0;
      assert entries[0..] == entries;
    } else {
      var m := FitIsLongestSuffix(q, entries[1..]);
      k := m + 1;
      assert entries[1..][m..] == entries[k..];
      forall j | 0 <= j < k ensures ArrayBytes(q, entries[j..]) > q.maxBytes {
        if j == 0 {
          assert entries[0..] == entries;
        } else {
          assert entries[1..][j - 1..] == entries[j..];
        }
      }
    }
  }

  /** A drain that stops has dealt for good with everything before the sample it
      stopped at, and with nothing from there on. */
  lemma {:induction false} DrainPrefix(replay: string, entries: seq<Sample>, post: nat -> Post, i: nat)
    requires i <= |entries|
    ensures var end := DrainFrom(replay, entries, post, i);
            var n := if end.Drained? then |entries| else end.at;
            && i <= n <= |entries|
            && (forall k :: i <= k < n ==> Accepted(post(k)) || Permanent(post(k)))
            && (end.Stopped? ==> !Accepted(post(n)) && !Permanent(post(n)))
            && (replay != "" ==> !end.NoUrl?)
    decreases |entries| - i
  {
    if i < |entries| && Target(replay, entries[i]) != "" && (Accepted(post(i)) || Permanent(post(i))) {
      DrainPrefix(replay, entries, post, i + 1);
    }
  }

  lemma SortSameMembers(q: Policy, entries: seq<Sample>)
    ensures forall x :: x in Sort(q, entries) <==> x in entries
    ensures multiset(Sort(q, entries)) == multiset(entries)
  {
    StableSortMembers(entries, Earlier(q));
    StableSortPermutes(entries, Earlier(q));
  }

  lemma {:induction false} DistinctPermutes(a: seq<Sample>, b: seq<Sample>)
    requires multiset(a) == multiset(b) && DistinctIds(a)
    ensures DistinctIds(b)
  {
    forall i, j | 0 <= i < j < |b| ensures b[i].id != b[j].id {
      if b[i] == b[j] {
        var rest := b[..j] + b[j + 1..];
        assert b == b[..j] + [b[j]] + b[j + 1..];
        assert rest[i] == b[i];
        assert multiset(b)[b[i]] >= 2;
        OccursOnce(a, b[i]);
      } else {
        assert b[i] in multiset(a) && b[j] in multiset(a);
        assert b[i] in a && b[j] in a;
      }
    }
  }

  lemma {:induction false} OccursOnce(a: seq<Sample>, x: Sample)
    requires DistinctIds(a)
    ensures multiset(a)[x] <= 1
  {
    if a != [] {
      OccursOnce(a[1..], x);
      assert a == [a[0]] + a[1..];
      if a[0] == x {
        assert x !in a[1..];
      }
    }
  }

  lemma QueueFilled(q: Policy, spool: Option<seq<Line>>, now: int)
    ensures AllFilled(q, Prune(q, Contents(q, spool), now))
    ensures AllFilled(q, Queue(q, spool, now))
  {
    var kept := Prune(q, Contents(q, spool), now);
    PruneSelects(q, Contents(q, spool), now);
    SortSameMembers(q, kept);
    forall i | 0 <= i < |Sort(q, kept)| ensures Filled(q, Sort(q, kept)[i]) {
      assert Sort(q, kept)[i] in kept;
    }
  }

  lemma RemainingFilled(q: Policy, replay: string, all: seq<Sample>, end: DrainEnd)
    requires AllFilled(q, all) && (end.Stopped? ==> end.at < |all|)
    ensures AllFilled(q, Remaining(replay, all, end))
  {
    assert end.Stopped? ==> Filled(q, all[end.at]);
  }

  /** The sorted queue with a new sample in it. */
  function Arrivals(q: Policy, spool: Option<seq<Line>>, sample: Sample, now: int): seq<Sample> {
    Sort(q, Prune(q, Contents(q, spool), now) + [Fill(q, sample)])
  }

  lemma ArrivalsDistinct(q: Policy, spool: Option<seq<Line>>, sample: Sample, now: int)
    requires Fill(q, sample).id !in Ids(Prune(q, Contents(q, spool), now))
    ensures DistinctIds(Arrivals(q, spool, sample, now))
  {
    var kept, filled := Prune(q, Contents(q, spool), now), Fill(q, sample);
    PruneDistinct(q, Contents(q, spool), now);
    DistinctSnoc(kept, filled);
    SortSameMembers(q, kept + [filled]);
    DistinctPermutes(kept + [filled], Sort(q, kept + [filled]));
  }

  lemma ArrivalsFilled(q: Policy, spool: Option<seq<Line>>, sample: Sample, now: int)
    ensures AllFilled(q, Arrivals(q, spool, sample, now))
  {
    var all, kept := Arrivals(q, spool, sample, now), Prune(q, Contents(q, spool), now);
    QueueFilled(q, spool, now);
    SortSameMembers(q, kept + [Fill(q, sample)]);
    forall i | 0 <= i < |all| ensures Filled(q, all[i]) {
      assert all[i] in kept + [Fill(q, sample)];
    }
  }

  /** After a successful enqueue of a sample whose id is new: the ids on disk are
      pairwise distinct, the samples on disk are the longest suffix of the sorted
      queue that fits, and a non-empty file is one byte shorter than that array. */
  lemma EnqueueGuarantees(q: Policy, spool: Option<seq<Line>>, sample: Sample, now: int) returns (k: nat)
    requires Fill(q, sample).id !in Ids(Prune(q, Contents(q, spool), now))
    ensures var all := Arrivals(q, spool, sample, now);
            var disk := Contents(q, Stored(Enqueued(q, spool, sample, now)));
            && k <= |all| && disk == all[k..] && DistinctIds(disk)
            && (q.maxBytes > 0 && disk != [] ==> ArrayBytes(q, disk) <= q.maxBytes)
            && (q.maxBytes > 0 ==> forall j :: 0 <= j < k ==> ArrayBytes(q, all[j..]) > q.maxBytes)
            && (q.maxBytes <= 0 ==> k == 0)
            && (disk != [] ==> FileBytes(q, disk) + 1 == ArrayBytes(q, disk))
  {
    var all := Arrivals(q, spool, sample, now);
    ArrivalsDistinct(q, spool, sample, now);
    ArrivalsFilled(q, spool, sample, now);
    k := FitIsLongestSuffix(q, all);
    assert Enqueued(q, spool, sample, now) == all[k..];
    ReadBack(q, all[k..]);
  }

  /** With a Hub URL and a successful rewrite, a transient failure leaves exactly the
      samples not yet dealt with, in queue order; every sample before them was
      accepted or permanently rejected. */
  lemma TransientFailureLeavesSuffix(q: Policy, spool: Option<seq<Line>>, url: string, now: int, post: nat -> Post)
    requires TrimSpace(url) != "" && !EndOfDrain(q, spool, url, now, post).Drained?
    ensures var all := Queue(q, spool, now);
            var end := EndOfDrain(q, spool, url, now, post);
            && end.Stopped? && end.at < |all|
            && (forall k :: 0 <= k < end.at ==> Accepted(post(k)) || Permanent(post(k)))
            && !Accepted(post(end.at)) && !Permanent(post(end.at))
            && Contents(q, AfterDrain(q, spool, url, now, post)) ==
               [all[end.at].(serverUrl := TrimSpace(url))] + all[end.at + 1..]
  {
    var all := Queue(q, spool, now);
    DrainPrefix(TrimSpace(url), all, post, 0);
    var end := EndOfDrain(q, spool, url, now, post);
    QueueFilled(q, spool, now);
    RemainingFilled(q, TrimSpace(url), all, end);
    ReadBack(q, Remaining(TrimSpace(url), all, end));
  }
}
