/** The backend's memo of the collector's spool. Two processes share the spool file
    and a state file: the collector replaces the spool and then describes it, the
    backend answers status requests from the state file, from its own memo, or by
    scanning, whichever matches the spool's size and modification time. */
module SpoolMemo {
  import opened Text
  import opened PendingSpool
  import opened SpoolOrder

  datatype Fingerprint = Fingerprint(size: nat, modTime: int)
  datatype Summary = Summary(count: nat, bytes: nat, oldest: string)
  datatype StateFile = StateFile(summary: Summary, spool: Fingerprint)

  const NOTHING := StateFile(Summary(0, 0, ""), Fingerprint(0, 0))

  /** The contents each size and modification time stand for, which says that the
      pair identifies the contents; a file of no bytes has no lines. */
  datatype World = World(policy: Policy, contents: Fingerprint -> seq<Line>)

  ghost predicate Sane(w: World) { forall m :: w.contents(Fingerprint(0, m)) == [] }

  // ---- the two ways to describe a spool

  function ScanCount(lines: seq<Line>): nat {
    if lines == [] then 0 else ScanCount(lines[..|lines| - 1]) + if lines[|lines| - 1].Entry? then 1 else 0
  }

  function ScanOldest(lines: seq<Line>): string {
    if lines == [] then ""
    else
      var before, last := ScanOldest(lines[..|lines| - 1]), lines[|lines| - 1];
      if last.Entry? && (before == "" || (last.sample.sampledAt != "" && StrLess(last.sample.sampledAt, before)))
      then last.sample.sampledAt else before
  }

  function Scanned(w: World, at: Fingerprint): StateFile {
    StateFile(Summary(ScanCount(w.contents(at)), at.size, ScanOldest(w.contents(at))), at)
  }

  /** What the collector writes about a spool at a given time, pruned and sorted. */
  function Described(w: World, lines: seq<Line>, now: int): Summary {
    var entries := Sort(w.policy, Prune(w.policy, ReadLines(w.policy, lines), now));
    Summary(|entries|, ArrayBytes(w.policy, entries), if entries == [] then "" else entries[0].sampledAt)
  }

  /** The backend's scan loop. */
  method ScanSpool(lines: seq<Line>) returns (count: nat, oldest: string)
    ensures count == ScanCount(lines) && oldest == ScanOldest(lines)
  {
    count, oldest := 0, "";
    var i := 0;
    while i < |lines|
      invariant 0 <= i <= |lines| && count == ScanCount(lines[..i]) && oldest == ScanOldest(lines[..i])
    {
      assert lines[..i + 1][..i] == lines[..i];
      if lines[i].Entry? {
        count := count + 1;
        var text := lines[i].sample.sampledAt;
        if oldest == "" || (text != "" && StrLess(text, oldest)) {
          oldest := text;
        }
      }
      i := i + 1;
    }
    assert lines[..|lines|] == lines;
  }

  /** The scan counts exactly the samples that the collector decodes. */
  lemma {:induction false} CountIsDecoded(q: Policy, lines: seq<Line>)
    ensures ScanCount(lines) == |ReadLines(q, lines)|
  {
    if lines != [] {
      CountIsDecoded(q, lines[..|lines| - 1]);
    }
  }

  /** The scanned time is the least non-empty time text of the spool. */
  lemma {:induction false} OldestIsLeast(lines: seq<Line>)
    ensures ScanOldest(lines) != "" ==>
              exists i :: 0 <= i < |lines| && lines[i].Entry? && lines[i].sample.sampledAt == ScanOldest(lines)
    ensures forall i :: 0 <= i < |lines| && lines[i].Entry? && lines[i].sample.sampledAt != "" ==>
              ScanOldest(lines) != "" && !StrLess(lines[i].sample.sampledAt, ScanOldest(lines))
  {
    if lines != [] {
      var n := |lines| - 1;
      OldestIsLeast(lines[..n]);
      var before, after := ScanOldest(lines[..n]), ScanOldest(lines);
      if before != "" {
        var k :| 0 <= k < n && lines[..n][k].Entry? && lines[..n][k].sample.sampledAt == before;
        assert lines[k] == lines[..n][k];
      }
      forall i | 0 <= i < |lines| && lines[i].Entry? && lines[i].sample.sampledAt != ""
        ensures after != "" && !StrLess(lines[i].sample.sampledAt, after)
      {
        var text := lines[i].sample.sampledAt;
        if i < n {
          assert lines[..n][i] == lines[i];
          if after != before {
            if StrLess(text, after) {
              StrLessSplits(text, before, after);
              StrLessTotal(after, before);
            }
          }
        } else {
          StrLessTotal(text, after);
        }
      }
    }
  }

  // ---- the two processes

  datatype Phase = Idle | NeedState | HaveState(read: Option<StateFile>)

  /** An answer together with the spool it was given for. */
  datatype Answer = Answer(spool: Option<Fingerprint>, summary: Summary)

  datatype System = System(spool: Option<Fingerprint>, stateFile: Option<StateFile>,
                           cache: Option<StateFile>, phase: Phase, answers: seq<Answer>)

  datatype Event =
    | ReplaceSpool(next: Option<Fingerprint>)
    | WriteState(now: int)
    | LoseState
    | AskPending
    | ReadState(readable: bool)
    | StatAndRead

  const START := System(None, None, None, Idle, [])

  function Reply(s: System, result: StateFile): System {
    s.(answers := s.answers + [Answer(s.spool, result.summary)], phase := Idle)
  }

  function Matches(memo: Option<StateFile>, spool: Option<Fingerprint>): bool {
    memo.Some? && spool.Some? && memo.value.spool == spool.value
  }

  function Step(w: World, s: System, e: Event): System {
    match e
    case ReplaceSpool(next) => s.(spool := next)
    case WriteState(now) =>
      var lines := if s.spool.Some? then w.contents(s.spool.value) else [];
      s.(stateFile := Some(StateFile(Described(w, lines, now), if s.spool.Some? then s.spool.value else Fingerprint(0, 0))))
    case LoseState => s.(stateFile := None)
    case AskPending =>
      if !s.phase.Idle? then s
      else if Matches(s.cache, s.spool) then Reply(s, s.cache.value)
      else s.(phase := NeedState)
    case ReadState(readable) =>
      if s.phase.NeedState? then s.(phase := HaveState(if readable then s.stateFile else None)) else s
    case StatAndRead =>
      if !s.phase.HaveState? then s
      else if s.spool.None? then Reply(s.(cache := Some(NOTHING)), NOTHING)
      else if Matches(s.phase.read, s.spool) then Reply(s.(cache := s.phase.read), s.phase.read.value)
      else if Matches(s.cache, s.spool) then Reply(s, s.cache.value)
      else Reply(s.(cache := Some(Scanned(w, s.spool.value))), Scanned(w, s.spool.value))
  }

  function Run(w: World, s: System, es: seq<Event>): System
    decreases |es|
  {
    if es == [] then s else Run(w, Step(w, s, es[0]), es[1..])
  }

  /** A description of exactly the contents its fingerprint stands for. */
  ghost predicate Genuine(w: World, f: StateFile) {
    f == Scanned(w, f.spool) || exists now :: f.summary == Described(w, w.contents(f.spool), now)
  }

  ghost predicate GenuineMemo(w: World, f: Option<StateFile>) { f.Some? ==> Genuine(w, f.value) }

  /** The summary describes the given spool: nothing if there is none, else its scan
      or the collector's own pruned description of it. */
  ghost predicate Describes(w: World, a: Answer) {
    if a.spool.None? then a.summary == NOTHING.summary else Genuine(w, StateFile(a.summary, a.spool.value))
  }

  ghost predicate Coherent(w: World, s: System) {
    && GenuineMemo(w, s.stateFile) && GenuineMemo(w, s.cache)
    && (s.phase.HaveState? ==> GenuineMemo(w, s.phase.read))
    && forall i :: 0 <= i < |s.answers| ==> Describes(w, s.answers[i])
  }

  lemma StepCoherent(w: World, s: System, e: Event)
    requires Sane(w) && Coherent(w, s)
    ensures Coherent(w, Step(w, s, e))
  {
    assert w.contents(Fingerprint(0, 0)) == [];
    assert NOTHING == Scanned(w, Fingerprint(0, 0));
    if e.WriteState? {
      var f := Step(w, s, e).stateFile.value;
      assert f.summary == Described(w, w.contents(f.spool), e.now);
    }
  }

  /** In every interleaving of the two processes, every answer the backend gives
      describes the spool as it is when the backend looks, never an older one. */
  lemma {:induction false} AnswersDescribeCurrentSpool(w: World, s: System, es: seq<Event>)
    requires Sane(w) && Coherent(w, s)
    ensures Coherent(w, Run(w, s, es))
    decreases |es|
  {
    if es != [] {
      StepCoherent(w, s, es[0]);
      AnswersDescribeCurrentSpool(w, Step(w, s, es[0]), es[1..]);
    }
  }

  lemma EveryAnswerIsCurrent(w: World, es: seq<Event>, i: nat)
    requires Sane(w) && i < |Run(w, START, es).answers|
    ensures Describes(w, Run(w, START, es).answers[i])
  {
    AnswersDescribeCurrentSpool(w, START, es);
  }

  /** The collector's own description: how many samples are left after pruning, the length of
      their JSON array, and the time of the first in order, which is an earliest one unless
      an unparseable time straddles. */
  lemma DescriptionIs(w: World, lines: seq<Line>, now: int, x: Sample)
    requires x in Prune(w.policy, ReadLines(w.policy, lines), now)
    requires NoStraddle(w.policy, Prune(w.policy, ReadLines(w.policy, lines), now)) && Parses(w.policy, x)
    ensures var kept, d := Prune(w.policy, ReadLines(w.policy, lines), now), Described(w, lines, now);
      && d.count == |kept| && d.bytes == ArrayBytes(w.policy, Sort(w.policy, kept))
      && (w.policy.parse(d.oldest).Some? ==> w.policy.parse(d.oldest).value <= TimeOf(w.policy, x))
      && exists y :: y in kept && y.sampledAt == d.oldest
  {
    var kept := Prune(w.policy, ReadLines(w.policy, lines), now);
    var sorted := Sort(w.policy, kept);
    SortSameMembers(w.policy, kept);
    SortAscends(w.policy, kept);
    assert x in sorted;
    var i :| 0 <= i < |sorted| && sorted[i] == x;
    assert sorted[0] in kept;
  }

  /** What a status request answers when the spool stays as it is meanwhile: the memo if it
      is about this spool, else the state file if that is, else a fresh scan. */
  lemma RequestIsAnswered(w: World, s: System)
    requires s.phase.Idle?
    ensures var r := Step(w, Step(w, Step(w, s, AskPending), ReadState(true)), StatAndRead);
      && |r.answers| == |s.answers| + 1 && r.phase.Idle? && r.spool == s.spool
      && r.answers[|s.answers|].spool == s.spool
      && r.answers[|s.answers|].summary ==
         if s.spool.None? then Summary(0, 0, "")
         else if Matches(s.cache, s.spool) then s.cache.value.summary
         else if Matches(s.stateFile, s.spool) then s.stateFile.value.summary
         else Summary(ScanCount(w.contents(s.spool.value)), s.spool.value.size, ScanOldest(w.contents(s.spool.value)))
  {
  }
}
