/** Decoding a voltage-state table and the residency-weighted graphics frequency. */
module Dvfs {
  import opened Text
  import opened Picking

  const ENTRY := 8
  const MAX_ENTRIES := 128

  type byte = x | 0 <= x < 256

  /** The little-endian word at the start of entry i. */
  function Word(raw: seq<byte>, i: nat): nat
    requires (i + 1) * ENTRY <= |raw|
  {
    var at := i * ENTRY;
    raw[at] as int + 0x100 * (raw[at + 1] as int) + 0x1_0000 * (raw[at + 2] as int) + 0x100_0000 * (raw[at + 3] as int)
  }

  predicate WellSized(raw: seq<byte>) { raw != [] && |raw| % ENTRY == 0 && |raw| <= MAX_ENTRIES * ENTRY }

  /** The words of the first n entries. */
  function Words(raw: seq<byte>, n: nat): (r: seq<nat>)
    requires n * ENTRY <= |raw|
    ensures |r| == n
  {
    if n == 0 then [] else Words(raw, n - 1) + [Word(raw, n - 1)]
  }

  /** Hertz on newer chips, kilohertz before. */
  function Megahertz(word: nat): real {
    if word >= 100_000_000 then word as real / 1000000.0 else word as real / 1000.0
  }

  function DropZeros(words: seq<nat>): seq<nat> {
    if words != [] && words[0] == 0 then DropZeros(words[1..]) else words
  }

  function Frequencies(words: seq<nat>): (r: seq<real>)
    ensures |r| == |words| && forall i :: 0 <= i < |r| ==> r[i] == Megahertz(words[i])
  {
    seq(|words|, i requires 0 <= i < |words| => Megahertz(words[i]))
  }

  predicate InBand(f: real) { 100.0 <= f <= 10000.0 }

  /** Strictly increasing frequencies within 100 to 10000 MHz. */
  ghost predicate Ladder(table: seq<real>) {
    && (forall i :: 0 <= i < |table| ==> InBand(table[i]))
    && (forall i, j :: 0 <= i < j < |table| ==> table[i] < table[j])
  }

  lemma {:induction false} DropZerosSnoc(words: seq<nat>, w: nat)
    ensures DropZeros(words + [w]) == if DropZeros(words) == [] && w == 0 then [] else DropZeros(words) + [w]
  {
    if words == [] {
      assert words + [w] == [w] && [w][1..] == [];
    } else {
      assert (words + [w])[0] == words[0] && (words + [w])[1..] == words[1..] + [w];
      if words[0] == 0 {
        DropZerosSnoc(words[1..], w);
      }
    }
  }

  lemma FrequenciesSnoc(words: seq<nat>, w: nat)
    ensures Frequencies(words + [w]) == Frequencies(words) + [Megahertz(w)]
  {
  }

  lemma LadderSnoc(table: seq<real>, f: real)
    requires Ladder(table)
    ensures Ladder(table + [f]) <==> InBand(f) && (table != [] ==> table[|table| - 1] < f)
  {
    var t := table + [f];
    assert t[|table|] == f && (table != [] ==> t[|table| - 1] == table[|table| - 1]);
    if InBand(f) && (table != [] ==> table[|table| - 1] < f) {
      forall i, j | 0 <= i < j < |t| ensures t[i] < t[j] {
        assert j == |table| && i < |table| - 1 ==> table[i] < table[|table| - 1];
      }
    }
  }

  /** The table of the first n entries. */
  function TableAt(raw: seq<byte>, n: nat): seq<real>
    requires n * ENTRY <= |raw|
  {
    Frequencies(DropZeros(Words(raw, n)))
  }

  lemma TableGrows(raw: seq<byte>, n: nat)
    requires (n + 1) * ENTRY <= |raw|
    ensures TableAt(raw, n + 1) == WithEntry(TableAt(raw, n), Word(raw, n))
  {
    DropZerosSnoc(Words(raw, n), Word(raw, n));
    FrequenciesSnoc(DropZeros(Words(raw, n)), Word(raw, n));
  }

  lemma {:induction false} BadStaysBad(raw: seq<byte>, n: nat, m: nat)
    requires n <= m && m * ENTRY <= |raw| && !Ladder(TableAt(raw, n))
    ensures !Ladder(TableAt(raw, m))
  {
    if n < m {
      BadStaysBad(raw, n, m - 1);
      TableGrows(raw, m - 1);
      LadderInit(TableAt(raw, m - 1), Megahertz(Word(raw, m - 1)));
    }
  }

  lemma LadderInit(table: seq<real>, f: real)
    requires !Ladder(table)
    ensures !Ladder(table + [f])
  {
    var t := table + [f];
    assert forall i :: 0 <= i < |table| ==> t[i] == table[i];
  }

  /** The table with one more entry; a zero entry before any other is dropped. */
  function WithEntry(table: seq<real>, word: nat): seq<real> {
    if table == [] && word == 0 then table else table + [Megahertz(word)]
  }

  function LastOf(table: seq<real>): real { if table == [] then 0.0 else table[|table| - 1] }

  method AddEntry(table: seq<real>, previous: real, word: nat) returns (ok: bool, grown: seq<real>, last: real)
    requires Ladder(table) && previous == LastOf(table)
    ensures ok == Ladder(WithEntry(table, word))
    ensures ok ==> grown == WithEntry(table, word) && last == LastOf(grown)
  {
    if word == 0 && |table| == 0 {
      return true, table, previous;
    }
    var mhz := Megahertz(word);
    LadderSnoc(table, mhz);
    if mhz < 100.0 || mhz > 10000.0 || mhz <= previous {
      return false, table, previous;
    }
    return true, table + [mhz], mhz;
  }

  /** A well-sized table is returned exactly when its frequencies, after the leading zero
      entries, form a ladder; nothing else ever is. */
  method ParseTable(raw: seq<byte>) returns (r: Option<seq<real>>)
    ensures !WellSized(raw) ==> r == None
    ensures WellSized(raw) ==>
              var table := TableAt(raw, |raw| / ENTRY);
              r == if Ladder(table) then Some(table) else None
  {
    if |raw| == 0 || |raw| % ENTRY != 0 || |raw| > MAX_ENTRIES * ENTRY {
      return None;
    }
    var table: seq<real> := [];
    var previous := 0.0;
    var n := 0;
    while n < |raw| / ENTRY
      invariant 0 <= n <= |raw| / ENTRY
      invariant table == TableAt(raw, n) && Ladder(table) && previous == LastOf(table)
    {
      TableGrows(raw, n);
      var ok;
      ok, table, previous := AddEntry(table, previous, Word(raw, n));
      if !ok {
        BadStaysBad(raw, n + 1, |raw| / ENTRY);
        return None;
      }
      n := n + 1;
    }
    return Some(table);
  }

  // ---- the weighted mean

  datatype State = State(name: string, residency: int)

  predicate Resting(name: string) {
    var n := TrimSpace(name);
    EqualFold(n, "idle") || EqualFold(n, "off") || EqualFold(n, "down")
  }

  function Rests(): State -> bool { (s: State) => Resting(s.name) }

  /** Those of the first n states that do not rest. */
  function Active(states: seq<State>, rests: State -> bool, n: nat): seq<State>
    requires n <= |states|
  {
    if n == 0 then []
    else if rests(states[n - 1]) then Active(states, rests, n - 1)
    else Active(states, rests, n - 1) + [states[n - 1]]
  }

  predicate AnyNegative(active: seq<State>) { exists i :: 0 <= i < |active| && active[i].residency < 0 }

  function Weighted(active: seq<State>, table: seq<real>, n: nat): real
    requires n <= |active| == |table|
  {
    if n == 0 then 0.0 else Weighted(active, table, n - 1) + table[n - 1] * active[n - 1].residency as real
  }

  function Total(active: seq<State>, n: nat): real
    requires n <= |active|
  {
    if n == 0 then 0.0 else Total(active, n - 1) + active[n - 1].residency as real
  }

  function AllActive(states: seq<State>): seq<State> { Active(states, Rests(), |states|) }

  /** The active states of the first n channels. */
  function ActiveLists(channels: seq<seq<State>>, n: nat): (r: seq<seq<State>>)
    requires n <= |channels|
    ensures |r| == n
  {
    if n == 0 then [] else ActiveLists(channels, n - 1) + [AllActive(channels[n - 1])]
  }

  /** Weighted and plain residency over those lists that map onto the table. */
  function WeightedSum(lists: seq<seq<State>>, table: seq<real>): real {
    if lists == [] then 0.0
    else
      var last := lists[|lists| - 1];
      WeightedSum(lists[..|lists| - 1], table) + if |last| == |table| then Weighted(last, table, |table|) else 0.0
  }

  function TotalSum(lists: seq<seq<State>>, table: seq<real>): real {
    if lists == [] then 0.0
    else
      var last := lists[|lists| - 1];
      TotalSum(lists[..|lists| - 1], table) + if |last| == |table| then Total(last, |table|) else 0.0
  }

  /** A list that maps onto the table holds a negative residency. */
  predicate Broken(lists: seq<seq<State>>, table: seq<real>) {
    exists i :: 0 <= i < |lists| && |lists[i]| == |table| && AnyNegative(lists[i])
  }

  /** The residency-weighted mean; none without a table, with a negative residency, or
      when nothing was active. */
  function MeanOf(lists: seq<seq<State>>, table: seq<real>): Option<real> {
    if table == [] || Broken(lists, table) || TotalSum(lists, table) == 0.0 then None
    else Some(WeightedSum(lists, table) / TotalSum(lists, table))
  }

  function Mean(channels: seq<seq<State>>, table: seq<real>): Option<real> {
    MeanOf(ActiveLists(channels, |channels|), table)
  }

  method ActiveStates(states: seq<State>) returns (active: seq<State>)
    ensures active == AllActive(states)
  {
    active := [];
    for n := 0 to |states|
      invariant active == Active(states, Rests(), n)
    {
      if !Resting(states[n].name) {
        active := active + [states[n]];
      }
    }
  }

  /** Adds one channel's residencies; fails on a negative one. */
  method AddChannel(active: seq<State>, table: seq<real>, weighted0: real, total0: real)
    returns (ok: bool, weighted: real, total: real)
    requires |active| == |table|
    ensures ok == !AnyNegative(active)
    ensures ok ==> weighted == weighted0 + Weighted(active, table, |table|) && total == total0 + Total(active, |table|)
  {
    weighted, total := weighted0, total0;
    for n := 0 to |active|
      invariant forall i :: 0 <= i < n ==> active[i].residency >= 0
      invariant weighted == weighted0 + Weighted(active, table, n) && total == total0 + Total(active, n)
    {
      if active[n].residency < 0 {
        return false, weighted, total;
      }
      weighted := weighted + table[n] * active[n].residency as real;
      total := total + active[n].residency as real;
    }
    ok := true;
  }

  lemma SumsSnoc(lists: seq<seq<State>>, last: seq<State>, table: seq<real>)
    ensures WeightedSum(lists + [last], table) ==
            WeightedSum(lists, table) + if |last| == |table| then Weighted(last, table, |table|) else 0.0
    ensures TotalSum(lists + [last], table) ==
            TotalSum(lists, table) + if |last| == |table| then Total(last, |table|) else 0.0
    ensures Broken(lists + [last], table) <==> Broken(lists, table) || (|last| == |table| && AnyNegative(last))
  {
    var all := lists + [last];
    assert all[..|lists|] == lists && all[|lists|] == last;
    if Broken(lists, table) {
      BrokenGrows(lists, all, table);
    }
  }

  lemma BrokenGrows(lists: seq<seq<State>>, longer: seq<seq<State>>, table: seq<real>)
    requires lists <= longer && Broken(lists, table)
    ensures Broken(longer, table)
  {
    var i :| 0 <= i < |lists| && |lists[i]| == |table| && AnyNegative(lists[i]);
    assert longer[i] == lists[i];
  }

  lemma {:induction false} ListsGrow(channels: seq<seq<State>>, n: nat, m: nat)
    requires n <= m <= |channels|
    ensures ActiveLists(channels, n) <= ActiveLists(channels, m)
  {
    if n < m {
      ListsGrow(channels, n, m - 1);
    }
  }

  /** The sums after n channels. */
  ghost predicate Summed(lists: seq<seq<State>>, table: seq<real>, weighted: real, total: real) {
    !Broken(lists, table) && weighted == WeightedSum(lists, table) && total == TotalSum(lists, table)
  }

  method AddNext(states: seq<State>, table: seq<real>, ghost lists: seq<seq<State>>, weighted0: real, total0: real)
    returns (ok: bool, weighted: real, total: real)
    requires Summed(lists, table, weighted0, total0)
    ensures ok ==> Summed(lists + [AllActive(states)], table, weighted, total)
    ensures !ok ==> Broken(lists + [AllActive(states)], table)
  {
    ok, weighted, total := true, weighted0, total0;
    var active := ActiveStates(states);
    SumsSnoc(lists, active, table);
    if |active| == |table| {
      ok, weighted, total := AddChannel(active, table, weighted, total);
    }
  }

  method GpuFrequency(channels: seq<seq<State>>, table: seq<real>) returns (r: Option<real>)
    ensures r == Mean(channels, table)
  {
    if |table| == 0 {
      return None;
    }
    var weighted, total := 0.0, 0.0;
    for n := 0 to |channels|
      invariant Summed(ActiveLists(channels, n), table, weighted, total)
    {
      var ok;
      ok, weighted, total := AddNext(channels[n], table, ActiveLists(channels, n), weighted, total);
      if !ok {
        ListsGrow(channels, n + 1, |channels|);
        BrokenGrows(ActiveLists(channels, n + 1), ActiveLists(channels, |channels|), table);
        return None;
      }
    }
    if total == 0.0 {
      return None;
    }
    return Some(weighted / total);
  }

  // ---- the mean lies within the table

  ghost predicate Within(low: real, high: real, weighted: real, total: real) {
    total >= 0.0 && low * total <= weighted <= high * total
  }

  lemma WithinAdd(low: real, high: real, w: real, t: real, w2: real, t2: real)
    requires Within(low, high, w, t) && Within(low, high, w2, t2)
    ensures Within(low, high, w + w2, t + t2)
  {
    assert low * (t + t2) == low * t + low * t2 && high * (t + t2) == high * t + high * t2;
  }

  lemma WithinOne(low: real, high: real, f: real, r: real)
    requires low <= f <= high && r >= 0.0
    ensures Within(low, high, f * r, r)
  {
    assert (f - low) * r >= 0.0 && (high - f) * r >= 0.0;
  }

  lemma WithinStep(low: real, high: real, w: real, t: real, f: real, r: real)
    requires Within(low, high, w, t) && low <= f <= high && r >= 0.0
    ensures Within(low, high, w + f * r, t + r)
  {
    WithinOne(low, high, f, r);
    WithinAdd(low, high, w, t, f * r, r);
  }

  lemma WithinMean(low: real, high: real, weighted: real, total: real)
    requires Within(low, high, weighted, total) && total != 0.0
    ensures low <= weighted / total <= high
  {
  }

  ghost predicate Bounded(table: seq<real>, low: real, high: real) {
    forall i :: 0 <= i < |table| ==> low <= table[i] <= high
  }

  lemma {:induction false} ListWithin(active: seq<State>, table: seq<real>, n: nat, low: real, high: real)
    requires n <= |active| == |table| && Bounded(table, low, high) && !AnyNegative(active)
    ensures Within(low, high, Weighted(active, table, n), Total(active, n))
  {
    if n > 0 {
      ListWithin(active, table, n - 1, low, high);
      assert active[n - 1].residency >= 0;
      WithinStep(low, high, Weighted(active, table, n - 1), Total(active, n - 1), table[n - 1], active[n - 1].residency as real);
    }
  }

  lemma {:induction false} SumsWithin(lists: seq<seq<State>>, table: seq<real>, low: real, high: real)
    requires Bounded(table, low, high) && !Broken(lists, table)
    ensures Within(low, high, WeightedSum(lists, table), TotalSum(lists, table))
  {
    if lists != [] {
      var before, last := lists[..|lists| - 1], lists[|lists| - 1];
      assert lists == before + [last];
      SumsSnoc(before, last, table);
      SumsWithin(before, table, low, high);
      if |last| == |table| {
        ListWithin(last, table, |table|, low, high);
        WithinAdd(low, high, WeightedSum(before, table), TotalSum(before, table), Weighted(last, table, |table|), Total(last, |table|));
      }
    }
  }

  lemma LadderBounded(table: seq<real>)
    requires Ladder(table) && table != []
    ensures Bounded(table, table[0], table[|table| - 1])
  {
    forall i | 0 <= i < |table| ensures table[0] <= table[i] <= table[|table| - 1] {
      assert 0 < i ==> table[0] < table[i];
      assert i < |table| - 1 ==> table[i] < table[|table| - 1];
    }
  }

  lemma MeanWithin(lists: seq<seq<State>>, table: seq<real>)
    requires Ladder(table) && MeanOf(lists, table).Some?
    ensures table != [] && table[0] <= MeanOf(lists, table).value <= table[|table| - 1]
  {
    LadderBounded(table);
    SumsWithin(lists, table, table[0], table[|table| - 1]);
    WithinMean(table[0], table[|table| - 1], WeightedSum(lists, table), TotalSum(lists, table));
  }

  /** Any frequency computed from a table that the decoder returns lies between the table's
      first and last entry, for any channels and residencies. */
  lemma FrequencyWithinTable(channels: seq<seq<State>>, table: seq<real>)
    requires Ladder(table) && Mean(channels, table).Some?
    ensures table != [] && table[0] <= Mean(channels, table).value <= table[|table| - 1]
    ensures InBand(Mean(channels, table).value)
  {
    MeanWithin(ActiveLists(channels, |channels|), table);
  }

  // ---- what the entries and the mean stand for

  /** The word of an entry is the number whose four bytes, lowest first, open it. */
  lemma WordIs(raw: seq<byte>, i: nat, w: nat)
    requires (i + 1) * ENTRY <= |raw| && w < 0x1_0000_0000
    requires raw[8 * i] == w % 256 && raw[8 * i + 1] == w / 256 % 256
    requires raw[8 * i + 2] == w / 256 / 256 % 256 && raw[8 * i + 3] == w / 256 / 256 / 256
    ensures Word(raw, i) == w
  {
    var q := w / 256;
    var p := q / 256;
    assert w == 256 * q + w % 256 && q == 256 * p + q % 256 && p == 256 * (p / 256) + p % 256;
  }

  /** f is the word's frequency: from a hundred million on the word counts hertz, below it
      kilohertz. */
  ghost predicate InMegahertz(word: nat, f: real) {
    if word >= 100_000_000 then f * 1_000_000.0 == word as real else f * 1_000.0 == word as real
  }

  lemma {:induction false} LeadingZeros(words: seq<nat>) returns (z: nat)
    ensures z <= |words| && DropZeros(words) == words[z..] && (forall i :: 0 <= i < z ==> words[i] == 0)
    ensures z < |words| ==> words[z] != 0
  {
    z := 0;
    if words != [] && words[0] == 0 {
      z := LeadingZeros(words[1..]);
      assert words[1..][z..] == words[z + 1..];
      assert forall i :: 1 <= i < z + 1 ==> words[i] == words[1..][i - 1];
      z := z + 1;
    }
  }

  lemma {:induction false} WordsAt(raw: seq<byte>, n: nat, i: nat)
    requires n * ENTRY <= |raw| && i < n
    ensures Words(raw, n)[i] == Word(raw, i)
  {
    if i < n - 1 {
      WordsAt(raw, n - 1, i);
    }
  }

  /** The table holds, in order, the frequency of every entry after the leading zero ones. */
  lemma TableIs(raw: seq<byte>, n: nat) returns (z: nat)
    requires n * ENTRY <= |raw|
    ensures z <= n && |TableAt(raw, n)| == n - z && (forall i: nat :: i < z ==> Word(raw, i) == 0)
    ensures z < n ==> Word(raw, z) != 0
    ensures forall i: nat :: z <= i < n ==> InMegahertz(Word(raw, i), TableAt(raw, n)[i - z])
  {
    z := LeadingZeros(Words(raw, n));
    forall i: nat | i < n ensures Words(raw, n)[i] == Word(raw, i) {
      WordsAt(raw, n, i);
    }
  }

  /** Only state i of the list was ever active. */
  ghost predicate OnlyAt(active: seq<State>, i: nat) {
    forall k :: 0 <= k < |active| && k != i ==> active[k].residency == 0
  }

  /** So it is in every list that maps onto a table of n entries. */
  ghost predicate AllOnlyAt(lists: seq<seq<State>>, n: nat, i: nat) {
    forall k :: 0 <= k < |lists| && |lists[k]| == n ==> OnlyAt(lists[k], i)
  }

  ghost predicate Even(f: real, w: real, t: real) { w == f * t }

  lemma EvenAdd(f: real, w: real, t: real, w2: real, t2: real)
    requires Even(f, w, t) && Even(f, w2, t2)
    ensures Even(f, w + w2, t + t2)
  {
    assert f * (t + t2) == f * t + f * t2;
  }

  lemma EvenOne(table: seq<real>, active: seq<State>, k: nat, i: nat)
    requires k < |active| == |table| && i < |table| && OnlyAt(active, i)
    ensures Even(table[i], table[k] * active[k].residency as real, active[k].residency as real)
  {
    if k != i {
      assert active[k].residency as real == 0.0;
    }
  }

  lemma {:induction false} OneStateList(active: seq<State>, table: seq<real>, n: nat, i: nat)
    requires n <= |active| == |table| && i < |table| && OnlyAt(active, i)
    ensures Even(table[i], Weighted(active, table, n), Total(active, n))
  {
    if n > 0 {
      OneStateList(active, table, n - 1, i);
      EvenOne(table, active, n - 1, i);
      EvenAdd(table[i], Weighted(active, table, n - 1), Total(active, n - 1),
              table[n - 1] * active[n - 1].residency as real, active[n - 1].residency as real);
    }
  }

  lemma {:induction false} OneStateSums(lists: seq<seq<State>>, table: seq<real>, i: nat)
    requires i < |table| && AllOnlyAt(lists, |table|, i)
    ensures Even(table[i], WeightedSum(lists, table), TotalSum(lists, table))
  {
    if lists != [] {
      var before, last := lists[..|lists| - 1], lists[|lists| - 1];
      assert lists == before + [last];
      SumsSnoc(before, last, table);
      OneStateSums(before, table, i);
      if |last| == |table| {
        OneStateList(last, table, |table|, i);
        EvenAdd(table[i], WeightedSum(before, table), TotalSum(before, table), Weighted(last, table, |table|), Total(last, |table|));
      }
    }
  }

  lemma EvenMean(f: real, w: real, t: real)
    requires Even(f, w, t) && t != 0.0
    ensures w / t == f
  {
  }

  lemma OneStateMean(lists: seq<seq<State>>, table: seq<real>, i: nat)
    requires i < |table| && MeanOf(lists, table).Some? && AllOnlyAt(lists, |table|, i)
    ensures MeanOf(lists, table).value == table[i]
  {
    OneStateSums(lists, table, i);
    EvenMean(table[i], WeightedSum(lists, table), TotalSum(lists, table));
  }

  /** Time spent in a single performance state gives exactly that state's frequency. */
  lemma OneStateGivesItsFrequency(channels: seq<seq<State>>, table: seq<real>, i: nat)
    requires i < |table| && Mean(channels, table).Some?
    requires AllOnlyAt(ActiveLists(channels, |channels|), |table|, i)
    ensures Mean(channels, table).value == table[i]
  {
    OneStateMean(ActiveLists(channels, |channels|), table, i);
  }

  function Awake(states: seq<State>, rests: State -> bool): nat -> bool {
    (i: nat) => i < |states| && !rests(states[i])
  }

  /** The resting states are those named idle, off or down, in any case. */
  lemma RestingIff(name: string)
    ensures Resting(name) <==> ToLower(TrimSpace(name)) in {"idle", "off", "down"}
  {
    assert ToLower("idle") == "idle" && ToLower("off") == "off" && ToLower("down") == "down";
  }

  lemma {:induction false} ActiveUpTo(states: seq<State>, rests: State -> bool, want: nat -> bool, n: nat)
    requires n <= |states| && forall i: nat :: i < |states| ==> want(i) == !rests(states[i])
    ensures Active(states, rests, n) == Wanted(states, want, n)
  {
    if n > 0 {
      ActiveUpTo(states, rests, want, n - 1);
      WantedNext(states, want, n - 1);
    }
  }

  /** The active states are those that do not rest, in order. */
  lemma ActiveAre(states: seq<State>)
    ensures AllActive(states) == Wanted(states, Awake(states, Rests()), |states|)
  {
    ActiveUpTo(states, Rests(), Awake(states, Rests()), |states|);
  }

  /** Some state of some list that maps onto the table was active for a while. */
  ghost predicate SomeActive(lists: seq<seq<State>>, n: nat) {
    exists k, i :: 0 <= k < |lists| && |lists[k]| == n && 0 <= i < n && lists[k][i].residency > 0
  }

  lemma {:induction false} TotalIsPositive(active: seq<State>, n: nat)
    requires n <= |active| && !AnyNegative(active)
    ensures Total(active, n) >= 0.0
    ensures Total(active, n) > 0.0 <==> exists i :: 0 <= i < n && active[i].residency > 0
  {
    if n > 0 {
      TotalIsPositive(active, n - 1);
      assert active[n - 1].residency >= 0;
    }
  }

  lemma {:induction false} TotalSumIsPositive(lists: seq<seq<State>>, table: seq<real>)
    requires !Broken(lists, table)
    ensures TotalSum(lists, table) >= 0.0
    ensures TotalSum(lists, table) > 0.0 <==> SomeActive(lists, |table|)
  {
    if lists != [] {
      var before, last := lists[..|lists| - 1], lists[|lists| - 1];
      assert lists == before + [last];
      SumsSnoc(before, last, table);
      TotalSumIsPositive(before, table);
      SomeActiveSnoc(before, last, |table|);
      if |last| == |table| {
        TotalIsPositive(last, |table|);
      }
    }
  }

  lemma SomeActiveSnoc(lists: seq<seq<State>>, last: seq<State>, n: nat)
    ensures SomeActive(lists + [last], n) <==>
            SomeActive(lists, n) || (|last| == n && exists i :: 0 <= i < n && last[i].residency > 0)
  {
    var all := lists + [last];
    assert all[|lists|] == last && forall k :: 0 <= k < |lists| ==> all[k] == lists[k];
    if SomeActive(lists, n) {
      var k, i :| 0 <= k < |lists| && |lists[k]| == n && 0 <= i < n && lists[k][i].residency > 0;
      assert all[k][i].residency > 0;
    }
  }

  /** There is a frequency exactly if there is a table, no list that maps onto it holds a
      negative residency, and some state of such a list was active. */
  lemma MeanKnownIff(lists: seq<seq<State>>, table: seq<real>)
    ensures MeanOf(lists, table).Some? <==> table != [] && !Broken(lists, table) && SomeActive(lists, |table|)
  {
    if !Broken(lists, table) {
      TotalSumIsPositive(lists, table);
    }
  }
}
