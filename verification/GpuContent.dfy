/** What merged graphics-adapter records contain: readings, memory sizes and kinds, and
    which record is matched with which. */
module GpuContent {
  import opened Text
  import opened RecordFolding
  import opened GpuMerge

  // ---- readings

  /** The reading that get returns is taken from the later record if that has it. */
  ghost predicate TakesLater(get: Gpu -> Option<real>, preserve: bool) {
    forall t, c :: get(MergeBy(preserve)(t, c)) == if get(c).Some? then get(c) else get(t)
  }

  ghost function Has(get: Gpu -> Option<real>): Gpu -> bool { (g: Gpu) => get(g).Some? }

  lemma {:induction false} LaterWins(get: Gpu -> Option<real>, preserve: bool, start: Gpu, cs: seq<Gpu>, i: int)
    requires TakesLater(get, preserve)
    ensures var r := Fold(MergeBy(preserve), start, cs);
      && (NoneWith(cs, Has(get)) ==> get(r) == get(start))
      && (LastWith(cs, Has(get), i) ==> get(r) == get(cs[i]))
  {
    if cs != [] {
      var n := |cs| - 1;
      LaterWins(get, preserve, start, cs[..n], i);
      LastInit(cs, Has(get));
    }
  }

  function Encode(): Gpu -> Option<real> { (g: Gpu) => g.encode }

  function Decode(): Gpu -> Option<real> { (g: Gpu) => g.decode }

  function Frequency(): Gpu -> Option<real> { (g: Gpu) => g.frequency }

  lemma MemoryLeavesReadings(t: Gpu, c: Gpu)
    ensures var r := MergeMemory(t, c); r.encode == t.encode && r.decode == t.decode && r.frequency == t.frequency
                                        && r.integrated == t.integrated
  {
  }

  lemma RecordReadings(t: Gpu, c: Gpu, preserve: bool)
    ensures var r := MergeRecord(t, c, preserve);
      && r.encode == (if c.encode.Some? then c.encode else t.encode)
      && r.decode == (if c.decode.Some? then c.decode else t.decode)
      && r.frequency == (if c.frequency.Some? then c.frequency else t.frequency)
      && r.integrated == (t.integrated || c.integrated)
  {
    MemoryLeavesReadings(MergeReadings(t, c), c);
  }

  lemma ReadingsTakeLater(preserve: bool)
    ensures TakesLater(Encode(), preserve) && TakesLater(Decode(), preserve) && TakesLater(Frequency(), preserve)
  {
    forall t, c ensures Encode()(MergeBy(preserve)(t, c)) == (if c.encode.Some? then c.encode else t.encode)
                ensures Decode()(MergeBy(preserve)(t, c)) == (if c.decode.Some? then c.decode else t.decode)
                ensures Frequency()(MergeBy(preserve)(t, c)) == (if c.frequency.Some? then c.frequency else t.frequency)
    {
      RecordReadings(t, c, preserve);
    }
  }

  /** Encoder, decoder and clock readings are those of the last folded record that has
      them, or else the old ones. */
  lemma LatestEngineReadingWins(preserve: bool, start: Gpu, cs: seq<Gpu>, i: int)
    ensures var r := Fold(MergeBy(preserve), start, cs);
      && (NoneWith(cs, Has(Encode())) ==> r.encode == start.encode)
      && (LastWith(cs, Has(Encode()), i) ==> r.encode == cs[i].encode)
      && (NoneWith(cs, Has(Decode())) ==> r.decode == start.decode)
      && (LastWith(cs, Has(Decode()), i) ==> r.decode == cs[i].decode)
      && (NoneWith(cs, Has(Frequency())) ==> r.frequency == start.frequency)
      && (LastWith(cs, Has(Frequency()), i) ==> r.frequency == cs[i].frequency)
  {
    ReadingsTakeLater(preserve);
    LaterWins(Encode(), preserve, start, cs, i);
    LaterWins(Decode(), preserve, start, cs, i);
    LaterWins(Frequency(), preserve, start, cs, i);
  }

  // ---- memory

  /** The same known kind of memory. */
  predicate SameMemory(a: Gpu, c: Gpu) { Known(NormalKind(a.kind)) && NormalKind(c.kind) == NormalKind(a.kind) }

  function Larger(a: nat, c: nat): nat { if a < c then c else a }

  lemma MemoryOfSameKind(t: Gpu, c: Gpu)
    requires SameMemory(t, c)
    ensures var r := MergeMemory(t, c);
      && r.kind == t.kind && r.used == Larger(t.used, c.used)
      && r.total == (if t.total == 0 && c.total == 0 then 0
                     else if c.memoryObserved || c.total > 0 || c.used > 0
                     then Larger(Larger(t.total, c.total), r.used) else t.total)
  {
  }

  lemma RecordOfSameKind(t: Gpu, c: Gpu)
    requires SameMemory(t, c) && Sound(t)
    ensures var r := MergeRecord(t, c, false);
      && r.kind == t.kind && Sound(r) && r.used == Larger(t.used, c.used)
      && r.total == (if t.total == 0 && c.total == 0 then 0 else Larger(Larger(t.total, c.total), r.used))
  {
    KnownRaw(t.kind);
    MergeRecordKeeps(t, c, false);
    MemoryOfSameKind(MergeReadings(t, c), c);
  }

  function MaxUsed(start: Gpu, cs: seq<Gpu>): nat {
    if cs == [] then start.used else Larger(MaxUsed(start, cs[..|cs| - 1]), cs[|cs| - 1].used)
  }

  function MaxTotal(start: Gpu, cs: seq<Gpu>): nat {
    if cs == [] then start.total else Larger(MaxTotal(start, cs[..|cs| - 1]), cs[|cs| - 1].total)
  }

  /** They are the largest of the values. */
  lemma {:induction false} MaximaAre(start: Gpu, cs: seq<Gpu>)
    ensures MaxUsed(start, cs) >= start.used && MaxTotal(start, cs) >= start.total
    ensures forall i :: 0 <= i < |cs| ==> MaxUsed(start, cs) >= cs[i].used && MaxTotal(start, cs) >= cs[i].total
    ensures MaxUsed(start, cs) == start.used || exists i :: 0 <= i < |cs| && MaxUsed(start, cs) == cs[i].used
    ensures MaxTotal(start, cs) == start.total || exists i :: 0 <= i < |cs| && MaxTotal(start, cs) == cs[i].total
  {
    if cs != [] {
      var n := |cs| - 1;
      MaximaAre(start, cs[..n]);
      assert forall i :: 0 <= i < n ==> cs[..n][i] == cs[i];
    }
  }

  ghost function Alike(start: Gpu): Gpu -> bool { (c: Gpu) => SameMemory(start, c) }

  lemma MemoryStep(start: Gpu, t: Gpu, c: Gpu)
    requires Sound(t) && t.kind == start.kind && Alike(start)(c)
    ensures var r := MergeBy(false)(t, c);
      && r.kind == start.kind && Sound(r) && r.used == Larger(t.used, c.used)
      && r.total == (if t.total == 0 && c.total == 0 then 0 else Larger(Larger(t.total, c.total), r.used))
  {
    RecordOfSameKind(t, c);
  }

  lemma MaximaSnoc(start: Gpu, cs: seq<Gpu>)
    requires cs != []
    ensures var n := |cs| - 1;
      && MaxUsed(start, cs) == Larger(MaxUsed(start, cs[..n]), cs[n].used)
      && MaxTotal(start, cs) == Larger(MaxTotal(start, cs[..n]), cs[n].total)
  {
  }

  /** Folding records of one known kind of memory: the use is the largest use; the total is
      zero if every total is, and otherwise the largest total, raised to cover the use. */
  lemma {:induction false} LargestMemoryWins(start: Gpu, cs: seq<Gpu>)
    requires Sound(start) && forall i :: 0 <= i < |cs| ==> Alike(start)(cs[i])
    ensures var r := Fold(MergeBy(false), start, cs);
      && r.kind == start.kind && Sound(r) && r.used == MaxUsed(start, cs)
      && r.total == if MaxTotal(start, cs) == 0 then 0 else Larger(MaxTotal(start, cs), MaxUsed(start, cs))
  {
    if cs != [] {
      var n := |cs| - 1;
      LargestMemoryWins(start, cs[..n]);
      MemoryStep(start, Fold(MergeBy(false), start, cs[..n]), cs[n]);
      MaximaSnoc(start, cs);
    }
  }

  /** Sizes of another known kind, or of an unknown kind, do not touch those of a known one. */
  lemma OtherKindLeavesMemory(t: Gpu, c: Gpu, preserve: bool)
    requires var a, k := NormalKind(t.kind), NormalKind(c.kind);
      Known(a) && k != a && k != ""
    ensures var r := MergeRecord(t, c, preserve);
      r.kind == t.kind && r.used == t.used && r.total == t.total && r.memoryObserved == t.memoryObserved
  {
    KnownRaw(t.kind);
    var read := MergeReadings(t, c);
    assert read.kind == t.kind && read.used == t.used && read.total == t.total && read.memoryObserved == t.memoryObserved;
    ConflictStays(read, c);
  }

  lemma ConflictStays(t: Gpu, c: Gpu)
    requires var a, k := NormalKind(t.kind), NormalKind(c.kind); Known(a) && k != a && k != ""
    ensures MergeMemory(t, c) == t
  {
  }

  /** A record without a kind takes a known kind of the other. */
  lemma MissingKindIsTaken(t: Gpu, c: Gpu, preserve: bool)
    requires t.kind == "" && Known(NormalKind(c.kind))
    ensures MergeRecord(t, c, preserve).kind == c.kind
  {
    KnownRaw(c.kind);
    var read := MergeReadings(t, c);
    assert read.kind == c.kind;
    KindStays(read, c);
  }

  lemma KindStays(t: Gpu, c: Gpu)
    requires t.kind == c.kind && Known(NormalKind(c.kind))
    ensures MergeMemory(t, c).kind == t.kind
  {
  }

  // ---- identity and matching

  /** The record found is the first with the same non-blank id, up to case; if there is
      none, the first whose name matches where an id is blank; negative if neither exists. */
  lemma IdentityIs(names: Names, items: seq<Gpu>, c: Gpu, i: nat)
    requires i < |items|
    ensures var r := IdentityOf(names, items, c);
      var same := TrimSpace(c.id) != "" && TrimSpace(items[i].id) != "" && ToLower(items[i].id) == ToLower(c.id);
      var alike := (TrimSpace(items[i].id) == "" || TrimSpace(c.id) == "") && names.matches(items[i].name, c.name);
      && (same ==> 0 <= r <= i && SameId(items[r].id, c.id))
      && (alike ==> r >= 0 && (SameId(items[r].id, c.id) || r <= i))
      && (r == i ==> same || alike)
  {
    var id, name := IdMatch(items, c), NameMatch(names, items, c);
    assert id(i) <==> TrimSpace(c.id) != "" && TrimSpace(items[i].id) != "" && ToLower(items[i].id) == ToLower(c.id);
    assert name(i) <==> (TrimSpace(items[i].id) == "" || TrimSpace(c.id) == "") && names.matches(items[i].name, c.name);
  }

  /** Overlay record k has the same id, up to case, or a matching name. */
  predicate Direct(names: Names, g: Gpu, c: Gpu) {
    (c.id != "" && EqualFold(g.id, c.id)) || names.matches(g.name, c.name)
  }

  /** The match of a record: the first free overlay record with its id or name; without one,
      the free record of the same vendor before which as many free ones of the vendor stand
      as records of the vendor stand before it; negative if there is no such record. */
  lemma MatchIs(names: Names, result: seq<Gpu>, index: nat, overlay: seq<Gpu>, taken: seq<bool>, k: nat)
    requires index < |result| && |taken| == |overlay| && k < |overlay|
    ensures var r, g := MatchOf(names, result, index, overlay, taken), result[index];
      var vendor := names.vendor(g.name, g.id);
      && (!taken[k] && Direct(names, g, overlay[k]) ==> 0 <= r <= k && Direct(names, g, overlay[r]))
      && (r == k ==> !taken[k])
      && (r == k && !Direct(names, g, overlay[k]) ==>
            && vendor != "" && names.vendor(overlay[k].name, overlay[k].id) == vendor
            && Count(k, VendorMatch(names, vendor, overlay, taken)) == Count(index, SameVendor(names, result, vendor)))
      && ((forall m :: 0 <= m < |overlay| && !taken[m] ==> !Direct(names, g, overlay[m]))
          && !taken[k] && vendor != "" && names.vendor(overlay[k].name, overlay[k].id) == vendor
          && Count(k, VendorMatch(names, vendor, overlay, taken)) == Count(index, SameVendor(names, result, vendor))
          ==> r == k)
  {
    var g := result[index];
    var vendor := names.vendor(g.name, g.id);
    assert DirectMatch(names, g, overlay, taken)(k) <==> !taken[k] && Direct(names, g, overlay[k]);
    var direct := FirstIndex(|overlay|, DirectMatch(names, g, overlay, taken));
    assert direct >= 0 ==> DirectMatch(names, g, overlay, taken)(direct);
    var same := VendorMatch(names, vendor, overlay, taken);
    assert same(k) <==> !taken[k] && names.vendor(overlay[k].name, overlay[k].id) == vendor;
    if same(k) {
      NthIs(|overlay|, same, k);
    }
  }

  lemma {:induction false} FewerBefore(p: int -> bool, m: nat, r: nat)
    requires m < r && p(m)
    ensures Count(m, p) < Count(r, p)
  {
    if m < r - 1 {
      FewerBefore(p, m, r - 1);
    }
  }

  lemma {:induction false} NoneSoFar(p: int -> bool, k: nat, r: nat)
    requires forall m: nat :: m < r && p(m) ==> Count(m, p) != k
    ensures NthIndex(r, p, k) < 0
  {
    if r > 0 {
      NoneSoFar(p, k, r - 1);
    }
  }

  lemma NthIs(n: nat, p: int -> bool, r: nat)
    requires r < n && p(r)
    ensures NthIndex(n, p, Count(r, p)) == r
  {
    forall m: nat | m < r && p(m) ensures Count(m, p) != Count(r, p) {
      FewerBefore(p, m, r);
    }
    NoneSoFar(p, Count(r, p), r);
    NthFound(n, p, Count(r, p), r);
  }
}
