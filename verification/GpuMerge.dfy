/** Merging graphics-adapter records from several probes into one list. How two adapter
    names are matched and which vendor a name belongs to are arbitrary parameters. */
module GpuMerge {
  import opened Text
  import opened RecordFolding

  datatype Gpu = Gpu(id: string, name: string, utilization: real, encode: Option<real>, decode: Option<real>,
                     frequency: Option<real>, integrated: bool, kind: string, used: nat, total: nat,
                     temperature: Option<real>, temperatureSource: string, driver: string,
                     utilizationObserved: bool, memoryObserved: bool)

  datatype Names = Names(matches: (string, string) -> bool, vendor: (string, string) -> string)

  // ---- one record

  /** The recognised memory kinds; anything else is the empty kind. */
  function NormalKind(value: string): string {
    var k := ToLower(TrimSpace(value));
    if k == "dedicated" || k == "shared" || k == "unified" || k == "unknown" then k else ""
  }

  predicate Known(kind: string) { kind != "" && kind != "unknown" }

  /** The memory kinds are known and differ, or only the target's is known. */
  predicate OtherMemory(target: Gpu, candidate: Gpu) {
    var t, c := NormalKind(target.kind), NormalKind(candidate.kind);
    Known(t) && ((Known(c) && t != c) || c == "unknown")
  }

  function MergeKind(target: Gpu, candidate: Gpu): string {
    var t, c := NormalKind(target.kind), NormalKind(candidate.kind);
    if !Known(t) && c != "" then c else target.kind
  }

  /** The larger total and the larger observed use; a positive total covers the use. */
  function MergeBytes(target: Gpu, candidate: Gpu): Gpu {
    var total := if candidate.total > target.total then candidate.total else target.total;
    var used := if candidate.used > target.used then candidate.used else target.used;
    target.(used := used, total := if 0 < total < used then used else total,
            memoryObserved := target.memoryObserved || candidate.memoryObserved)
  }

  function MergeMemory(target: Gpu, candidate: Gpu): Gpu {
    if OtherMemory(target, candidate) then target
    else
      var t := target.(kind := MergeKind(target, candidate));
      if candidate.memoryObserved || candidate.total > 0 || candidate.used > 0 then MergeBytes(t, candidate) else t
  }

  function OrElse<T>(first: Option<T>, second: Option<T>): Option<T> { if first.Some? then first else second }

  /** Everything but the memory sizes. */
  function MergeReadings(target: Gpu, candidate: Gpu): Gpu {
    var busy := candidate.utilizationObserved || candidate.utilization > 0.0;
    target.(utilization := if busy then candidate.utilization else target.utilization,
            utilizationObserved := busy || target.utilizationObserved,
            encode := OrElse(candidate.encode, target.encode),
            decode := OrElse(candidate.decode, target.decode),
            frequency := OrElse(candidate.frequency, target.frequency),
            integrated := target.integrated || candidate.integrated,
            kind := if !Known(target.kind) && candidate.kind != "" then candidate.kind else target.kind,
            temperature := OrElse(candidate.temperature, target.temperature),
            temperatureSource := if candidate.temperature.Some? then candidate.temperatureSource
                                 else target.temperatureSource)
  }

  function MergeRecord(target: Gpu, candidate: Gpu, preserve: bool): Gpu {
    var read := MergeReadings(target, candidate);
    var sized := if preserve && read.memoryObserved then read else MergeMemory(read, candidate);
    if sized.driver == "" then sized.(driver := candidate.driver) else sized
  }

  /** No memory use beyond a known total. */
  predicate Sound(g: Gpu) { g.total == 0 || g.used <= g.total }

  lemma KnownRaw(kind: string)
    requires Known(NormalKind(kind))
    ensures Known(kind)
  {
    assert Trimmed("unknown") && ToLower("unknown") == "unknown";
  }

  /** r is t, possibly with more readings: same identity, same known memory kind, and
      sound if t is. */
  ghost predicate Keeps(t: Gpu, r: Gpu) {
    && r.id == t.id && r.name == t.name
    && (Known(NormalKind(t.kind)) ==> r.kind == t.kind)
    && (Sound(t) ==> Sound(r))
  }

  lemma MemoryKeeps(t: Gpu, c: Gpu)
    ensures Keeps(t, MergeMemory(t, c))
  {
  }

  lemma ReadingsKeep(t: Gpu, c: Gpu)
    ensures Keeps(t, MergeReadings(t, c))
  {
    if Known(NormalKind(t.kind)) {
      KnownRaw(t.kind);
    }
  }

  /** Merging one record into another keeps its identity, a known memory kind and the
      soundness of the memory sizes. */
  lemma MergeRecordKeeps(t: Gpu, c: Gpu, preserve: bool)
    ensures Keeps(t, MergeRecord(t, c, preserve))
  {
    ReadingsKeep(t, c);
    MemoryKeeps(MergeReadings(t, c), c);
  }

  // ---- indices

  function FirstIndex(n: nat, p: int -> bool): (r: int)
    ensures -1 <= r < n
    ensures r >= 0 ==> p(r) && forall k :: 0 <= k < r ==> !p(k)
    ensures r < 0 ==> forall k :: 0 <= k < n ==> !p(k)
  {
    if n == 0 then -1
    else
      var r := FirstIndex(n - 1, p);
      if r >= 0 then r else if p(n - 1) then n - 1 else -1
  }

  function Count(n: nat, p: int -> bool): nat {
    if n == 0 then 0 else Count(n - 1, p) + if p(n - 1) then 1 else 0
  }

  /** The index with k earlier ones, among those that satisfy p. */
  function NthIndex(n: nat, p: int -> bool, k: nat): (r: int)
    ensures -1 <= r < n
    ensures r >= 0 ==> p(r) && Count(r, p) == k
  {
    if n == 0 then -1
    else
      var r := NthIndex(n - 1, p, k);
      if r >= 0 then r else if p(n - 1) && Count(n - 1, p) == k then n - 1 else -1
  }

  // ---- identity

  predicate Blank(id: string) { TrimSpace(id) == "" }

  predicate SameId(a: string, b: string) { !Blank(a) && !Blank(b) && EqualFold(a, b) }

  function IdMatch(items: seq<Gpu>, c: Gpu): int -> bool {
    (i: int) => 0 <= i < |items| && SameId(items[i].id, c.id)
  }

  function NameMatch(names: Names, items: seq<Gpu>, c: Gpu): int -> bool {
    (i: int) => 0 <= i < |items| && (Blank(items[i].id) || Blank(c.id)) && names.matches(items[i].name, c.name)
  }

  /** The record with the same id, or else the first one that a blank id leaves to be
      matched by name. */
  function IdentityOf(names: Names, items: seq<Gpu>, c: Gpu): (r: int)
    ensures -1 <= r < |items|
  {
    var i := FirstIndex(|items|, IdMatch(items, c));
    if i >= 0 then i else FirstIndex(|items|, NameMatch(names, items, c))
  }

  method Search(n: nat, p: int -> bool) returns (r: int)
    ensures r == FirstIndex(n, p)
  {
    r := 0;
    while r < n
      invariant 0 <= r <= n && FirstIndex(r, p) < 0
    {
      if p(r) {
        FirstFound(n, p, r);
        return;
      }
      r := r + 1;
    }
    return -1;
  }

  method FindIdentity(names: Names, items: seq<Gpu>, c: Gpu) returns (r: int)
    ensures r == IdentityOf(names, items, c)
  {
    r := -1;
    if !Blank(c.id) {
      r := Search(|items|, IdMatch(items, c));
    }
    if r < 0 {
      r := Search(|items|, NameMatch(names, items, c));
    }
  }

  lemma {:induction false} FirstFound(n: nat, p: int -> bool, r: nat)
    requires r < n && p(r) && FirstIndex(r, p) < 0
    ensures FirstIndex(n, p) == r
  {
    if r < n - 1 {
      FirstFound(n - 1, p, r);
    }
  }

  // ---- matching an overlay

  function DirectMatch(names: Names, g: Gpu, overlay: seq<Gpu>, matched: seq<bool>): int -> bool
    requires |matched| == |overlay|
  {
    (i: int) =>
      && 0 <= i < |overlay| && !matched[i]
      && ((overlay[i].id != "" && EqualFold(g.id, overlay[i].id)) || names.matches(g.name, overlay[i].name))
  }

  function SameVendor(names: Names, items: seq<Gpu>, vendor: string): int -> bool {
    (i: int) => 0 <= i < |items| && names.vendor(items[i].name, items[i].id) == vendor
  }

  function VendorMatch(names: Names, vendor: string, overlay: seq<Gpu>, matched: seq<bool>): int -> bool
    requires |matched| == |overlay|
  {
    (i: int) => 0 <= i < |overlay| && !matched[i] && names.vendor(overlay[i].name, overlay[i].id) == vendor
  }

  /** The unmatched overlay record for the record at index: by id or name, or else the one
      with the same rank among the records of its vendor. */
  function MatchOf(names: Names, result: seq<Gpu>, index: nat, overlay: seq<Gpu>, matched: seq<bool>): (r: int)
    requires index < |result| && |matched| == |overlay|
    ensures -1 <= r < |overlay| && (r >= 0 ==> !matched[r])
  {
    var g := result[index];
    var vendor := names.vendor(g.name, g.id);
    var direct := FirstIndex(|overlay|, DirectMatch(names, g, overlay, matched));
    if direct >= 0 then assert DirectMatch(names, g, overlay, matched)(direct); direct
    else if vendor == "" then -1
    else
      var r := NthIndex(|overlay|, VendorMatch(names, vendor, overlay, matched),
                        Count(index, SameVendor(names, result, vendor)));
      assert r >= 0 ==> VendorMatch(names, vendor, overlay, matched)(r);
      r
  }

  method CountWhere(n: nat, p: int -> bool) returns (count: nat)
    ensures count == Count(n, p)
  {
    count := 0;
    for i := 0 to n
      invariant count == Count(i, p)
    {
      if p(i) {
        count := count + 1;
      }
    }
  }

  method FindNth(n: nat, p: int -> bool, k: nat) returns (r: int)
    ensures r == NthIndex(n, p, k)
  {
    var count := 0;
    r := 0;
    while r < n
      invariant 0 <= r <= n && count == Count(r, p) && NthIndex(r, p, k) < 0
    {
      if p(r) {
        if count == k {
          NthFound(n, p, k, r);
          return;
        }
        count := count + 1;
      }
      r := r + 1;
    }
    return -1;
  }

  lemma {:induction false} NthFound(n: nat, p: int -> bool, k: nat, r: nat)
    requires r < n && p(r) && Count(r, p) == k && NthIndex(r, p, k) < 0
    ensures NthIndex(n, p, k) == r
  {
    if r < n - 1 {
      NthFound(n - 1, p, k, r);
    }
  }

  method PickMatch(names: Names, result: seq<Gpu>, index: nat, overlay: seq<Gpu>, matched: seq<bool>) returns (r: int)
    requires index < |result| && |matched| == |overlay|
    ensures r == MatchOf(names, result, index, overlay, matched)
  {
    var g := result[index];
    r := Search(|overlay|, DirectMatch(names, g, overlay, matched));
    if r < 0 {
      var vendor := names.vendor(g.name, g.id);
      if vendor != "" {
        var rank := CountWhere(index, SameVendor(names, result, vendor));
        r := FindNth(|overlay|, VendorMatch(names, vendor, overlay, matched), rank);
      }
    }
  }

  // ---- merging lists

  function FindBy(names: Names): Find<Gpu> { (items: seq<Gpu>, c: Gpu) => IdentityOf(names, items, c) }

  function PickBy(names: Names, overlay: seq<Gpu>): Pick<Gpu> {
    (r: seq<Gpu>, i: int, taken: seq<bool>) =>
      if 0 <= i < |r| && |taken| == |overlay| then MatchOf(names, r, i, overlay, taken) else -1
  }

  function MergeBy(preserve: bool): Merge<Gpu> { (t: Gpu, c: Gpu) => MergeRecord(t, c, preserve) }

  lemma PickByFree(names: Names, overlay: seq<Gpu>)
    ensures PicksFree(PickBy(names, overlay), |overlay|)
  {
  }

  lemma FindByInside(names: Names)
    ensures FindsInside(FindBy(names))
  {
  }

  ghost function Coalesced(names: Names, items: seq<Gpu>): seq<Gpu> {
    FindByInside(names);
    PlaceRest(FindBy(names), MergeBy(false), [], items, NoFlags(|items|), |items|)
  }

  ghost function WithOverlay(names: Names, merge: Merge<Gpu>, base: seq<Gpu>, overlay: seq<Gpu>): seq<Gpu> {
    PickByFree(names, overlay);
    FindByInside(names);
    Overlaid(PickBy(names, overlay), FindBy(names), merge, base, overlay)
  }

  method PlaceOne(names: Names, merge: Merge<Gpu>, items: seq<Gpu>, c: Gpu) returns (r: seq<Gpu>)
    ensures FindsInside(FindBy(names)) && r == PlaceAt(merge, items, FindBy(names)(items, c), c)
  {
    FindByInside(names);
    var i := FindIdentity(names, items, c);
    if i >= 0 {
      r := items[i := merge(items[i], c)];
    } else {
      r := items + [c];
    }
  }

  /** One more candidate, taken or placed. */
  method PlaceNext(names: Names, merge: Merge<Gpu>, ghost find: Find<Gpu>, ghost start: seq<Gpu>, overlay: seq<Gpu>, taken: seq<bool>, n: nat, items: seq<Gpu>)
    returns (result: seq<Gpu>)
    requires n < |overlay| == |taken| && find == FindBy(names) && FindsInside(find)
    requires items == PlaceRest(find, merge, start, overlay, taken, n)
    ensures result == PlaceRest(find, merge, start, overlay, taken, n + 1)
  {
    result := items;
    if !taken[n] {
      result := PlaceOne(names, merge, items, overlay[n]);
    }
  }

  method PlaceUnmatched(names: Names, merge: Merge<Gpu>, start: seq<Gpu>, overlay: seq<Gpu>, taken: seq<bool>)
    returns (result: seq<Gpu>)
    requires |taken| == |overlay|
    ensures FindsInside(FindBy(names)) && result == PlaceRest(FindBy(names), merge, start, overlay, taken, |overlay|)
  {
    FindByInside(names);
    ghost var find := FindBy(names);
    result := start;
    for n := 0 to |overlay|
      invariant result == PlaceRest(find, merge, start, overlay, taken, n)
    {
      result := PlaceNext(names, merge, find, start, overlay, taken, n, result);
    }
  }

  method Coalesce(names: Names, items: seq<Gpu>) returns (r: seq<Gpu>)
    ensures r == Coalesced(names, items)
  {
    r := PlaceUnmatched(names, MergeBy(false), [], items, NoFlags(|items|));
  }

  method MatchRecords(names: Names, merge: Merge<Gpu>, base: seq<Gpu>, overlay: seq<Gpu>)
    returns (result: seq<Gpu>, taken: seq<bool>)
    ensures PicksFree(PickBy(names, overlay), |overlay|)
    ensures (result, taken) == MatchUpTo(PickBy(names, overlay), merge, base, overlay, |base|)
  {
    PickByFree(names, overlay);
    result, taken := base, NoFlags(|overlay|);
    for index := 0 to |base|
      invariant (result, taken) == MatchUpTo(PickBy(names, overlay), merge, base, overlay, index)
    {
      var k := PickMatch(names, result, index, overlay, taken);
      if k >= 0 {
        taken := taken[k := true];
        result := result[index := merge(result[index], overlay[k])];
      }
    }
  }

  method MergeOverlay(names: Names, merge: Merge<Gpu>, base: seq<Gpu>, overlay: seq<Gpu>) returns (result: seq<Gpu>)
    ensures result == WithOverlay(names, merge, base, overlay)
  {
    var taken;
    result, taken := MatchRecords(names, merge, base, overlay);
    result := PlaceUnmatched(names, merge, result, overlay, taken);
  }

  /** Coalesces one overlay and merges it in. */
  ghost function OverlayBy(names: Names, preserve: bool): (seq<Gpu>, seq<Gpu>) -> seq<Gpu> {
    (base, overlay) => WithOverlay(names, MergeBy(preserve), base, Coalesced(names, overlay))
  }

  /** The coalesced base with the first n overlays merged in. */
  ghost function Merged(names: Names, preserve: bool, base: seq<Gpu>, overlays: seq<seq<Gpu>>, n: nat): seq<Gpu>
    requires n <= |overlays|
  {
    Iterate(OverlayBy(names, preserve), Coalesced(names, base), overlays, n)
  }

  lemma EmptyOverlay(names: Names, merge: Merge<Gpu>, base: seq<Gpu>)
    ensures Coalesced(names, []) == [] && WithOverlay(names, merge, base, []) == base
  {
    PickByFree(names, []);
    NothingTaken(PickBy(names, []), merge, base, |base|);
  }

  lemma {:induction false} NothingTaken(pick: Pick<Gpu>, merge: Merge<Gpu>, base: seq<Gpu>, n: nat)
    requires n <= |base| && PicksFree(pick, 0)
    ensures MatchUpTo(pick, merge, base, [], n) == (base, [])
  {
    if n > 0 {
      NothingTaken(pick, merge, base, n - 1);
    } else {
      assert NoFlags(0) == [];
    }
  }

  method MergeGpus(names: Names, preserve: bool, base: seq<Gpu>, overlays: seq<seq<Gpu>>) returns (result: seq<Gpu>)
    ensures result == Merged(names, preserve, base, overlays, |overlays|)
  {
    result := Coalesce(names, base);
    for n := 0 to |overlays|
      invariant result == Merged(names, preserve, base, overlays, n)
    {
      if overlays[n] == [] {
        EmptyOverlay(names, MergeBy(preserve), result);
      } else {
        var overlay := Coalesce(names, overlays[n]);
        result := MergeOverlay(names, MergeBy(preserve), result, overlay);
      }
    }
  }

  // ---- what every merge keeps

  /** No two records carry the same non-blank id. */
  ghost predicate UniqueIds(s: seq<Gpu>) { forall i, j :: 0 <= i < j < |s| ==> !SameId(s[i].id, s[j].id) }

  /** The records of t are those of s, merged further, and then new ones. */
  ghost predicate Extends(s: seq<Gpu>, t: seq<Gpu>) { |s| <= |t| && forall i :: 0 <= i < |s| ==> Keeps(s[i], t[i]) }

  ghost predicate Careful(merge: Merge<Gpu>) { forall t, c :: Keeps(t, merge(t, c)) }

  lemma MergeByCareful(preserve: bool)
    ensures Careful(MergeBy(preserve))
  {
    forall t, c ensures Keeps(t, MergeBy(preserve)(t, c)) {
      MergeRecordKeeps(t, c, preserve);
    }
  }

  lemma AppendUnique(items: seq<Gpu>, c: Gpu)
    requires UniqueIds(items) && forall i :: 0 <= i < |items| ==> !SameId(items[i].id, c.id)
    ensures UniqueIds(items + [c])
  {
  }

  lemma SameIdsUnique(items: seq<Gpu>, r: seq<Gpu>)
    requires UniqueIds(items) && |r| == |items| && Extends(items, r)
    ensures UniqueIds(r)
  {
    forall i, j | 0 <= i < j < |r| ensures !SameId(r[i].id, r[j].id) {
      assert Keeps(items[i], r[i]) && Keeps(items[j], r[j]);
    }
  }

  lemma KeepsTrans(a: Gpu, b: Gpu, c: Gpu)
    requires Keeps(a, b) && Keeps(b, c)
    ensures Keeps(a, c)
  {
  }

  lemma ExtendsTrans(a: seq<Gpu>, b: seq<Gpu>, c: seq<Gpu>)
    requires Extends(a, b) && Extends(b, c)
    ensures Extends(a, c)
  {
    forall i | 0 <= i < |a| ensures Keeps(a[i], c[i]) {
      KeepsTrans(a[i], b[i], c[i]);
    }
  }

  lemma MergeAtExtends(merge: Merge<Gpu>, items: seq<Gpu>, i: nat, c: Gpu)
    requires Careful(merge) && i < |items|
    ensures Extends(items, items[i := merge(items[i], c)])
  {
  }

  lemma NoSameId(items: seq<Gpu>, c: Gpu)
    requires FirstIndex(|items|, IdMatch(items, c)) < 0
    ensures forall i :: 0 <= i < |items| ==> !SameId(items[i].id, c.id)
  {
    forall i | 0 <= i < |items| ensures !SameId(items[i].id, c.id) {
      assert !IdMatch(items, c)(i);
    }
  }

  lemma MergeAtKeeps(merge: Merge<Gpu>, base: seq<Gpu>, items: seq<Gpu>, i: nat, c: Gpu)
    requires Careful(merge) && i < |items| && Extends(base, items) && UniqueIds(items)
    ensures Extends(base, PlaceAt(merge, items, i, c)) && UniqueIds(PlaceAt(merge, items, i, c))
  {
    MergeAtExtends(merge, items, i, c);
    SameIdsUnique(items, items[i := merge(items[i], c)]);
    ExtendsTrans(base, items, items[i := merge(items[i], c)]);
  }

  lemma PlaceKeeps(names: Names, merge: Merge<Gpu>, base: seq<Gpu>, items: seq<Gpu>, c: Gpu)
    requires Careful(merge) && Extends(base, items) && UniqueIds(items)
    ensures Extends(base, PlaceAt(merge, items, IdentityOf(names, items, c), c))
    ensures UniqueIds(PlaceAt(merge, items, IdentityOf(names, items, c), c))
  {
    var i := IdentityOf(names, items, c);
    if i >= 0 {
      MergeAtKeeps(merge, base, items, i, c);
    } else {
      NoSameId(items, c);
      AppendUnique(items, c);
    }
  }

  ghost function Extending(base: seq<Gpu>): seq<Gpu> -> bool { s => Extends(base, s) && UniqueIds(s) }

  lemma StepsKeepExtending(names: Names, merge: Merge<Gpu>, base: seq<Gpu>)
    requires Careful(merge)
    ensures FindsInside(FindBy(names)) && PlacingKeeps(FindBy(names), merge, Extending(base))
    ensures MergingKeeps(merge, Extending(base))
  {
    FindByInside(names);
    forall s, c | Extending(base)(s) ensures Extending(base)(PlaceAt(merge, s, FindBy(names)(s, c), c)) {
      PlaceKeeps(names, merge, base, s, c);
    }
    forall s, i: nat, c | i < |s| && Extending(base)(s) ensures Extending(base)(PlaceAt(merge, s, i, c)) {
      MergeAtKeeps(merge, base, s, i, c);
    }
  }

  lemma SelfExtends(base: seq<Gpu>)
    ensures Extends(base, base)
  {
  }

  lemma OverlayKeeps(names: Names, merge: Merge<Gpu>, first: seq<Gpu>, base: seq<Gpu>, overlay: seq<Gpu>)
    requires Careful(merge) && Extending(first)(base)
    ensures Extending(first)(WithOverlay(names, merge, base, overlay))
  {
    PickByFree(names, overlay);
    StepsKeepExtending(names, merge, first);
    OverlayKeepsInv(PickBy(names, overlay), FindBy(names), merge, base, overlay, Extending(first));
  }

  lemma CoalescedUnique(names: Names, items: seq<Gpu>)
    ensures UniqueIds(Coalesced(names, items))
  {
    MergeByCareful(false);
    StepsKeepExtending(names, MergeBy(false), []);
    RestKeepsInv(FindBy(names), MergeBy(false), [], items, NoFlags(|items|), |items|, Extending([]));
  }

  lemma OverlaysKeep(names: Names, preserve: bool, first: seq<Gpu>)
    ensures forall s, o :: Extending(first)(s) ==> Extending(first)(OverlayBy(names, preserve)(s, o))
  {
    MergeByCareful(preserve);
    forall s, o | Extending(first)(s) ensures Extending(first)(OverlayBy(names, preserve)(s, o)) {
      OverlayKeeps(names, MergeBy(preserve), first, s, Coalesced(names, o));
    }
  }

  /** Whatever is merged: no two records carry the same non-blank id, and the coalesced
      base records come first, in order, with their identity and any known memory kind. */
  lemma MergedKeepsIdentity(names: Names, preserve: bool, base: seq<Gpu>, overlays: seq<seq<Gpu>>)
    ensures UniqueIds(Merged(names, preserve, base, overlays, |overlays|))
    ensures Extends(Coalesced(names, base), Merged(names, preserve, base, overlays, |overlays|))
  {
    var first := Coalesced(names, base);
    CoalescedUnique(names, base);
    SelfExtends(first);
    OverlaysKeep(names, preserve, first);
    IterateKeeps(OverlayBy(names, preserve), first, overlays, |overlays|, Extending(first), o => true);
  }

  /** Coalescing uses every record exactly once. */
  lemma CoalesceFoldsOnce(names: Names, items: seq<Gpu>) returns (parts: seq<seq<Gpu>>)
    ensures Folded(MergeBy(false), [], Coalesced(names, items), parts) && Pool(parts) == multiset(items)
  {
    FindByInside(names);
    FoldedNone(MergeBy(false), []);
    parts := PlaceFolds(FindBy(names), MergeBy(false), [], [], NoParts(0), items, NoFlags(|items|), |items|);
    AllFree(items, NoFlags(|items|), |items|);
    assert items[..|items|] == items;
  }

  /** Every record of a coalesced overlay is folded into exactly one record. */
  lemma OverlayUsedOnce(names: Names, preserve: bool, base: seq<Gpu>, overlay: seq<Gpu>) returns (parts: seq<seq<Gpu>>)
    ensures Folded(MergeBy(preserve), base, OverlayBy(names, preserve)(base, overlay), parts)
    ensures Pool(parts) == multiset(Coalesced(names, overlay))
  {
    var coalesced := Coalesced(names, overlay);
    PickByFree(names, coalesced);
    FindByInside(names);
    parts := OverlayFoldsOnce(PickBy(names, coalesced), FindBy(names), MergeBy(preserve), base, coalesced);
  }

  /** So it is at each stage of a merge. */
  lemma MergeFoldsOnce(names: Names, preserve: bool, base: seq<Gpu>, overlays: seq<seq<Gpu>>, n: nat)
    returns (parts: seq<seq<Gpu>>)
    requires n < |overlays|
    ensures Folded(MergeBy(preserve), Merged(names, preserve, base, overlays, n),
                   Merged(names, preserve, base, overlays, n + 1), parts)
    ensures Pool(parts) == multiset(Coalesced(names, overlays[n]))
  {
    parts := OverlayUsedOnce(names, preserve, Merged(names, preserve, base, overlays, n), overlays[n]);
  }

  // ---- memory sizes stay sound

  ghost predicate AllSound(s: seq<Gpu>) { forall g :: g in s ==> Sound(g) }

  ghost function SoundList(): seq<Gpu> -> bool { s => AllSound(s) }

  lemma {:induction false} FoldSound(merge: Merge<Gpu>, start: Gpu, cs: seq<Gpu>)
    requires Careful(merge) && Sound(start)
    ensures Sound(Fold(merge, start, cs))
  {
    if cs != [] {
      FoldSound(merge, start, cs[..|cs| - 1]);
      assert Keeps(Fold(merge, start, cs[..|cs| - 1]), Fold(merge, start, cs));
    }
  }

  lemma {:induction false} PartInPool<T>(parts: seq<seq<T>>, n: nat, i: nat, x: T)
    requires i < n <= |parts| && x in parts[i]
    ensures x in Pooled(parts, n)
  {
    if i < n - 1 {
      PartInPool(parts, n - 1, i, x);
    }
  }

  lemma FoldedSound(merge: Merge<Gpu>, base: seq<Gpu>, overlay: seq<Gpu>, r: seq<Gpu>, parts: seq<seq<Gpu>>)
    requires Careful(merge) && AllSound(base) && AllSound(overlay)
    requires Folded(merge, base, r, parts) && Pool(parts) == multiset(overlay)
    ensures AllSound(r)
  {
    forall i | 0 <= i < |r| ensures Sound(r[i]) {
      assert FoldedAt(merge, base, r[i], parts[i], i);
      if i < |base| {
        FoldSound(merge, base[i], parts[i]);
      } else {
        PartInPool(parts, |parts|, i, parts[i][0]);
        FoldSound(merge, parts[i][0], parts[i][1..]);
      }
    }
  }

  lemma CoalescedSound(names: Names, items: seq<Gpu>)
    requires AllSound(items)
    ensures AllSound(Coalesced(names, items))
  {
    MergeByCareful(false);
    var parts := CoalesceFoldsOnce(names, items);
    FoldedSound(MergeBy(false), [], items, Coalesced(names, items), parts);
  }

  lemma OverlaySound(names: Names, preserve: bool, base: seq<Gpu>, overlay: seq<Gpu>)
    requires SoundList()(base) && SoundList()(overlay)
    ensures SoundList()(OverlayBy(names, preserve)(base, overlay))
  {
    CoalescedSound(names, overlay);
    MergeByCareful(preserve);
    var parts := OverlayUsedOnce(names, preserve, base, overlay);
    FoldedSound(MergeBy(preserve), base, Coalesced(names, overlay), OverlayBy(names, preserve)(base, overlay), parts);
  }

  /** If no input shows more use than its known total, no output does. */
  lemma MergedSound(names: Names, preserve: bool, base: seq<Gpu>, overlays: seq<seq<Gpu>>)
    requires AllSound(base) && forall i :: 0 <= i < |overlays| ==> SoundList()(overlays[i])
    ensures AllSound(Merged(names, preserve, base, overlays, |overlays|))
  {
    CoalescedSound(names, base);
    forall s, o | SoundList()(s) && SoundList()(o) ensures SoundList()(OverlayBy(names, preserve)(s, o)) {
      OverlaySound(names, preserve, s, o);
    }
    IterateKeeps(OverlayBy(names, preserve), Coalesced(names, base), overlays, |overlays|, SoundList(), SoundList());
  }

  // ---- the latest reading wins

  /** The record carries a utilisation reading. */
  predicate Busy(g: Gpu) { g.utilizationObserved || g.utilization > 0.0 }

  lemma MergeMemoryReads(t: Gpu, c: Gpu)
    ensures var r := MergeMemory(t, c);
      && r.temperature == t.temperature && r.temperatureSource == t.temperatureSource
      && r.utilization == t.utilization
  {
  }

  lemma MergeRecordReads(t: Gpu, c: Gpu, preserve: bool)
    ensures var r, read := MergeRecord(t, c, preserve), MergeReadings(t, c);
      && r.temperature == read.temperature && r.temperatureSource == read.temperatureSource
      && r.utilization == read.utilization
  {
    MergeMemoryReads(MergeReadings(t, c), c);
  }

  lemma MergeRecordTemperature(t: Gpu, c: Gpu, preserve: bool)
    ensures var r := MergeRecord(t, c, preserve);
      && r.temperature == (if c.temperature.Some? then c.temperature else t.temperature)
      && r.temperatureSource == (if c.temperature.Some? then c.temperatureSource else t.temperatureSource)
  {
    MergeRecordReads(t, c, preserve);
  }

  lemma MergeRecordUtilization(t: Gpu, c: Gpu, preserve: bool)
    ensures MergeRecord(t, c, preserve).utilization == if Busy(c) then c.utilization else t.utilization
  {
    MergeRecordReads(t, c, preserve);
  }

  ghost predicate LastWith(cs: seq<Gpu>, has: Gpu -> bool, i: int) {
    0 <= i < |cs| && has(cs[i]) && forall j :: i < j < |cs| ==> !has(cs[j])
  }

  ghost predicate NoneWith(cs: seq<Gpu>, has: Gpu -> bool) { forall i :: 0 <= i < |cs| ==> !has(cs[i]) }

  ghost function Warm(): Gpu -> bool { (g: Gpu) => g.temperature.Some? }

  ghost function Loaded(): Gpu -> bool { (g: Gpu) => Busy(g) }

  lemma LastInit(cs: seq<Gpu>, has: Gpu -> bool)
    requires cs != []
    ensures var n := |cs| - 1;
      && (has(cs[n]) ==> !NoneWith(cs, has) && forall i :: LastWith(cs, has, i) <==> i == n)
      && (!has(cs[n]) ==> (NoneWith(cs, has) <==> NoneWith(cs[..n], has)) &&
                          forall i :: LastWith(cs, has, i) <==> LastWith(cs[..n], has, i))
  {
    var n := |cs| - 1;
    assert cs == cs[..n] + [cs[n]];
  }

  lemma {:induction false} LatestTemperatureWins(preserve: bool, start: Gpu, cs: seq<Gpu>, i: int)
    ensures var r := Fold(MergeBy(preserve), start, cs);
      && (NoneWith(cs, Warm()) ==> r.temperature == start.temperature && r.temperatureSource == start.temperatureSource)
      && (LastWith(cs, Warm(), i) ==> r.temperature == cs[i].temperature && r.temperatureSource == cs[i].temperatureSource)
  {
    if cs != [] {
      var n := |cs| - 1;
      LatestTemperatureWins(preserve, start, cs[..n], i);
      LastInit(cs, Warm());
      MergeRecordTemperature(Fold(MergeBy(preserve), start, cs[..n]), cs[n], preserve);
    }
  }

  lemma {:induction false} LatestUtilizationWins(preserve: bool, start: Gpu, cs: seq<Gpu>, i: int)
    ensures var r := Fold(MergeBy(preserve), start, cs);
      && (NoneWith(cs, Loaded()) ==> r.utilization == start.utilization)
      && (LastWith(cs, Loaded(), i) ==> r.utilization == cs[i].utilization)
  {
    if cs != [] {
      var n := |cs| - 1;
      LatestUtilizationWins(preserve, start, cs[..n], i);
      LastInit(cs, Loaded());
      MergeRecordUtilization(Fold(MergeBy(preserve), start, cs[..n]), cs[n], preserve);
    }
  }

  ghost predicate FirstWith(cs: seq<Gpu>, has: Gpu -> bool, i: int) {
    0 <= i < |cs| && has(cs[i]) && forall j :: 0 <= j < i ==> !has(cs[j])
  }

  ghost function Driven(): Gpu -> bool { (g: Gpu) => g.driver != "" }

  lemma FirstInit(cs: seq<Gpu>, has: Gpu -> bool, i: int)
    requires cs != [] && FirstWith(cs, has, i)
    ensures var n := |cs| - 1; if i < n then FirstWith(cs[..n], has, i) else NoneWith(cs[..n], has)
  {
  }

  lemma MergeRecordDriver(t: Gpu, c: Gpu, preserve: bool)
    ensures MergeRecord(t, c, preserve).driver == if t.driver == "" then c.driver else t.driver
  {
    assert MergeMemory(MergeReadings(t, c), c).driver == t.driver;
  }

  lemma {:induction false} FirstDriverStays(preserve: bool, start: Gpu, cs: seq<Gpu>, i: int)
    ensures var r := Fold(MergeBy(preserve), start, cs);
      && (start.driver != "" || NoneWith(cs, Driven()) ==> r.driver == start.driver)
      && (start.driver == "" && FirstWith(cs, Driven(), i) ==> r.driver == cs[i].driver)
  {
    if cs != [] {
      var n := |cs| - 1;
      FirstDriverStays(preserve, start, cs[..n], i);
      if FirstWith(cs, Driven(), i) {
        FirstInit(cs, Driven(), i);
      }
      MergeRecordDriver(Fold(MergeBy(preserve), start, cs[..n]), cs[n], preserve);
    }
  }

  /** Folding a list of records into one: temperature (with its source) and utilisation are
      those of the last record that has them, or else the old ones; the driver version is
      the old one, or else that of the first record that has one. */
  lemma LatestReadingWins(preserve: bool, start: Gpu, cs: seq<Gpu>, i: int)
    ensures var r := Fold(MergeBy(preserve), start, cs);
      && (NoneWith(cs, Warm()) ==> r.temperature == start.temperature && r.temperatureSource == start.temperatureSource)
      && (LastWith(cs, Warm(), i) ==> r.temperature == cs[i].temperature && r.temperatureSource == cs[i].temperatureSource)
      && (NoneWith(cs, Loaded()) ==> r.utilization == start.utilization)
      && (LastWith(cs, Loaded(), i) ==> r.utilization == cs[i].utilization)
      && (start.driver != "" || NoneWith(cs, Driven()) ==> r.driver == start.driver)
      && (start.driver == "" && FirstWith(cs, Driven(), i) ==> r.driver == cs[i].driver)
  {
    FirstDriverStays(preserve, start, cs, i);
    LatestTemperatureWins(preserve, start, cs, i);
    LatestUtilizationWins(preserve, start, cs, i);
  }
}
