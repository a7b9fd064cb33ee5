/** What a migration pass keeps of a document: the user's probe selections, intervals,
    connection and metrics. */
module ConfigContent {
  import opened Text
  import opened Picking
  import opened AgentConfig
  import opened ConfigConvergence
  import opened ConfigOnePass

  // ---- probe selections

  /** The name a selection goes by. */
  function NameOf(item: Selection): string { ToLower(TrimSpace(item.target)) }

  predicate Knows(b: Build, name: string) { name != "" && name in b.plans }

  /** The first selection of a target the build knows. */
  function FirstKnown(b: Build, sel: seq<Selection>): nat -> bool {
    (i: nat) => i < |sel| && Knows(b, NameOf(sel[i])) && forall j :: 0 <= j < i ==> NameOf(sel[j]) != NameOf(sel[i])
  }

  ghost predicate LastDefault(ds: seq<Selection>, target: string, i: int) {
    0 <= i < |ds| && ds[i].target == target && forall j :: i < j < |ds| ==> ds[j].target != target
  }

  /** A supported provider stays; otherwise the default's takes its place, or "disabled"
      where there is none. */
  ghost predicate RightProvider(b: Build, target: string, given: string, p: string)
    requires target in b.plans
  {
    if given != "" && given in b.plans[target] then p == given
    else
      var ds := b.defaults.selections;
      || (exists i :: LastDefault(ds, target, i) && ds[i].provider != "" && p == ds[i].provider)
      || (p == "disabled" && forall i :: LastDefault(ds, target, i) ==> ds[i].provider == "")
  }

  /** r is item with its name and provider put right and its switch as it was. */
  ghost predicate KeptAs(b: Build, item: Selection, r: Selection) {
    && Knows(b, NameOf(item)) && r.target == NameOf(item) && r.enabled == item.enabled
    && RightProvider(b, NameOf(item), TrimSpace(item.provider), r.provider)
  }

  lemma {:induction false} DefaultIs(ds: seq<Selection>, target: string)
    ensures (exists i :: LastDefault(ds, target, i) && DefaultProvider(ds, target) == ds[i].provider)
            || (DefaultProvider(ds, target) == "" && forall i :: !LastDefault(ds, target, i))
  {
    if ds != [] {
      var n := |ds| - 1;
      if ds[n].target == target {
        assert LastDefault(ds, target, n);
      } else {
        DefaultIs(ds[..n], target);
        forall i ensures LastDefault(ds, target, i) <==> LastDefault(ds[..n], target, i) {
          LastDefaultInit(ds, target, i);
        }
      }
    }
  }

  lemma LastDefaultInit(ds: seq<Selection>, target: string, i: int)
    requires ds != [] && ds[|ds| - 1].target != target
    ensures LastDefault(ds, target, i) <==> LastDefault(ds[..|ds| - 1], target, i)
  {
    var init := ds[..|ds| - 1];
    if LastDefault(init, target, i) {
      forall j | i < j < |ds| ensures ds[j].target != target {
        assert j < |init| ==> init[j] == ds[j];
      }
    }
  }

  lemma OneLastDefault(ds: seq<Selection>, target: string, i: int, j: int)
    requires LastDefault(ds, target, i) && LastDefault(ds, target, j)
    ensures i == j
  {
  }

  lemma ProviderIsRight(b: Build, target: string, provider: string)
    requires target in b.plans
    ensures RightProvider(b, target, TrimSpace(provider), RepairProvider(b, target, provider))
  {
    var ds := b.defaults.selections;
    DefaultIs(ds, target);
    forall i, j | LastDefault(ds, target, i) && LastDefault(ds, target, j) ensures i == j {
      OneLastDefault(ds, target, i, j);
    }
  }

  lemma RepairIsRight(b: Build, item: Selection)
    requires Supported(b, item)
    ensures KeptAs(b, item, Repair(b, item))
  {
    ProviderIsRight(b, TargetOf(item), item.provider);
  }

  /** Some selection names the target. */
  predicate Named(sel: seq<Selection>, n: nat, name: string)
    requires n <= |sel|
  {
    exists j :: 0 <= j < n && NameOf(sel[j]) == name
  }

  ghost predicate KeptList(b: Build, sel: seq<Selection>, picks: seq<nat>, r: seq<Selection>) {
    && |r| == |picks|
    && forall k :: 0 <= k < |r| ==> picks[k] < |sel| && KeptAs(b, sel[picks[k]], r[k])
  }

  lemma KeptSnoc(b: Build, sel: seq<Selection>, picks: seq<nat>, r: seq<Selection>, i: nat, x: Selection)
    requires KeptList(b, sel, picks, r) && i < |sel| && KeptAs(b, sel[i], x)
    ensures KeptList(b, sel, picks + [i], r + [x])
  {
  }

  lemma {:induction false} RepairedTargets(b: Build, sel: seq<Selection>, n: nat, name: string)
    requires n <= |sel|
    ensures name in Targets(RepairAll(b, sel[..n])) <==> Knows(b, name) && Named(sel, n, name)
  {
    if n > 0 {
      RepairedTargets(b, sel, n - 1, name);
      assert sel[..n][..n - 1] == sel[..n - 1];
      var before, item := RepairAll(b, sel[..n - 1]), sel[n - 1];
      NamedSnoc(sel, n - 1, name);
      if Supported(b, item) {
        TargetsSnoc(before, Repair(b, item));
      }
    }
  }

  lemma NamedSnoc(sel: seq<Selection>, n: nat, name: string)
    requires n < |sel|
    ensures Named(sel, n + 1, name) <==> Named(sel, n, name) || NameOf(sel[n]) == name
  {
  }

  lemma FirstIffUnnamed(b: Build, sel: seq<Selection>, n: nat)
    requires n < |sel|
    ensures FirstKnown(b, sel)(n) <==> Knows(b, NameOf(sel[n])) && !Named(sel, n, NameOf(sel[n]))
  {
  }

  /** The next selection is taken or passed over, in the list and among the picks alike. */
  lemma KeepNext(b: Build, sel: seq<Selection>, n: nat, take: bool, picks: seq<nat>, r: seq<Selection>)
    requires KeptList(b, sel, picks, r) && n < |sel| && (take ==> Supported(b, sel[n]))
    ensures take ==> KeptList(b, sel, picks + [n], r + [Repair(b, sel[n])])
  {
    if take {
      RepairIsRight(b, sel[n]);
      KeptSnoc(b, sel, picks, r, n, Repair(b, sel[n]));
    }
  }

  predicate Takes(b: Build, sel: seq<Selection>, n: nat)
    requires n < |sel|
  {
    Supported(b, sel[n]) && !Named(sel, n, NameOf(sel[n]))
  }

  lemma PickNext(b: Build, sel: seq<Selection>, n: nat)
    requires n < |sel|
    ensures Picked(FirstKnown(b, sel), n + 1) ==
            if Takes(b, sel, n) then Picked(FirstKnown(b, sel), n) + [n] else Picked(FirstKnown(b, sel), n)
  {
    FirstIffUnnamed(b, sel, n);
  }

  lemma RepairNext(b: Build, sel: seq<Selection>, n: nat)
    requires n < |sel| && KeptList(b, sel, Picked(FirstKnown(b, sel), n), RepairAll(b, sel[..n]))
    ensures KeptList(b, sel, Picked(FirstKnown(b, sel), n + 1), RepairAll(b, sel[..n + 1]))
  {
    RepairStep(b, sel, n);
    PickNext(b, sel, n);
    KeepNext(b, sel, n, Takes(b, sel, n), Picked(FirstKnown(b, sel), n), RepairAll(b, sel[..n]));
  }

  ghost function KeptUpTo(b: Build, sel: seq<Selection>): nat -> bool {
    (n: nat) => n <= |sel| && KeptList(b, sel, Picked(FirstKnown(b, sel), n), RepairAll(b, sel[..n]))
  }

  lemma {:induction false} Onward(inv: nat -> bool, n: nat)
    requires inv(0) && forall k: nat :: k < n && inv(k) ==> inv(k + 1)
    ensures inv(n)
  {
    if n > 0 {
      Onward(inv, n - 1);
      assert inv(n - 1 + 1);
    }
  }

  lemma RepairAllKeeps(b: Build, sel: seq<Selection>)
    ensures KeptList(b, sel, Picked(FirstKnown(b, sel), |sel|), RepairAll(b, sel))
  {
    forall n: nat | n < |sel| && KeptUpTo(b, sel)(n) ensures KeptUpTo(b, sel)(n + 1) {
      RepairNext(b, sel, n);
    }
    Onward(KeptUpTo(b, sel), |sel|);
    assert sel[..|sel|] == sel;
  }

  lemma RepairStep(b: Build, sel: seq<Selection>, n: nat)
    requires n < |sel|
    ensures RepairAll(b, sel[..n + 1]) ==
            if Takes(b, sel, n) then RepairAll(b, sel[..n]) + [Repair(b, sel[n])]
            else RepairAll(b, sel[..n])
  {
    assert sel[..n + 1][..n] == sel[..n];
    RepairedTargets(b, sel, n, NameOf(sel[n]));
  }

  /** The defaults whose target the document does not name. */
  function Unnamed(b: Build, sel: seq<Selection>): nat -> bool {
    var ds := b.defaults.selections;
    (i: nat) => i < |ds| && !(Knows(b, ds[i].target) && Named(sel, |sel|, ds[i].target))
  }

  lemma {:induction false} MissingUpTo(ds: seq<Selection>, seen: set<string>, want: nat -> bool, n: nat)
    requires n <= |ds| && forall i: nat :: i < |ds| ==> want(i) == (ds[i].target !in seen)
    ensures MissingDefaults(ds[..n], seen) == Wanted(ds, want, n)
  {
    if n > 0 {
      MissingUpTo(ds, seen, want, n - 1);
      assert ds[..n][..n - 1] == ds[..n - 1];
      WantedNext(ds, want, n - 1);
    }
  }

  /** The selections after a pass: first, in order, the first selection of every known
      target, its name trimmed and in lower case, its switch unchanged, and its provider
      unchanged if supported; then exactly the defaults of the targets that the document
      does not name, as they are and in order. */
  lemma SelectionsAre(b: Build, sel: seq<Selection>) returns (kept: seq<Selection>, added: seq<Selection>)
    ensures NormalSelections(b, sel) == kept + added
    ensures KeptList(b, sel, Picked(FirstKnown(b, sel), |sel|), kept)
    ensures added == Wanted(b.defaults.selections, Unnamed(b, sel), |b.defaults.selections|)
  {
    var ds := b.defaults.selections;
    kept := RepairAll(b, sel);
    added := MissingDefaults(ds, Targets(kept));
    assert sel[..|sel|] == sel && ds[..|ds|] == ds;
    RepairAllKeeps(b, sel);
    forall i: nat | i < |ds| ensures Unnamed(b, sel)(i) == (ds[i].target !in Targets(kept)) {
      RepairedTargets(b, sel, |sel|, ds[i].target);
    }
    MissingUpTo(ds, Targets(kept), Unnamed(b, sel), |ds|);
  }

  ghost predicate FirstNamed(sel: seq<Selection>, target: string, i: int) {
    && 0 <= i < |sel| && EqualFold(TrimSpace(sel[i].target), target)
    && forall j :: 0 <= j < i ==> !EqualFold(TrimSpace(sel[j].target), target)
  }

  /** A target is enabled exactly if its first selection is switched on and its provider is
      not "disabled". */
  lemma {:induction false} EnabledIff(sel: seq<Selection>, target: string)
    ensures TargetEnabled(sel, target) <==>
            exists i :: FirstNamed(sel, target, i) && sel[i].enabled && !EqualFold(TrimSpace(sel[i].provider), "disabled")
  {
    if sel != [] {
      if EqualFold(TrimSpace(sel[0].target), target) {
        assert FirstNamed(sel, target, 0);
        forall i | FirstNamed(sel, target, i) ensures i == 0 {
        }
      } else {
        EnabledIff(sel[1..], target);
        forall i ensures FirstNamed(sel, target, i) <==> FirstNamed(sel[1..], target, i - 1) {
          FirstNamedTail(sel, target, i);
        }
        if TargetEnabled(sel, target) {
          var i :| FirstNamed(sel[1..], target, i) && sel[1..][i].enabled
                   && !EqualFold(TrimSpace(sel[1..][i].provider), "disabled");
          assert FirstNamed(sel, target, i + 1);
        }
      }
    }
  }

  lemma FirstNamedTail(sel: seq<Selection>, target: string, i: int)
    requires sel != [] && !EqualFold(TrimSpace(sel[0].target), target)
    ensures FirstNamed(sel, target, i) <==> FirstNamed(sel[1..], target, i - 1)
  {
    var tail := sel[1..];
    if FirstNamed(tail, target, i - 1) {
      forall j | 0 <= j < i ensures !EqualFold(TrimSpace(sel[j].target), target) {
        assert j > 0 ==> sel[j] == tail[j - 1];
      }
    }
  }

  // ---- connection, intervals, switches

  /** What is set survives, trimmed; what is missing or out of range takes the default; the
      old placeholder name and the old equal cadence of 30 seconds are replaced. */
  lemma ScalarsSurvive(b: Build, c: Config, raw: Mentions, r: Config)
    requires Normalizes(b, c, raw, r)
    ensures var d := b.defaults;
      && r.connection.serverUrl == TrimSpace(if TrimSpace(c.connection.serverUrl) != "" then c.connection.serverUrl
                                             else d.connection.serverUrl)
      && r.connection.deviceId == TrimSpace(if TrimSpace(c.connection.deviceId) != "" then c.connection.deviceId
                                            else d.connection.deviceId)
      && r.connection.secret == TrimSpace(c.connection.secret)
      && r.connection.hostname == (if TrimSpace(c.connection.hostname) == "Windows Agent" then ""
                                   else TrimSpace(c.connection.hostname))
      && r.normal == (if 1 <= c.normal <= 86400 then c.normal else d.normal)
      && (1 <= c.slow <= 86400 && !(r.normal == 30 && c.slow == 30) ==> r.slow == c.slow)
      && (!(1 <= c.slow <= 86400) || (r.normal == 30 && c.slow == 30) ==> r.slow == d.slow)
      && r.version == (if c.version >= 1 then c.version else 2)
      && r.cloudSync == (if raw.cloudSync then c.cloudSync else d.cloudSync)
      && r.recording == (if raw.recording then c.recording else d.recording)
      && r.autoRestart == (if raw.autoRestart then c.autoRestart else d.autoRestart)
      && r.autoStart == (if raw.autoStart then c.autoStart else d.autoStart)
  {
  }

  // ---- lists of names

  /** A longer list only adds names at the end, so each name stands where it first occurs. */
  lemma {:induction false} DedupGrows(items: seq<string>, wanted: string -> bool, n: nat)
    requires n <= |items|
    ensures Dedup(items[..n], wanted) <= Dedup(items, wanted)
  {
    if n < |items| {
      var init := items[..|items| - 1];
      DedupGrows(init, wanted, n);
      assert init[..n] == items[..n];
    } else {
      assert items[..n] == items;
    }
  }

  lemma {:induction false} AppendGrows(metrics: seq<string>, keys: seq<string>, n: nat)
    requires n <= |keys|
    ensures AppendMissing(metrics, keys[..n]) <= AppendMissing(metrics, keys)
  {
    if n < |keys| {
      var init := keys[..|keys| - 1];
      AppendGrows(metrics, init, n);
      assert init[..n] == keys[..n];
    } else {
      assert keys[..n] == keys;
    }
  }

  // ---- metrics

  /** The list a document stands for: its own, or the default one if the text does not
      mention it and it is empty. */
  function GivenMetrics(b: Build, c: Config, raw: Mentions): seq<string> {
    if !raw.metrics && c.metrics == [] then b.defaults.metrics else c.metrics
  }

  predicate Lists(b: Build, given: seq<string>, k: string) { k != "" && k in b.known && k in TrimAll(given) }

  lemma ListedIff(b: Build, c: Config, raw: Mentions, k: string)
    ensures k in ListedMetrics(b, c, raw) <==> Lists(b, GivenMetrics(b, c, raw), k)
  {
    DedupMembers(GivenMetrics(b, c, raw), Whitelist(b), k);
  }

  /** A pass keeps every known metric the document lists, adds only keys of enabled targets,
      and leaves no enabled target with anything to add; an explicit list without any known
      metric stays empty. */
  lemma MetricsAre(b: Build, c: Config, raw: Mentions, r: Config, k: string)
    requires RulesOk(b) && Normalizes(b, c, raw, r)
    ensures Lists(b, GivenMetrics(b, c, raw), k) ==> k in r.metrics
    ensures k in r.metrics ==> Lists(b, GivenMetrics(b, c, raw), k) || BroughtIn(b, ChosenSelections(b, c), k)
    ensures raw.metrics && ListedMetrics(b, c, raw) == [] ==> r.metrics == []
    ensures !(raw.metrics && ListedMetrics(b, c, raw) == []) ==>
              forall i :: 0 <= i < |b.rules| ==> !WantsUnder(b, ChosenSelections(b, c), r.metrics, i)
  {
    var listed, sel := ListedMetrics(b, c, raw), ChosenSelections(b, c);
    ListedIff(b, c, raw, k);
    ListedClean(b, c, raw);
    MetricsOfClean(b, c, raw, listed);
    if !(raw.metrics && listed == []) {
      Grown(b, sel, listed);
      PrefixMembers(listed, r.metrics);
      if k in r.metrics && k !in listed {
        BroughtInBy(b, sel, listed, k);
      }
      forall i: nat | i < |b.rules| ensures !WantsUnder(b, sel, r.metrics, i) {
        RuleSettled(b, i, sel, listed);
        QuietIff(b, b.rules[i], sel, r.metrics);
      }
    }
  }

  ghost predicate BroughtIn(b: Build, sel: seq<Selection>, k: string) {
    exists j :: 0 <= j < |b.rules| && TargetEnabled(sel, b.rules[j].target) && k in b.rules[j].keys
  }

  lemma BroughtInBy(b: Build, sel: seq<Selection>, m: seq<string>, k: string)
    requires RulesOk(b) && Clean(m, Whitelist(b)) && k in Backfill(b.rules, sel, m) && k !in m
    ensures BroughtIn(b, sel, k)
  {
    assert b.rules[..|b.rules|] == b.rules;
    if !BroughtIn(b, sel, k) {
      BackfillOnly(b, |b.rules|, sel, m, k);
    }
  }
}
