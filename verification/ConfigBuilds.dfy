/** The shipped builds: the metric whitelist, the backfill rules, the probe plans and the
    default document of each platform, and the proof that they are coherent. */
module ConfigBuilds {
  import opened Text
  import opened AgentConfig
  import opened ConfigConvergence
  import opened ConfigOnePass

  datatype Platform = Windows | Linux | MacOs

  const GPU_KEYS := ["gpuUsage", "gpuEncode", "gpuDecode", "gpuFrequency", "gpuMemory", "gpuTemperature", "gpuDriverInfo"]
  const CPU_KEYS := ["cpuTopology", "systemOverview"]
  const MEMORY_KEYS := ["memoryAvailable", "memoryCached", "memoryCommitted", "memoryHardware"]
  const DISK_KEYS := ["diskMetadata", "diskActivity", "diskHealth", "storagePools"]
  const NETWORK_KEYS := ["networkIdentity"]
  const FAN_KEYS := ["fanRpm", "fanControl", "fanTargetTemperature", "fanPwm", "fanChannelState", "fanNote"]

  /** The whitelisted keys that no rule adds. */
  const OTHER_KEYS := [
    "cpuUsage", "cpuFrequency", "cpuTemperature", "temperatureSources", "memoryUsage", "swapUsage",
    "diskUsage", "diskRead", "diskWrite", "networkRxRate", "networkTxRate", "networkTraffic"]

  const METRIC_KEYS := OTHER_KEYS + GPU_KEYS + CPU_KEYS + MEMORY_KEYS + DISK_KEYS + NETWORK_KEYS + FAN_KEYS

  const RULES := [
    Rule("gpu", Unless("gpu"), GPU_KEYS),
    Rule("cpu", OnlyIf("cpu"), CPU_KEYS),
    Rule("memory", OnlyIf("memory"), MEMORY_KEYS),
    Rule("disk", OnlyIf("disk"), DISK_KEYS),
    Rule("network", OnlyIf("network"), NETWORK_KEYS),
    Rule("fan", Always, FAN_KEYS)]

  const DEFAULT_METRICS := [
    "cpuUsage", "cpuFrequency", "cpuTemperature", "cpuTopology", "systemOverview",
    "memoryUsage", "swapUsage", "memoryAvailable", "memoryCached", "memoryCommitted", "memoryHardware",
    "diskUsage", "diskRead", "diskWrite", "diskMetadata", "diskActivity", "diskHealth", "storagePools",
    "networkRxRate", "networkTxRate", "networkTraffic", "networkIdentity"]

  /** The providers of one platform: for processor, memory and disk; for the graphics
      adapter; and for fans. */
  function Plans(main: string, gpu: string, fan: string): map<string, set<string>> {
    map["connection" := {"gopsutil"}, "cpu" := {"disabled", main}, "memory" := {"disabled", main},
        "disk" := {"disabled", main}, "network" := {"disabled", "gopsutil"},
        "gpu" := {"disabled", gpu}, "fan" := {"disabled", fan}]
  }

  function Choices(main: string, gpu: string, gpuOn: bool, fan: string): seq<Selection> {
    [Selection("cpu", main, true), Selection("memory", main, true), Selection("disk", main, true),
     Selection("network", "gopsutil", true), Selection("gpu", gpu, gpuOn), Selection("fan", fan, true)]
  }

  function PlansFor(p: Platform): map<string, set<string>> {
    if p.MacOs? then Plans("darwin", "darwin", "darwin") else Plans("gopsutil", "wmi", "librehardwaremonitor")
  }

  function ChoicesFor(p: Platform): seq<Selection> {
    match p
    case Windows => Choices("gopsutil", "wmi", true, "librehardwaremonitor")
    case Linux => Choices("gopsutil", "disabled", false, "hwmon")
    case MacOs => Choices("darwin", "darwin", true, "darwin")
  }

  /** Off Windows the device id is the trimmed host name, when there is one. */
  function DefaultDevice(p: Platform, host: string): string {
    if !p.Windows? && TrimSpace(host) != "" then TrimSpace(host) else Placeholder(p)
  }

  function Placeholder(p: Platform): string {
    match p
    case Windows => "windows-agent"
    case Linux => "linux-agent"
    case MacOs => "macos-agent"
  }

  function DefaultConfig(p: Platform, host: string): Config {
    Config(CURRENT_VERSION, Connection("http://127.0.0.1:38472", "", DefaultDevice(p, host), ""), 30, 60,
           DEFAULT_METRICS, map[], map[], ChoicesFor(p), true, true, true, false)
  }

  function BuildFor(p: Platform, host: string): Build {
    Build((set k | k in METRIC_KEYS), RULES, PlansFor(p), DefaultConfig(p, host))
  }

  // ---- keys

  /** Plain names that start with one of the given letters. */
  predicate Start(keys: seq<string>, initials: string) {
    forall i :: 0 <= i < |keys| ==> PlainName(keys[i]) && LowerChar(keys[i][0]) in initials
  }

  lemma KeysStart()
    ensures Start(CPU_KEYS, "cs") && Start(MEMORY_KEYS, "m") && Start(DISK_KEYS, "ds")
    ensures Start(NETWORK_KEYS, "n") && Start(FAN_KEYS, "f")
  {
  }

  lemma OtherKeysStart()
    ensures Start(GPU_KEYS, "g") && Start(OTHER_KEYS, "ctmsdn")
  {
  }

  lemma MetricKeysPlain(k: string)
    requires k in METRIC_KEYS
    ensures PlainName(k)
  {
    KeysStart();
    OtherKeysStart();
  }

  lemma OtherStart(key: string, initials: string, prefix: string)
    requires PlainName(key) && LowerChar(key[0]) in initials && prefix != "" && LowerChar(prefix[0]) !in initials
    ensures !StartsWith(key, prefix)
  {
    assert ToLower(key)[0] == LowerChar(key[0]) && ToLower(prefix)[0] == LowerChar(prefix[0]);
  }

  /** Rules are ordered when no later rule has a key with the first letter waited for. */
  lemma OrderedByInitials(rules: seq<Rule>, initials: seq<string>)
    requires |initials| == |rules| && forall j :: 0 <= j < |rules| ==> Start(rules[j].keys, initials[j])
    requires forall i, j :: 0 <= i < j < |rules| && rules[i].trigger.OnlyIf? ==>
               rules[i].trigger.prefix != "" && LowerChar(rules[i].trigger.prefix[0]) !in initials[j]
    ensures RulesOrdered(rules)
  {
    forall i, j, n | 0 <= i < j < |rules| && rules[i].trigger.OnlyIf? && 0 <= n < |rules[j].keys|
      ensures !StartsWith(rules[j].keys[n], rules[i].trigger.prefix)
    {
      OtherStart(rules[j].keys[n], initials[j], rules[i].trigger.prefix);
    }
  }

  ghost predicate KeysKnown(rules: seq<Rule>, keys: seq<string>) {
    forall r, i :: 0 <= r < |rules| && 0 <= i < |rules[r].keys| ==> rules[r].keys[i] in keys
  }

  ghost predicate AllPlain(keys: seq<string>) { forall k :: k in keys ==> PlainName(k) }

  ghost predicate EachDistinct(rules: seq<Rule>) { forall r :: 0 <= r < |rules| ==> DistinctNames(rules[r].keys) }

  ghost predicate UnlessKeysMatch(rules: seq<Rule>) {
    forall r :: 0 <= r < |rules| && rules[r].trigger.Unless? ==>
      rules[r].keys != [] && forall i :: 0 <= i < |rules[r].keys| ==> StartsWith(rules[r].keys[i], rules[r].trigger.prefix)
  }

  lemma RuleKeysKnown()
    ensures KeysKnown(RULES, METRIC_KEYS)
  {
  }

  /** Keys of equal length differ in a letter. */
  lemma GpuKeysDistinct()
    ensures DistinctNames(GPU_KEYS)
  {
    assert "gpuEncode"[3] == 'E' && "gpuDecode"[3] == 'D' && "gpuMemory"[3] == 'M';
  }

  lemma RuleKeysDistinct()
    ensures DistinctNames(CPU_KEYS) && DistinctNames(MEMORY_KEYS) && DistinctNames(DISK_KEYS)
    ensures DistinctNames(NETWORK_KEYS) && DistinctNames(FAN_KEYS)
  {
    assert "diskMetadata"[0] == 'd' && "diskActivity"[4] == 'A' && "diskMetadata"[4] == 'M' && "storagePools"[0] == 's';
    assert "memoryAvailable"[6] == 'A' && "memoryCommitted"[6] == 'C';
    assert "fanRpm"[3] == 'R' && "fanPwm"[3] == 'P' && "memoryHardware"[6] == 'H';
  }

  lemma GpuKeysMatch()
    ensures UnlessKeysMatch(RULES)
  {
    forall i | 0 <= i < |GPU_KEYS| ensures StartsWith(GPU_KEYS[i], "gpu") {
      assert ToLower(GPU_KEYS[i])[..3] == ToLower("gpu");
    }
  }

  lemma RulesAreOrdered()
    ensures RulesOrdered(RULES)
  {
    KeysStart();
    OtherKeysStart();
    OrderedByInitials(RULES, ["g", "cs", "m", "ds", "n", "f"]);
  }

  lemma LowerIsFixed(s: string)
    requires forall i :: 0 <= i < |s| ==> !('A' <= s[i] <= 'Z')
    ensures ToLower(s) == s
  {
  }

  const TARGETS := ["cpu", "memory", "disk", "network", "gpu", "fan"]

  lemma TargetsPlain()
    ensures forall i :: 0 <= i < |TARGETS| ==> PlainName(TARGETS[i]) && ToLower(TARGETS[i]) == TARGETS[i]
  {
    forall i | 0 <= i < |TARGETS| ensures PlainName(TARGETS[i]) && ToLower(TARGETS[i]) == TARGETS[i] {
      LowerIsFixed(TARGETS[i]);
    }
  }

  lemma TargetsDistinct()
    ensures DistinctNames(TARGETS)
  {
    assert "cpu"[0] == 'c' && "gpu"[0] == 'g' && "fan"[0] == 'f';
  }

  lemma TargetsPlanned(p: Platform)
    ensures forall i :: 0 <= i < |TARGETS| ==> TARGETS[i] in PlansFor(p)
  {
  }

  lemma ChoicesFollow(p: Platform)
    ensures |ChoicesFor(p)| == |TARGETS|
    ensures forall i :: 0 <= i < |TARGETS| ==> ChoicesFor(p)[i].target == TARGETS[i] && PlainName(ChoicesFor(p)[i].provider)
  {
  }

  lemma DefaultsFromTargets(b: Build)
    requires var ds := b.defaults.selections;
      && ds != [] && |ds| == |TARGETS|
      && (forall i :: 0 <= i < |ds| ==> ds[i].target == TARGETS[i] && PlainName(ds[i].provider))
      && (forall i :: 0 <= i < |ds| ==> TARGETS[i] in b.plans)
    ensures DefaultsOk(b)
  {
    TargetsPlain();
    TargetsDistinct();
  }

  lemma DefaultsAreOk(p: Platform, host: string)
    ensures DefaultsOk(BuildFor(p, host))
  {
    TargetsPlanned(p);
    ChoicesFollow(p);
    DefaultsFromTargets(BuildFor(p, host));
  }

  lemma ScalarsAreOk(p: Platform, host: string)
    ensures ScalarsOk(DefaultConfig(p, host))
  {
    assert Trimmed(Placeholder(p));
  }

  lemma RulesFrom(b: Build, rules: seq<Rule>, keys: seq<string>)
    requires b.known == (set k | k in keys) && b.rules == rules && AllPlain(keys) && RulesOrdered(rules)
    requires KeysKnown(rules, keys) && EachDistinct(rules) && UnlessKeysMatch(rules)
    ensures RulesOk(b)
  {
  }

  lemma MetricKeysAllPlain()
    ensures AllPlain(METRIC_KEYS)
  {
    forall k | k in METRIC_KEYS ensures PlainName(k) {
      MetricKeysPlain(k);
    }
  }

  lemma EachRuleDistinct()
    ensures EachDistinct(RULES)
  {
    GpuKeysDistinct();
    RuleKeysDistinct();
  }

  lemma RulesAreOk(p: Platform, host: string)
    ensures RulesOk(BuildFor(p, host))
  {
    MetricKeysAllPlain();
    RuleKeysKnown();
    EachRuleDistinct();
    GpuKeysMatch();
    RulesAreOrdered();
    RulesFrom(BuildFor(p, host), RULES, METRIC_KEYS);
  }

  /** Every shipped build is one for which repeating the pass converges. */
  lemma BuildsAreCoherent(p: Platform, host: string)
    ensures Coherent(BuildFor(p, host))
  {
    RulesAreOk(p, host);
    DefaultsAreOk(p, host);
    ScalarsAreOk(p, host);
  }

  // ---- separation

  predicate NoCommon(a: string, c: string) { forall i :: 0 <= i < |a| ==> a[i] !in c }

  ghost predicate Disjoint(a: seq<string>, c: seq<string>) { forall n :: 0 <= n < |c| ==> c[n] !in a }

  lemma DisjointByInitials(a: seq<string>, inA: string, c: seq<string>, inC: string)
    requires Start(a, inA) && Start(c, inC) && NoCommon(inA, inC)
    ensures Disjoint(a, c) && Disjoint(c, a)
  {
    forall i, j | 0 <= i < |a| && 0 <= j < |c| ensures a[i] != c[j] {
      assert LowerChar(a[i][0]) in inA;
    }
  }

  lemma CpuDiskDisjoint()
    ensures Disjoint(CPU_KEYS, DISK_KEYS) && Disjoint(DISK_KEYS, CPU_KEYS)
  {
    assert forall i :: 0 <= i < |CPU_KEYS| ==> |CPU_KEYS[i]| == 11 || |CPU_KEYS[i]| == 14;
    assert forall i :: 0 <= i < |DISK_KEYS| ==> |DISK_KEYS[i]| == 12 || |DISK_KEYS[i]| == 10;
  }

  /** Two rules are apart by the first letters of their keys and prefixes, or by their keys. */
  ghost predicate Apart(rules: seq<Rule>, initials: seq<string>, i: int, j: int)
    requires |initials| == |rules| && 0 <= i < |rules| && 0 <= j < |rules|
  {
    && (NoCommon(initials[i], initials[j]) || Disjoint(rules[i].keys, rules[j].keys))
    && (!rules[i].trigger.Always? ==>
          rules[i].trigger.prefix != "" && LowerChar(rules[i].trigger.prefix[0]) !in initials[j])
  }

  lemma SeparateByInitials(rules: seq<Rule>, initials: seq<string>)
    requires |initials| == |rules| && forall j :: 0 <= j < |rules| ==> Start(rules[j].keys, initials[j])
    requires forall i, j :: 0 <= i < |rules| && 0 <= j < |rules| && i != j ==> Apart(rules, initials, i, j)
    ensures Separate(rules)
  {
    forall i, j, n | 0 <= i < |rules| && 0 <= j < |rules| && i != j && 0 <= n < |rules[j].keys|
      ensures rules[j].keys[n] !in rules[i].keys
      ensures !rules[i].trigger.Always? ==> !StartsWith(rules[j].keys[n], rules[i].trigger.prefix)
    {
      assert Apart(rules, initials, i, j);
      if NoCommon(initials[i], initials[j]) {
        DisjointByInitials(rules[i].keys, initials[i], rules[j].keys, initials[j]);
      }
      if !rules[i].trigger.Always? {
        OtherStart(rules[j].keys[n], initials[j], rules[i].trigger.prefix);
      }
    }
  }

  const INITIALS := ["g", "cs", "m", "ds", "n", "f"]

  lemma RulesApart(i: nat, j: nat)
    requires i < |RULES| && j < |RULES| && i != j
    ensures Apart(RULES, INITIALS, i, j)
  {
    CpuDiskDisjoint();
  }

  lemma RulesAreSeparate()
    ensures Separate(RULES)
  {
    KeysStart();
    OtherKeysStart();
    forall i, j | 0 <= i < |RULES| && 0 <= j < |RULES| && i != j ensures Apart(RULES, INITIALS, i, j) {
      RulesApart(i, j);
    }
    SeparateByInitials(RULES, INITIALS);
  }

  /** On every platform, for every document: one pass is enough if and only if the document
      ends up without metrics or no late target wants keys that it does not list. */
  lemma ShippedOnePassIff(p: Platform, host: string, c0: Config, raw: Mentions, c1: Config, c2: Config)
    requires var b := BuildFor(p, host); Normalizes(b, c0, raw, c1) && Normalizes(b, c1, REENCODED, c2)
    ensures var b := BuildFor(p, host);
            var before, listed := ChosenSelections(b, c0), ListedMetrics(b, c0, raw);
            c2 == c1 <==>
            !(LeavesMetrics(b, before, listed, raw.metrics) && LateTarget(b, before, NormalSelections(b, before), listed))
  {
    BuildsAreCoherent(p, host);
    RulesAreSeparate();
    OnePassIff(BuildFor(p, host), c0, raw, c1, c2);
  }

  /** On every platform, for every document: a third pass changes nothing. */
  lemma ShippedBuildsConverge(p: Platform, host: string, c0: Config, raw: Mentions, c1: Config, c2: Config, c3: Config)
    requires var b := BuildFor(p, host);
      Normalizes(b, c0, raw, c1) && Normalizes(b, c1, REENCODED, c2) && Normalizes(b, c2, REENCODED, c3)
    ensures c3 == c2
  {
    BuildsAreCoherent(p, host);
    TwoPassesConverge(BuildFor(p, host), c0, raw, c1, c2, c3);
  }

  // ---- one pass is not always enough

  /** A document that turns the processor probe off and does not mention fans. */
  const NO_FAN := [Selection("cpu", "gopsutil", false)]

  lemma NoFanTargets()
    ensures forall i :: 0 <= i < |RULES| ==> !TargetEnabled(NO_FAN, RULES[i].target)
  {
    assert NO_FAN[1..] == [];
  }

  lemma {:induction false} NothingEnabled(rules: seq<Rule>, sel: seq<Selection>, m: seq<string>)
    requires forall i :: 0 <= i < |rules| ==> !TargetEnabled(sel, rules[i].target)
    ensures Backfill(rules, sel, m) == m
  {
    if rules != [] {
      NothingEnabled(rules[..|rules| - 1], sel, m);
    }
  }

  lemma {:induction false} EnabledSomewhere(sel: seq<Selection>, target: string, i: nat)
    requires forall j :: 0 <= j < |sel| && EqualFold(TrimSpace(sel[j].target), target) ==> j == i
    requires i < |sel| && EqualFold(TrimSpace(sel[i].target), target) && sel[i].enabled
    requires !EqualFold(TrimSpace(sel[i].provider), "disabled")
    ensures TargetEnabled(sel, target)
  {
    if i > 0 {
      EnabledSomewhere(sel[1..], target, i - 1);
    }
  }

  lemma {:induction false} MissingIsAdded(ds: seq<Selection>, seen: set<string>, d: Selection) returns (j: nat)
    requires d in ds && d.target !in seen
    ensures j < |MissingDefaults(ds, seen)| && MissingDefaults(ds, seen)[j] == d
  {
    if ds[|ds| - 1] != d {
      assert ds == ds[..|ds| - 1] + [ds[|ds| - 1]];
      j := MissingIsAdded(ds[..|ds| - 1], seen, d);
    } else {
      j := |MissingDefaults(ds, seen)| - 1;
    }
  }

  lemma SecondPart(a: seq<Selection>, c: seq<Selection>, j: nat)
    requires j < |c|
    ensures (a + c)[|a| + j] == c[j]
  {
  }

  ghost predicate FoldedTargets(r: seq<Selection>) {
    forall j :: 0 <= j < |r| ==> ToLower(TrimSpace(r[j].target)) == r[j].target
  }

  lemma PassedTarget(b: Build, x: Selection)
    requires RepairedBy(b)(x)
    ensures ToLower(TrimSpace(x.target)) == x.target
  {
  }

  lemma PassedTargets(b: Build, r: seq<Selection>)
    requires AllPass(RepairedBy(b), r)
    ensures FoldedTargets(r)
  {
    forall j | 0 <= j < |r| ensures ToLower(TrimSpace(r[j].target)) == r[j].target {
      PassedTarget(b, r[j]);
    }
  }

  lemma LowerTwice(s: string)
    ensures ToLower(ToLower(s)) == ToLower(s)
  {
  }

  lemma EnabledAt(ok: Selection -> bool, r: seq<Selection>, i: nat)
    requires AllPass(ok, r) && FoldedTargets(r) && i < |r|
    requires r[i].enabled && !EqualFold(TrimSpace(r[i].provider), "disabled")
    ensures TargetEnabled(r, r[i].target)
  {
    LowerTwice(TrimSpace(r[i].target));
    forall j | 0 <= j < |r| && EqualFold(TrimSpace(r[j].target), r[i].target) ensures j == i {
      assert r[j].target == r[i].target;
    }
    EnabledSomewhere(r, r[i].target, i);
  }

  lemma OmittedIndex(b: Build, s: seq<Selection>, d: Selection) returns (i: nat)
    requires d in b.defaults.selections && d.target !in Targets(RepairAll(b, s))
    ensures i < |NormalSelections(b, s)| && NormalSelections(b, s)[i] == d
  {
    var repaired := RepairAll(b, s);
    var j := MissingIsAdded(b.defaults.selections, Targets(repaired), d);
    SecondPart(repaired, MissingDefaults(b.defaults.selections, Targets(repaired)), j);
    i := |repaired| + j;
  }

  /** A default that the document does not mention comes in, enabled as it is. */
  lemma OmittedComesIn(b: Build, s: seq<Selection>, d: Selection)
    requires DefaultsOk(b) && d in b.defaults.selections && d.target !in Targets(RepairAll(b, s))
    requires d.enabled && !EqualFold(TrimSpace(d.provider), "disabled")
    ensures TargetEnabled(NormalSelections(b, s), d.target)
  {
    NormalSelectionsPass(b, s);
    PassedTargets(b, NormalSelections(b, s));
    var i := OmittedIndex(b, s, d);
    EnabledAt(RepairedBy(b), NormalSelections(b, s), i);
  }

  lemma OneRepaired(b: Build, x: Selection, target: string)
    requires TargetOf(x) != target
    ensures target !in Targets(RepairAll(b, [x]))
  {
    assert [x][..0] == [];
  }

  lemma FanComesIn(host: string)
    ensures TargetEnabled(NormalSelections(BuildFor(Windows, host), NO_FAN), "fan")
  {
    var b := BuildFor(Windows, host);
    DefaultsAreOk(Windows, host);
    assert TargetOf(NO_FAN[0])[0] == 'c' && "fan"[0] == 'f';
    OneRepaired(b, NO_FAN[0], "fan");
    var d := b.defaults.selections[5];
    assert |ToLower(TrimSpace(d.provider))| == 20 && |ToLower("disabled")| == 8;
    OmittedComesIn(b, NO_FAN, d);
  }

  lemma KeyMissing(rule: Rule, sel: seq<Selection>, m: seq<string>, i: nat)
    requires TargetEnabled(sel, rule.target) && rule.trigger.Always?
    requires i < |rule.keys| && rule.keys[i] !in m && forall i :: 0 <= i < |m| ==> PlainName(m[i])
    ensures !Quiet(rule, sel, m)
  {
    AppendMissingGrows(m, rule.keys);
    assert rule.keys[i] in rule.keys;
  }

  lemma Unfinish(b: Build, before: seq<Selection>, after: seq<Selection>, m: seq<string>, i: nat)
    requires m != [] && i < |b.rules| && !TargetEnabled(before, b.rules[i].target) && !Quiet(b.rules[i], after, m)
    ensures Unfinished(b, before, after, m)
  {
  }

  const ONE_KEY := ["cpuUsage"]

  lemma FanKeyUnlisted()
    ensures FAN_KEYS[0] !in ONE_KEY
  {
    assert "fanRpm"[0] == 'f' && "cpuUsage"[0] == 'c';
  }

  lemma FanMissing(sel: seq<Selection>)
    requires TargetEnabled(sel, "fan")
    ensures !Quiet(RULES[5], sel, ONE_KEY)
  {
    FanKeyUnlisted();
    KeyMissing(RULES[5], sel, ONE_KEY, 0);
  }

  lemma OneKeyClean(b: Build)
    requires b.known == set k | k in METRIC_KEYS
    ensures Clean(ONE_KEY, Whitelist(b))
  {
    assert METRIC_KEYS[0] == "cpuUsage";
  }

  /** A document that lists one metric and only a switched-off processor probe: the
      default fan probe comes in after the metrics were completed, so the second pass
      adds the fan metrics. */
  lemma OnePassIsNotEnough(host: string, c0: Config, raw: Mentions, c1: Config, c2: Config)
    requires c0.selections == NO_FAN && c0.metrics == ONE_KEY
    requires var b := BuildFor(Windows, host); Normalizes(b, c0, raw, c1) && Normalizes(b, c1, REENCODED, c2)
    ensures c2 != c1
  {
    var b := BuildFor(Windows, host);
    BuildsAreCoherent(Windows, host);
    OneKeyClean(b);
    CleanIsFixed(ONE_KEY, Whitelist(b));
    MetricsOfClean(b, c0, raw, ONE_KEY);
    NoFanTargets();
    NothingEnabled(b.rules, NO_FAN, ONE_KEY);
    FanComesIn(host);
    FanMissing(NormalSelections(b, NO_FAN));
    Unfinish(b, NO_FAN, NormalSelections(b, NO_FAN), ONE_KEY, 5);
    SecondPassIff(b, c0, raw, c1, c2);
  }
}
