/** The local configuration document and the migration pass that every load and every
    save request goes through. */
module AgentConfig {
  import opened Text

  const CURRENT_VERSION := 2
  const MAX_INTERVAL := 86400
  const LEGACY_INTERVAL := 30

  datatype Connection = Connection(serverUrl: string, secret: string, deviceId: string, hostname: string)
  datatype Selection = Selection(target: string, provider: string, enabled: bool)

  datatype Config = Config(version: int, connection: Connection, normal: int, slow: int, metrics: seq<string>,
                           devices: map<string, seq<string>>, instances: map<string, seq<string>>,
                           selections: seq<Selection>, cloudSync: bool, recording: bool,
                           autoRestart: bool, autoStart: bool)

  /** Which keys occur in the text a document was decoded from. */
  datatype Mentions = Mentions(metrics: bool, cloudSync: bool, recording: bool, autoRestart: bool, autoStart: bool)

  /** Encoding writes every key. */
  const REENCODED := Mentions(true, true, true, true, true)

  /** When a rule adds its keys: unless, or only if, some metric has the prefix, or always. */
  datatype Trigger = Unless(prefix: string) | OnlyIf(prefix: string) | Always

  /** Metric keys that an enabled probe target brings with it. */
  datatype Rule = Rule(target: string, trigger: Trigger, keys: seq<string>)

  /** What a build on one platform knows: the metric whitelist, the backfill rules, the
      providers each probe target supports, and the default document. */
  datatype Build = Build(known: set<string>, rules: seq<Rule>, plans: map<string, set<string>>, defaults: Config)

  // ---- lists of names

  /** Trims and keeps the first occurrence of each wanted, non-empty name. */
  function Dedup(items: seq<string>, wanted: string -> bool): (r: seq<string>) {
    if items == [] then []
    else
      var before, name := Dedup(items[..|items| - 1], wanted), TrimSpace(items[|items| - 1]);
      if name == "" || !wanted(name) || name in before then before else before + [name]
  }

  function Whitelist(b: Build): string -> bool { (k: string) => k in b.known }

  function AnyName(): string -> bool { (k: string) => true }

  function NormalKeys(b: Build, items: seq<string>): seq<string> { Dedup(items, Whitelist(b)) }

  function UniqueNames(items: seq<string>): seq<string> { Dedup(items, AnyName()) }

  /** Every wanted name that occurs, trimmed, is kept, and no other. */
  lemma {:induction false} DedupMembers(items: seq<string>, wanted: string -> bool, k: string)
    ensures k in Dedup(items, wanted) <==> k != "" && wanted(k) && k in TrimAll(items)
  {
    if items != [] {
      var rest, last := items[..|items| - 1], items[|items| - 1];
      DedupMembers(rest, wanted, k);
      TrimAllSnoc(rest, last);
      assert items == rest + [last];
    }
  }

  lemma TrimAllSnoc(items: seq<string>, last: string)
    ensures TrimAll(items + [last]) == TrimAll(items) + {TrimSpace(last)}
  {
    var all := items + [last];
    forall k | k in TrimAll(items) + {TrimSpace(last)} ensures k in TrimAll(all) {
      if k in TrimAll(items) {
        var i :| 0 <= i < |items| && TrimSpace(items[i]) == k;
        assert TrimSpace(all[i]) == k;
      } else {
        assert TrimSpace(all[|items|]) == k;
      }
    }
  }

  method DedupNames(items: seq<string>, wanted: string -> bool) returns (result: seq<string>)
    ensures result == Dedup(items, wanted)
  {
    result := [];
    var seen: set<string> := {};
    var i := 0;
    while i < |items|
      invariant 0 <= i <= |items| && result == Dedup(items[..i], wanted)
      invariant seen == set x | x in result
    {
      assert items[..i + 1][..i] == items[..i];
      var name := TrimSpace(items[i]);
      if name != "" && wanted(name) && name !in seen {
        seen := seen + {name};
        result := result + [name];
      }
      i := i + 1;
    }
    assert items[..|items|] == items;
  }

  function TrimAll(items: seq<string>): set<string> { set i | 0 <= i < |items| :: TrimSpace(items[i]) }

  /** Appends the keys that are not there yet. */
  function AppendMissing(metrics: seq<string>, keys: seq<string>): seq<string> {
    if keys == [] then metrics
    else
      var before, key := AppendMissing(metrics, keys[..|keys| - 1]), keys[|keys| - 1];
      if key in TrimAll(metrics) || key in keys[..|keys| - 1] then before else before + [key]
  }

  method AppendMissingKeys(metrics: seq<string>, keys: seq<string>) returns (result: seq<string>)
    ensures result == AppendMissing(metrics, keys)
  {
    var present := TrimAll(metrics);
    var existing := present;
    result := metrics;
    var i := 0;
    while i < |keys|
      invariant 0 <= i <= |keys| && result == AppendMissing(metrics, keys[..i])
      invariant forall k :: k in existing <==> k in present || k in keys[..i]
    {
      assert keys[..i + 1][..i] == keys[..i] && keys[..i + 1] == keys[..i] + [keys[i]];
      if keys[i] !in existing {
        result := result + [keys[i]];
        existing := existing + {keys[i]};
      }
      i := i + 1;
    }
    assert keys[..|keys|] == keys;
  }

  predicate HasPrefixKey(metrics: seq<string>, prefix: string) {
    exists i :: 0 <= i < |metrics| && KeyHasPrefix(metrics[i], prefix)
  }

  predicate KeyHasPrefix(key: string, prefix: string) { StartsWith(TrimSpace(key), prefix) }

  /** Prefix up to letter case. */
  predicate StartsWith(key: string, prefix: string) { HasPrefix(ToLower(key), ToLower(prefix)) }

  // ---- probe selections

  /** The first selection of a target decides. */
  function TargetEnabled(selections: seq<Selection>, target: string): bool {
    if selections == [] then false
    else if EqualFold(TrimSpace(selections[0].target), target) then
      selections[0].enabled && !EqualFold(TrimSpace(selections[0].provider), "disabled")
    else TargetEnabled(selections[1..], target)
  }

  function DefaultProvider(defaults: seq<Selection>, target: string): string {
    if defaults == [] then ""
    else
      var last := defaults[|defaults| - 1];
      if last.target == target then last.provider else DefaultProvider(defaults[..|defaults| - 1], target)
  }

  function RepairProvider(b: Build, target: string, provider: string): string
    requires target in b.plans
  {
    var given := TrimSpace(provider);
    if given != "" && given in b.plans[target] then given
    else
      var fallback := DefaultProvider(b.defaults.selections, target);
      if fallback == "" then "disabled" else fallback
  }

  function TargetOf(item: Selection): string { ToLower(TrimSpace(item.target)) }

  predicate Supported(b: Build, item: Selection) { TargetOf(item) != "" && TargetOf(item) in b.plans }

  function Repair(b: Build, item: Selection): Selection
    requires Supported(b, item)
  {
    Selection(TargetOf(item), RepairProvider(b, TargetOf(item), item.provider), item.enabled)
  }

  function Targets(selections: seq<Selection>): set<string> { set i | 0 <= i < |selections| :: selections[i].target }

  /** The supported selections, repaired, the first of each target. */
  function RepairAll(b: Build, selections: seq<Selection>): seq<Selection> {
    if selections == [] then []
    else
      var before, item := RepairAll(b, selections[..|selections| - 1]), selections[|selections| - 1];
      if Supported(b, item) && TargetOf(item) !in Targets(before) then before + [Repair(b, item)] else before
  }

  /** The defaults whose target is not among the given ones. */
  function MissingDefaults(defaults: seq<Selection>, seen: set<string>): seq<Selection> {
    if defaults == [] then []
    else
      var before, item := MissingDefaults(defaults[..|defaults| - 1], seen), defaults[|defaults| - 1];
      if item.target in seen then before else before + [item]
  }

  function NormalSelections(b: Build, selections: seq<Selection>): seq<Selection> {
    var repaired := RepairAll(b, selections);
    repaired + MissingDefaults(b.defaults.selections, Targets(repaired))
  }

  lemma TargetsSnoc(s: seq<Selection>, x: Selection)
    ensures Targets(s + [x]) == Targets(s) + {x.target}
  {
    var t := s + [x];
    forall k | k in Targets(s) + {x.target} ensures k in Targets(t) {
      if k in Targets(s) {
        var i :| 0 <= i < |s| && s[i].target == k;
        assert t[i].target == k;
      } else {
        assert t[|s|].target == k;
      }
    }
  }

  method RepairSelections(b: Build, selections: seq<Selection>) returns (result: seq<Selection>, seen: set<string>)
    ensures result == RepairAll(b, selections) && seen == Targets(result)
  {
    result, seen := [], {};
    var i := 0;
    while i < |selections|
      invariant 0 <= i <= |selections| && result == RepairAll(b, selections[..i]) && seen == Targets(result)
    {
      assert selections[..i + 1][..i] == selections[..i];
      if Supported(b, selections[i]) && TargetOf(selections[i]) !in seen {
        var repaired := Repair(b, selections[i]);
        TargetsSnoc(result, repaired);
        seen := seen + {repaired.target};
        result := result + [repaired];
      }
      i := i + 1;
    }
    assert selections[..|selections|] == selections;
  }

  method AddMissing(repaired: seq<Selection>, defaults: seq<Selection>, seen: set<string>) returns (result: seq<Selection>)
    ensures result == repaired + MissingDefaults(defaults, seen)
  {
    result := repaired;
    var i := 0;
    while i < |defaults|
      invariant 0 <= i <= |defaults|
      invariant result == repaired + MissingDefaults(defaults[..i], seen)
    {
      assert defaults[..i + 1][..i] == defaults[..i];
      if defaults[i].target !in seen {
        result := result + [defaults[i]];
      }
      i := i + 1;
    }
    assert defaults[..|defaults|] == defaults;
  }

  method NormalizeSelections(b: Build, selections: seq<Selection>) returns (result: seq<Selection>)
    ensures result == NormalSelections(b, selections)
  {
    var repaired, seen := RepairSelections(b, selections);
    result := AddMissing(repaired, b.defaults.selections, seen);
  }

  // ---- metric backfill

  predicate Fires(rule: Rule, selections: seq<Selection>, metrics: seq<string>) {
    TargetEnabled(selections, rule.target) &&
    match rule.trigger
    case Unless(prefix) => !HasPrefixKey(metrics, prefix)
    case OnlyIf(prefix) => HasPrefixKey(metrics, prefix)
    case Always => true
  }

  function Apply(rule: Rule, selections: seq<Selection>, metrics: seq<string>): seq<string> {
    if !Fires(rule, selections, metrics) then metrics
    else if rule.trigger.Unless? then metrics + rule.keys
    else AppendMissing(metrics, rule.keys)
  }

  function Backfill(rules: seq<Rule>, selections: seq<Selection>, metrics: seq<string>): seq<string> {
    if rules == [] then metrics
    else Apply(rules[|rules| - 1], selections, Backfill(rules[..|rules| - 1], selections, metrics))
  }

  // ---- the pass

  predicate KeyKept(r: map<string, seq<string>>, k: string) { TrimSpace(k) == "" || TrimSpace(k) in r }

  ghost predicate Derived(m: map<string, seq<string>>, k: string, names: seq<string>) {
    k != "" && exists k0 :: k0 in m && TrimSpace(k0) == k && names == UniqueNames(m[k0])
  }

  /** Map keys are trimmed; when two keys trim to the same name either may win. */
  ghost predicate NormalMap(m: map<string, seq<string>>, r: map<string, seq<string>>) {
    && (forall k :: k in m ==> KeyKept(r, k))
    && (forall k :: k in r ==> Derived(m, k, r[k]))
  }

  method NormalizeMap(m: map<string, seq<string>>) returns (r: map<string, seq<string>>)
    ensures NormalMap(m, r)
  {
    r := map[];
    var left := m.Keys;
    while left != {}
      invariant left <= m.Keys
      invariant forall k :: k in m && k !in left ==> KeyKept(r, k)
      invariant forall k :: k in r ==> Derived(m, k, r[k])
      decreases left
    {
      var key :| key in left;
      left := left - {key};
      var trimmed := TrimSpace(key);
      if trimmed != "" {
        var names := DedupNames(m[key], AnyName());
        r := r[trimmed := names];
      }
    }
  }

  function OrDefault(value: string, fallback: string): string {
    if TrimSpace(value) == "" then TrimSpace(fallback) else TrimSpace(value)
  }

  /** The placeholder name older releases stored counts as no name. */
  function NormalHost(name: string): string {
    if TrimSpace(name) == "Windows Agent" then "" else TrimSpace(name)
  }

  function NormalConnection(d: Connection, c: Connection): Connection {
    Connection(OrDefault(c.serverUrl, d.serverUrl), TrimSpace(c.secret), OrDefault(c.deviceId, d.deviceId),
               NormalHost(c.hostname))
  }

  function InRange(value: int, fallback: int): int { if 0 < value <= MAX_INTERVAL then value else fallback }

  /** The old equal cadence is moved to the new slow default. */
  function NormalSlow(b: Build, normal: int, slow: int): int {
    if normal == LEGACY_INTERVAL && slow == LEGACY_INTERVAL then b.defaults.slow else slow
  }

  function ChosenSelections(b: Build, c: Config): seq<Selection> {
    if c.selections == [] then b.defaults.selections else c.selections
  }

  function ListedMetrics(b: Build, c: Config, raw: Mentions): seq<string> {
    NormalKeys(b, if !raw.metrics && c.metrics == [] then b.defaults.metrics else c.metrics)
  }

  /** An explicitly empty list stays empty; any other is completed from the rules. */
  function NormalMetrics(b: Build, c: Config, raw: Mentions): seq<string> {
    var listed := ListedMetrics(b, c, raw);
    if raw.metrics && listed == [] then NormalKeys(b, listed)
    else NormalKeys(b, Backfill(b.rules, ChosenSelections(b, c), listed))
  }

  function NormalVersion(c: Config): int { if c.version <= 0 then CURRENT_VERSION else c.version }

  /** A switch the document text does not mention takes its default. */
  function Switch(mentioned: bool, value: bool, fallback: bool): bool { if mentioned then value else fallback }

  ghost predicate NormalScalars(b: Build, c: Config, raw: Mentions, r: Config) {
    && r.version == NormalVersion(c)
    && r.connection == NormalConnection(b.defaults.connection, c.connection)
    && r.normal == InRange(c.normal, b.defaults.normal)
    && r.slow == NormalSlow(b, r.normal, InRange(c.slow, b.defaults.slow))
    && r.cloudSync == Switch(raw.cloudSync, c.cloudSync, b.defaults.cloudSync)
    && r.recording == Switch(raw.recording, c.recording, b.defaults.recording)
    && r.autoRestart == Switch(raw.autoRestart, c.autoRestart, b.defaults.autoRestart)
    && r.autoStart == Switch(raw.autoStart, c.autoStart, b.defaults.autoStart)
  }

  /** r is a possible result of normalising c. */
  ghost predicate Normalizes(b: Build, c: Config, raw: Mentions, r: Config) {
    && NormalScalars(b, c, raw, r)
    && r.metrics == NormalMetrics(b, c, raw)
    && r.selections == NormalSelections(b, ChosenSelections(b, c))
    && NormalMap(c.devices, r.devices)
    && NormalMap(c.instances, r.instances)
  }

  method BackfillMetrics(b: Build, selections: seq<Selection>, listed: seq<string>) returns (metrics: seq<string>)
    ensures metrics == Backfill(b.rules, selections, listed)
  {
    metrics := listed;
    var i := 0;
    while i < |b.rules|
      invariant 0 <= i <= |b.rules| && metrics == Backfill(b.rules[..i], selections, listed)
    {
      assert b.rules[..i + 1][..i] == b.rules[..i];
      if Fires(b.rules[i], selections, metrics) {
        if b.rules[i].trigger.Unless? {
          metrics := metrics + b.rules[i].keys;
        } else {
          metrics := AppendMissingKeys(metrics, b.rules[i].keys);
        }
      }
      i := i + 1;
    }
    assert b.rules[..|b.rules|] == b.rules;
  }

  method NormalizeMetrics(b: Build, config: Config, raw: Mentions) returns (metrics: seq<string>)
    ensures metrics == NormalMetrics(b, config, raw)
  {
    metrics := if !raw.metrics && config.metrics == [] then b.defaults.metrics else config.metrics;
    metrics := DedupNames(metrics, Whitelist(b));
    if !(raw.metrics && metrics == []) {
      metrics := BackfillMetrics(b, ChosenSelections(b, config), metrics);
    }
    metrics := DedupNames(metrics, Whitelist(b));
  }

  method NormalizeScalars(b: Build, config: Config, raw: Mentions) returns (r: Config)
    ensures NormalScalars(b, config, raw, r)
  {
    var d := b.defaults;
    r := config.(version := NormalVersion(config), connection := NormalConnection(d.connection, config.connection),
                 normal := InRange(config.normal, d.normal), slow := InRange(config.slow, d.slow));
    r := r.(slow := NormalSlow(b, r.normal, r.slow));
    r := r.(cloudSync := Switch(raw.cloudSync, r.cloudSync, d.cloudSync),
            recording := Switch(raw.recording, r.recording, d.recording),
            autoRestart := Switch(raw.autoRestart, r.autoRestart, d.autoRestart),
            autoStart := Switch(raw.autoStart, r.autoStart, d.autoStart));
  }

  /** The whole pass. */
  method Normalize(b: Build, config: Config, raw: Mentions) returns (r: Config)
    ensures Normalizes(b, config, raw, r)
  {
    var scalars := NormalizeScalars(b, config, raw);
    var metrics := NormalizeMetrics(b, config, raw);
    var devices := NormalizeMap(config.devices);
    var instances := NormalizeMap(config.instances);
    var selections := NormalizeSelections(b, ChosenSelections(b, config));
    r := scalars.(metrics := metrics, devices := devices, instances := instances, selections := selections);
  }
}
