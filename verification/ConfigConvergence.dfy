/** Repeating the migration pass converges: two passes, with re-encoding in between,
    reach a fixed point for every document. */
module ConfigConvergence {
  import opened Text
  import opened AgentConfig

  // ---- what a build must satisfy

  ghost predicate DistinctNames(s: seq<string>) { forall i, j :: 0 <= i < j < |s| ==> s[i] != s[j] }

  predicate PlainName(k: string) { k != "" && Trimmed(k) }

  /** Each rule's keys are known and distinct; a rule that fires on an absent prefix
      brings that prefix in. */
  ghost predicate RuleOk(b: Build, rule: Rule) {
    && (forall i :: 0 <= i < |rule.keys| ==> rule.keys[i] in b.known)
    && DistinctNames(rule.keys)
    && (rule.trigger.Unless? ==>
          rule.keys != [] && forall i :: 0 <= i < |rule.keys| ==> StartsWith(rule.keys[i], rule.trigger.prefix))
  }

  /** No later rule brings in the prefix an earlier rule waits for. */
  ghost predicate RulesOrdered(rules: seq<Rule>) {
    forall i, j, n :: 0 <= i < j < |rules| && rules[i].trigger.OnlyIf? && 0 <= n < |rules[j].keys| ==>
      !StartsWith(rules[j].keys[n], rules[i].trigger.prefix)
  }

  predicate DefaultOk(b: Build, d: Selection) {
    && PlainName(d.target) && ToLower(d.target) == d.target && d.target in b.plans
    && PlainName(d.provider)
  }

  ghost predicate RulesOk(b: Build) {
    && (forall k :: k in b.known ==> PlainName(k))
    && (forall i :: 0 <= i < |b.rules| ==> RuleOk(b, b.rules[i]))
    && RulesOrdered(b.rules)
  }

  ghost predicate DefaultsOk(b: Build) {
    var ds := b.defaults.selections;
    && ds != []
    && (forall i :: 0 <= i < |ds| ==> DefaultOk(b, ds[i]))
    && (forall i, j :: 0 <= i < j < |ds| ==> ds[i].target != ds[j].target)
  }

  predicate ScalarsOk(d: Config) {
    && PlainName(d.connection.serverUrl) && PlainName(d.connection.deviceId)
    && 0 < d.normal <= MAX_INTERVAL && 0 < d.slow <= MAX_INTERVAL && d.slow != LEGACY_INTERVAL
  }

  ghost predicate Coherent(b: Build) { RulesOk(b) && DefaultsOk(b) && ScalarsOk(b.defaults) }

  // ---- name lists

  ghost predicate Clean(s: seq<string>, wanted: string -> bool) {
    DistinctNames(s) && forall i :: 0 <= i < |s| ==> PlainName(s[i]) && wanted(s[i])
  }

  lemma {:induction false} DedupIsClean(items: seq<string>, wanted: string -> bool)
    ensures Clean(Dedup(items, wanted), wanted)
  {
    if items != [] {
      DedupIsClean(items[..|items| - 1], wanted);
    }
  }

  lemma {:induction false} CleanIsFixed(s: seq<string>, wanted: string -> bool)
    requires Clean(s, wanted)
    ensures Dedup(s, wanted) == s
  {
    if s != [] {
      var rest := s[..|s| - 1];
      CleanIsFixed(rest, wanted);
      assert s == rest + [s[|s| - 1]];
      assert s[|s| - 1] !in rest;
    }
  }

  lemma TrimAllClean(s: seq<string>, k: string)
    requires forall i :: 0 <= i < |s| ==> PlainName(s[i])
    ensures k in TrimAll(s) <==> k in s
  {
    if k in s {
      var i :| 0 <= i < |s| && s[i] == k;
      assert TrimSpace(s[i]) == k;
    }
  }

  /** Appending missing keys grows the list by just those keys. */
  lemma {:induction false} AppendMissingGrows(metrics: seq<string>, keys: seq<string>)
    requires forall i :: 0 <= i < |metrics| ==> PlainName(metrics[i])
    ensures metrics <= AppendMissing(metrics, keys)
    ensures forall k :: k in keys ==> k in AppendMissing(metrics, keys)
    ensures forall k :: k in AppendMissing(metrics, keys) ==> k in metrics || k in keys
    ensures (forall k :: k in keys ==> k in metrics) ==> AppendMissing(metrics, keys) == metrics
  {
    if keys != [] {
      var rest, key := keys[..|keys| - 1], keys[|keys| - 1];
      AppendMissingGrows(metrics, rest);
      TrimAllClean(metrics, key);
      assert keys == rest + [key];
    }
  }

  lemma {:induction false} AppendMissingClean(metrics: seq<string>, keys: seq<string>, wanted: string -> bool)
    requires Clean(metrics, wanted) && Clean(keys, wanted)
    ensures Clean(AppendMissing(metrics, keys), wanted)
  {
    if keys != [] {
      var rest, key := keys[..|keys| - 1], keys[|keys| - 1];
      assert Clean(rest, wanted);
      AppendMissingClean(metrics, rest, wanted);
      AppendMissingGrows(metrics, rest);
      TrimAllClean(metrics, key);
      var r := AppendMissing(metrics, rest);
      assert key !in rest;
      if key !in TrimAll(metrics) {
        assert key !in r;
        assert Clean(r + [key], wanted);
      }
    }
  }

  // ---- rules

  lemma RuleKeysClean(b: Build, rule: Rule)
    requires RulesOk(b) && RuleOk(b, rule)
    ensures Clean(rule.keys, Whitelist(b))
  {
  }

  lemma ConcatClean(a: seq<string>, c: seq<string>, wanted: string -> bool)
    requires Clean(a, wanted) && Clean(c, wanted) && forall k :: k in a ==> k !in c
    ensures Clean(a + c, wanted)
  {
    var s := a + c;
    forall i, j | 0 <= i < j < |s| ensures s[i] != s[j] {
      if i < |a| <= j {
        assert s[i] in a && s[j] in c;
      }
    }
  }

  lemma FreshKeys(keys: seq<string>, m: seq<string>, prefix: string)
    requires forall i :: 0 <= i < |keys| ==> PlainName(keys[i]) && StartsWith(keys[i], prefix)
    requires !HasPrefixKey(m, prefix)
    ensures forall k :: k in m ==> k !in keys
  {
    forall k | k in m ensures k !in keys {
      if k in keys {
        PrefixMember(m, k, prefix);
      }
    }
  }

  /** One rule keeps the list clean and only appends its own keys. */
  lemma ApplyGrows(b: Build, rule: Rule, sel: seq<Selection>, m: seq<string>)
    requires RulesOk(b) && RuleOk(b, rule) && Clean(m, Whitelist(b))
    ensures Clean(Apply(rule, sel, m), Whitelist(b))
    ensures m <= Apply(rule, sel, m)
    ensures forall k :: k in Apply(rule, sel, m) ==> k in m || k in rule.keys
    ensures Fires(rule, sel, m) ==> forall k :: k in rule.keys ==> k in Apply(rule, sel, m)
  {
    RuleKeysClean(b, rule);
    AppendMissingGrows(m, rule.keys);
    AppendMissingClean(m, rule.keys, Whitelist(b));
    if Fires(rule, sel, m) && rule.trigger.Unless? {
      FreshKeys(rule.keys, m, rule.trigger.prefix);
      ConcatClean(m, rule.keys, Whitelist(b));
    }
  }

  lemma {:induction false} BackfillClean(b: Build, i: nat, sel: seq<Selection>, m: seq<string>)
    requires RulesOk(b) && i <= |b.rules| && Clean(m, Whitelist(b))
    ensures Clean(Backfill(b.rules[..i], sel, m), Whitelist(b))
    ensures m <= Backfill(b.rules[..i], sel, m)
  {
    if i > 0 {
      assert b.rules[..i][..i - 1] == b.rules[..i - 1];
      BackfillClean(b, i - 1, sel, m);
      ApplyGrows(b, b.rules[i - 1], sel, Backfill(b.rules[..i - 1], sel, m));
    }
  }

  lemma {:induction false} BackfillGrows(b: Build, i: nat, j: nat, sel: seq<Selection>, m: seq<string>)
    requires RulesOk(b) && i <= j <= |b.rules| && Clean(m, Whitelist(b))
    ensures Backfill(b.rules[..i], sel, m) <= Backfill(b.rules[..j], sel, m)
  {
    if i < j {
      BackfillGrows(b, i, j - 1, sel, m);
      BackfillClean(b, j - 1, sel, m);
      assert b.rules[..j][..j - 1] == b.rules[..j - 1];
      ApplyGrows(b, b.rules[j - 1], sel, Backfill(b.rules[..j - 1], sel, m));
    }
  }

  /** A key that the rules from index i on do not hold is not added by them. */
  lemma {:induction false} BackfillTail(b: Build, i: nat, j: nat, sel: seq<Selection>, m: seq<string>, k: string)
    requires RulesOk(b) && i <= j <= |b.rules| && Clean(m, Whitelist(b))
    requires forall n :: i <= n < j ==> k !in b.rules[n].keys
    ensures k in Backfill(b.rules[..j], sel, m) ==> k in Backfill(b.rules[..i], sel, m)
  {
    if i < j {
      BackfillTail(b, i, j - 1, sel, m, k);
      BackfillClean(b, j - 1, sel, m);
      assert b.rules[..j][..j - 1] == b.rules[..j - 1];
      ApplyGrows(b, b.rules[j - 1], sel, Backfill(b.rules[..j - 1], sel, m));
    }
  }

  lemma PrefixMono(a: seq<string>, r: seq<string>, prefix: string)
    requires a <= r && HasPrefixKey(a, prefix)
    ensures HasPrefixKey(r, prefix)
  {
    var i :| 0 <= i < |a| && KeyHasPrefix(a[i], prefix);
    assert KeyHasPrefix(r[i], prefix);
  }

  lemma PrefixMember(s: seq<string>, k: string, prefix: string)
    requires k in s && KeyHasPrefix(k, prefix)
    ensures HasPrefixKey(s, prefix)
  {
    var i :| 0 <= i < |s| && s[i] == k;
    assert KeyHasPrefix(s[i], prefix);
  }

  lemma LaterKeysLack(rules: seq<Rule>, i: nat, j: nat, k: string)
    requires RulesOrdered(rules) && i < j < |rules| && rules[i].trigger.OnlyIf? && PlainName(k)
    ensures k in rules[j].keys ==> !KeyHasPrefix(k, rules[i].trigger.prefix)
  {
    if k in rules[j].keys {
      var x :| 0 <= x < |rules[j].keys| && rules[j].keys[x] == k;
    }
  }

  /** A key with the prefix an OnlyIf rule waits for was there when the rule had run. */
  lemma KeySeenBefore(b: Build, i: nat, sel: seq<Selection>, m: seq<string>, k: string)
    requires RulesOk(b) && i < |b.rules| && Clean(m, Whitelist(b)) && b.rules[i].trigger.OnlyIf?
    requires k in Backfill(b.rules, sel, m) && KeyHasPrefix(k, b.rules[i].trigger.prefix)
    ensures k in Backfill(b.rules[..i + 1], sel, m)
  {
    assert b.rules[..|b.rules|] == b.rules;
    BackfillClean(b, |b.rules|, sel, m);
    forall j: nat | i < j < |b.rules| ensures k !in b.rules[j].keys {
      LaterKeysLack(b.rules, i, j, k);
    }
    BackfillTail(b, i + 1, |b.rules|, sel, m, k);
  }

  /** A prefix seen at the end and not brought in by later rules was there already. */
  lemma PrefixSeenBefore(b: Build, i: nat, sel: seq<Selection>, m: seq<string>)
    requires RulesOk(b) && i < |b.rules| && Clean(m, Whitelist(b)) && b.rules[i].trigger.OnlyIf?
    requires HasPrefixKey(Backfill(b.rules, sel, m), b.rules[i].trigger.prefix)
    ensures HasPrefixKey(Backfill(b.rules[..i + 1], sel, m), b.rules[i].trigger.prefix)
  {
    var p, end := b.rules[i].trigger.prefix, Backfill(b.rules, sel, m);
    var n :| 0 <= n < |end| && KeyHasPrefix(end[n], p);
    KeySeenBefore(b, i, sel, m, end[n]);
    PrefixMember(Backfill(b.rules[..i + 1], sel, m), end[n], p);
  }

  /** A rule that would fire at the end has fired in its turn. */
  lemma FiredInTurn(b: Build, i: nat, sel: seq<Selection>, m: seq<string>)
    requires RulesOk(b) && i < |b.rules| && Clean(m, Whitelist(b))
    requires Fires(b.rules[i], sel, Backfill(b.rules, sel, m))
    ensures Fires(b.rules[i], sel, Backfill(b.rules[..i], sel, m))
  {
    var rule := b.rules[i];
    var before, end := Backfill(b.rules[..i], sel, m), Backfill(b.rules, sel, m);
    assert b.rules[..i + 1][..i] == b.rules[..i] && b.rules[..|b.rules|] == b.rules;
    match rule.trigger
    case Unless(p) =>
      BackfillGrows(b, i, |b.rules|, sel, m);
      if HasPrefixKey(before, p) {
        PrefixMono(before, end, p);
      }
    case OnlyIf(p) =>
      PrefixSeenBefore(b, i, sel, m);
      assert HasPrefixKey(Apply(rule, sel, before), p);
    case Always =>
  }

  /** The keys of a rule that fired in its turn are there at the end. */
  lemma FiredKeysStay(b: Build, i: nat, sel: seq<Selection>, m: seq<string>)
    requires RulesOk(b) && i < |b.rules| && Clean(m, Whitelist(b))
    requires Fires(b.rules[i], sel, Backfill(b.rules[..i], sel, m))
    ensures forall k :: k in b.rules[i].keys ==> k in Backfill(b.rules, sel, m)
  {
    assert b.rules[..i + 1][..i] == b.rules[..i] && b.rules[..|b.rules|] == b.rules;
    BackfillClean(b, i, sel, m);
    ApplyGrows(b, b.rules[i], sel, Backfill(b.rules[..i], sel, m));
    BackfillGrows(b, i + 1, |b.rules|, sel, m);
    PrefixMembers(Backfill(b.rules[..i + 1], sel, m), Backfill(b.rules, sel, m));
  }

  lemma PrefixMembers(a: seq<string>, r: seq<string>)
    requires a <= r
    ensures forall k :: k in a ==> k in r
  {
  }

  /** After all rules have run, running any one of them again changes nothing. */
  lemma RuleSettled(b: Build, i: nat, sel: seq<Selection>, m: seq<string>)
    requires RulesOk(b) && i < |b.rules| && Clean(m, Whitelist(b))
    ensures Apply(b.rules[i], sel, Backfill(b.rules, sel, m)) == Backfill(b.rules, sel, m)
  {
    if Fires(b.rules[i], sel, Backfill(b.rules, sel, m)) {
      FiredInTurn(b, i, sel, m);
      FiredKeysStay(b, i, sel, m);
      assert b.rules[..|b.rules|] == b.rules;
      BackfillClean(b, |b.rules|, sel, m);
      KeysThere(b, b.rules[i], sel, Backfill(b.rules, sel, m));
    }
  }

  lemma KeysThere(b: Build, rule: Rule, sel: seq<Selection>, end: seq<string>)
    requires RuleOk(b, rule) && forall k :: k in rule.keys ==> k in end
    requires forall i :: 0 <= i < |end| ==> PlainName(end[i])
    ensures Apply(rule, sel, end) == end
  {
    AppendMissingGrows(end, rule.keys);
    if rule.trigger.Unless? {
      PrefixMember(end, rule.keys[0], rule.trigger.prefix);
    }
  }

  lemma {:induction false} BackfillSettled(b: Build, i: nat, sel: seq<Selection>, m: seq<string>)
    requires RulesOk(b) && i <= |b.rules| && Clean(m, Whitelist(b))
    ensures Backfill(b.rules[..i], sel, Backfill(b.rules, sel, m)) == Backfill(b.rules, sel, m)
  {
    if i > 0 {
      assert b.rules[..i][..i - 1] == b.rules[..i - 1];
      BackfillSettled(b, i - 1, sel, m);
      RuleSettled(b, i - 1, sel, m);
    }
  }

  // ---- selections

  lemma LowerKeepsTrimmed(s: string)
    requires Trimmed(s)
    ensures Trimmed(ToLower(s)) && ToLower(ToLower(s)) == ToLower(s)
  {
  }

  lemma {:induction false} DefaultProviderPlain(b: Build, ds: seq<Selection>, target: string)
    requires forall i :: 0 <= i < |ds| ==> PlainName(ds[i].provider)
    ensures DefaultProvider(ds, target) == "" || PlainName(DefaultProvider(ds, target))
  {
    if ds != [] {
      DefaultProviderPlain(b, ds[..|ds| - 1], target);
    }
  }

  /** A repaired selection needs no further repair. */
  predicate Repaired(b: Build, item: Selection) { Supported(b, item) && Repair(b, item) == item }

  lemma RepairIsFixed(b: Build, item: Selection)
    requires DefaultsOk(b) && Supported(b, item)
    ensures Repaired(b, Repair(b, item))
  {
    LowerKeepsTrimmed(TrimSpace(item.target));
    var r := Repair(b, item);
    assert TargetOf(r) == r.target;
    var ds := b.defaults.selections;
    forall i | 0 <= i < |ds| ensures PlainName(ds[i].provider) {
      assert DefaultOk(b, ds[i]);
    }
    DefaultProviderPlain(b, ds, r.target);
    assert Trimmed("disabled");
  }

  /** With one default per target, each default is its target's provider. */
  lemma {:induction false} OwnDefault(ds: seq<Selection>, n: nat, i: nat)
    requires i < n <= |ds| && forall i, j :: 0 <= i < j < |ds| ==> ds[i].target != ds[j].target
    ensures DefaultProvider(ds[..n], ds[i].target) == ds[i].provider
  {
    if i < n - 1 {
      OwnDefault(ds, n - 1, i);
      assert ds[..n][..n - 1] == ds[..n - 1];
    }
  }

  lemma DefaultIsRepaired(b: Build, i: nat)
    requires DefaultsOk(b) && i < |b.defaults.selections|
    ensures Repaired(b, b.defaults.selections[i])
  {
    var ds := b.defaults.selections;
    assert ds[..|ds|] == ds && DefaultOk(b, ds[i]);
    OwnDefault(ds, |ds|, i);
  }

  function RepairedBy(b: Build): Selection -> bool { (item: Selection) => Repaired(b, item) }

  /** Every selection passes, and no target is selected twice. */
  ghost predicate AllPass(ok: Selection -> bool, s: seq<Selection>) {
    && (forall i :: 0 <= i < |s| ==> ok(s[i]))
    && (forall i, j :: 0 <= i < j < |s| ==> s[i].target != s[j].target)
  }

  lemma PassSnoc(ok: Selection -> bool, s: seq<Selection>, x: Selection)
    requires AllPass(ok, s) && ok(x) && x.target !in Targets(s)
    ensures AllPass(ok, s + [x])
  {
    var t := s + [x];
    forall i, j | 0 <= i < j < |t| ensures t[i].target != t[j].target {
      assert t[i].target in Targets(s);
    }
  }

  lemma {:induction false} RepairAllRepairs(b: Build, s: seq<Selection>)
    requires DefaultsOk(b)
    ensures AllPass(RepairedBy(b), RepairAll(b, s))
  {
    if s != [] {
      RepairAllRepairs(b, s[..|s| - 1]);
      var before, item := RepairAll(b, s[..|s| - 1]), s[|s| - 1];
      if Supported(b, item) && TargetOf(item) !in Targets(before) {
        RepairIsFixed(b, item);
        PassSnoc(RepairedBy(b), before, Repair(b, item));
      }
    }
  }

  lemma RepairAllSnoc(b: Build, rest: seq<Selection>, item: Selection)
    requires RepairAll(b, rest) == rest && RepairedBy(b)(item) && item.target !in Targets(rest)
    ensures RepairAll(b, rest + [item]) == rest + [item]
  {
    var s := rest + [item];
    assert s[..|s| - 1] == rest && s[|s| - 1] == item;
    assert Repair(b, item).target == TargetOf(item);
  }

  lemma TargetNotBefore(s: seq<Selection>, n: nat)
    requires n < |s| && forall i, j :: 0 <= i < j < |s| ==> s[i].target != s[j].target
    ensures s[n].target !in Targets(s[..n])
  {
  }

  /** A pass that keeps each good element it meets. */
  ghost predicate Keeps(pass: seq<Selection> -> seq<Selection>, ok: Selection -> bool) {
    pass([]) == [] && forall s, x :: pass(s) == s && ok(x) && x.target !in Targets(s) ==> pass(s + [x]) == s + [x]
  }

  lemma {:induction false} KeepsAll(pass: seq<Selection> -> seq<Selection>, ok: Selection -> bool, s: seq<Selection>, n: nat)
    requires Keeps(pass, ok) && AllPass(ok, s) && n <= |s|
    ensures pass(s[..n]) == s[..n]
  {
    if n > 0 {
      KeepsAll(pass, ok, s, n - 1);
      TargetNotBefore(s, n - 1);
      assert s[..n - 1] + [s[n - 1]] == s[..n];
    }
  }

  /** Repairing a repaired list changes nothing. */
  lemma RepairedIsFixed(b: Build, s: seq<Selection>)
    requires AllPass(RepairedBy(b), s)
    ensures RepairAll(b, s) == s
  {
    var pass := (t: seq<Selection>) => RepairAll(b, t);
    forall t, x | pass(t) == t && RepairedBy(b)(x) && x.target !in Targets(t) ensures pass(t + [x]) == t + [x] {
      RepairAllSnoc(b, t, x);
    }
    KeepsAll(pass, RepairedBy(b), s, |s|);
    assert s[..|s|] == s;
  }

  lemma {:induction false} MissingTargets(s: seq<Selection>, ds: seq<Selection>, seen: set<string>)
    requires seen == Targets(s)
    ensures Targets(s + MissingDefaults(ds, seen)) == Targets(s) + Targets(ds)
  {
    if ds == [] {
      assert s + MissingDefaults(ds, seen) == s && Targets(ds) == {};
    } else {
      var rest, item := ds[..|ds| - 1], ds[|ds| - 1];
      MissingTargets(s, rest, seen);
      assert ds == rest + [item];
      TargetsSnoc(rest, item);
      var before := s + MissingDefaults(rest, seen);
      TargetsSnoc(before, item);
      assert item.target !in seen ==> s + MissingDefaults(ds, seen) == before + [item];
    }
  }

  /** Adding the missing defaults keeps a passing list passing. */
  lemma {:induction false} MissingDefaultsPass(ok: Selection -> bool, s: seq<Selection>, ds: seq<Selection>, n: nat)
    requires AllPass(ok, s) && AllPass(ok, ds) && n <= |ds|
    ensures AllPass(ok, s + MissingDefaults(ds[..n], Targets(s)))
  {
    if n == 0 {
      assert s + MissingDefaults(ds[..0], Targets(s)) == s;
    } else {
      var rest, item := ds[..n - 1], ds[n - 1];
      assert ds[..n][..n - 1] == rest;
      MissingDefaultsPass(ok, s, ds, n - 1);
      MissingTargets(s, rest, Targets(s));
      TargetNotBefore(ds, n - 1);
      var before := s + MissingDefaults(rest, Targets(s));
      if item.target !in Targets(s) {
        PassSnoc(ok, before, item);
        assert before + [item] == s + MissingDefaults(ds[..n], Targets(s));
      }
    }
  }

  lemma DefaultsRepaired(b: Build)
    requires DefaultsOk(b)
    ensures AllPass(RepairedBy(b), b.defaults.selections)
  {
    var ds := b.defaults.selections;
    forall i | 0 <= i < |ds| ensures RepairedBy(b)(ds[i]) {
      DefaultIsRepaired(b, i);
    }
  }

  lemma {:induction false} NothingMissing(ds: seq<Selection>, seen: set<string>)
    requires Targets(ds) <= seen
    ensures MissingDefaults(ds, seen) == []
  {
    if ds != [] {
      assert ds == ds[..|ds| - 1] + [ds[|ds| - 1]];
      TargetsSnoc(ds[..|ds| - 1], ds[|ds| - 1]);
      NothingMissing(ds[..|ds| - 1], seen);
    }
  }

  /** A repaired list that mentions every default target is a fixed point. */
  lemma SettledSelections(b: Build, r: seq<Selection>)
    requires AllPass(RepairedBy(b), r) && Targets(b.defaults.selections) <= Targets(r)
    ensures NormalSelections(b, r) == r
  {
    RepairedIsFixed(b, r);
    NothingMissing(b.defaults.selections, Targets(r));
  }

  lemma NormalSelectionsPass(b: Build, s: seq<Selection>)
    requires DefaultsOk(b)
    ensures AllPass(RepairedBy(b), NormalSelections(b, s))
  {
    var ds := b.defaults.selections;
    RepairAllRepairs(b, s);
    DefaultsRepaired(b);
    MissingDefaultsPass(RepairedBy(b), RepairAll(b, s), ds, |ds|);
    assert ds[..|ds|] == ds;
  }

  /** Normalising selections is idempotent, and never leaves none. */
  lemma SelectionsSettle(b: Build, s: seq<Selection>)
    requires DefaultsOk(b)
    ensures NormalSelections(b, NormalSelections(b, s)) == NormalSelections(b, s)
    ensures NormalSelections(b, s) != []
  {
    var ds, repaired := b.defaults.selections, RepairAll(b, s);
    NormalSelectionsPass(b, s);
    MissingTargets(repaired, ds, Targets(repaired));
    SettledSelections(b, NormalSelections(b, s));
    NonEmptyTargets(ds, NormalSelections(b, s));
  }

  lemma NonEmptyTargets(ds: seq<Selection>, r: seq<Selection>)
    requires ds != [] && Targets(ds) <= Targets(r)
    ensures r != []
  {
    assert ds[0].target in Targets(ds);
  }

  // ---- maps and scalars

  lemma DerivedIsFixed(m: map<string, seq<string>>, k: string, names: seq<string>)
    requires Derived(m, k, names)
    ensures TrimSpace(k) == k != "" && UniqueNames(names) == names
  {
    var k0 :| k0 in m && TrimSpace(k0) == k && names == UniqueNames(m[k0]);
    DedupIsClean(m[k0], AnyName());
    CleanIsFixed(names, AnyName());
  }

  lemma KeyStays(m: map<string, seq<string>>, r: map<string, seq<string>>, r2: map<string, seq<string>>, k: string)
    requires k in r && Derived(m, k, r[k]) && KeyKept(r2, k)
    ensures k in r2
  {
    DerivedIsFixed(m, k, r[k]);
  }

  lemma NamesStay(m: map<string, seq<string>>, r: map<string, seq<string>>, k: string, names: seq<string>)
    requires NormalMap(m, r) && Derived(r, k, names)
    ensures k in r && names == r[k]
  {
    var k1 :| k1 in r && TrimSpace(k1) == k && names == UniqueNames(r[k1]);
    DerivedIsFixed(m, k1, r[k1]);
  }

  lemma KeysStay(m: map<string, seq<string>>, r: map<string, seq<string>>, r2: map<string, seq<string>>)
    requires (forall k :: k in r ==> Derived(m, k, r[k])) && (forall k :: k in r ==> KeyKept(r2, k))
    ensures forall k :: k in r ==> k in r2
  {
    forall k | k in r ensures k in r2 {
      KeyStays(m, r, r2, k);
    }
  }

  lemma AllNamesStay(m: map<string, seq<string>>, r: map<string, seq<string>>, r2: map<string, seq<string>>)
    requires NormalMap(m, r) && forall k :: k in r2 ==> Derived(r, k, r2[k])
    ensures forall k :: k in r2 ==> k in r && r2[k] == r[k]
  {
    forall k | k in r2 ensures k in r && r2[k] == r[k] {
      NamesStay(m, r, k, r2[k]);
    }
  }

  lemma MapSettles(m: map<string, seq<string>>, r: map<string, seq<string>>, r2: map<string, seq<string>>)
    requires NormalMap(m, r) && NormalMap(r, r2)
    ensures r2 == r
  {
    KeysStay(m, r, r2);
    AllNamesStay(m, r, r2);
    SameMap(r, r2);
  }

  lemma SameMap(r: map<string, seq<string>>, r2: map<string, seq<string>>)
    requires forall k :: k in r ==> k in r2
    requires forall k :: k in r2 ==> k in r && r2[k] == r[k]
    ensures r2 == r
  {
    assert r2.Keys == r.Keys;
  }

  lemma OrDefaultSettles(value: string, fallback: string)
    requires TrimSpace(fallback) != ""
    ensures OrDefault(OrDefault(value, fallback), fallback) == OrDefault(value, fallback)
  {
  }

  lemma HostSettles(name: string)
    ensures NormalHost(NormalHost(name)) == NormalHost(name)
  {
    assert Trimmed("");
  }

  lemma ConnectionSettles(d: Connection, c: Connection)
    requires TrimSpace(d.serverUrl) != "" && TrimSpace(d.deviceId) != ""
    ensures NormalConnection(d, NormalConnection(d, c)) == NormalConnection(d, c)
  {
    OrDefaultSettles(c.serverUrl, d.serverUrl);
    OrDefaultSettles(c.deviceId, d.deviceId);
    HostSettles(c.hostname);
  }

  lemma ScalarsSettle(b: Build, c: Config, raw: Mentions, r: Config, r2: Config)
    requires ScalarsOk(b.defaults) && NormalScalars(b, c, raw, r) && NormalScalars(b, r, REENCODED, r2)
    ensures r2.version == r.version && r2.connection == r.connection && r2.normal == r.normal && r2.slow == r.slow
    ensures r2.cloudSync == r.cloudSync && r2.recording == r.recording
    ensures r2.autoRestart == r.autoRestart && r2.autoStart == r.autoStart
  {
    ConnectionSettles(b.defaults.connection, c.connection);
  }

  // ---- metrics

  lemma MetricsClean(b: Build, c: Config, raw: Mentions)
    ensures Clean(NormalMetrics(b, c, raw), Whitelist(b))
  {
    var listed := ListedMetrics(b, c, raw);
    DedupIsClean(listed, Whitelist(b));
    DedupIsClean(Backfill(b.rules, ChosenSelections(b, c), listed), Whitelist(b));
  }

  /** On a clean list the pass is just the backfill, unless the list is empty. */
  lemma MetricsOfClean(b: Build, c: Config, raw: Mentions, listed: seq<string>)
    requires RulesOk(b) && Clean(listed, Whitelist(b)) && ListedMetrics(b, c, raw) == listed
    ensures NormalMetrics(b, c, raw) ==
            if raw.metrics && listed == [] then [] else Backfill(b.rules, ChosenSelections(b, c), listed)
  {
    CleanIsFixed(listed, Whitelist(b));
    assert b.rules[..|b.rules|] == b.rules;
    BackfillClean(b, |b.rules|, ChosenSelections(b, c), listed);
    CleanIsFixed(Backfill(b.rules, ChosenSelections(b, c), listed), Whitelist(b));
  }

  /** Metrics that are already the backfill of some clean list under the same
      selections are a fixed point. */
  lemma BackfilledIsFixed(b: Build, c: Config, listed: seq<string>)
    requires RulesOk(b) && Clean(listed, Whitelist(b)) && c.selections != []
    requires c.metrics == [] || c.metrics == Backfill(b.rules, c.selections, listed)
    ensures NormalMetrics(b, c, REENCODED) == c.metrics
  {
    assert b.rules[..|b.rules|] == b.rules;
    BackfillClean(b, |b.rules|, c.selections, listed);
    CleanIsFixed(c.metrics, Whitelist(b));
    MetricsOfClean(b, c, REENCODED, c.metrics);
    BackfillSettled(b, |b.rules|, c.selections, listed);
  }

  // ---- theorems

  /** Two passes, re-encoding in between, reach a fixed point for every document: a
      third pass returns the second's result. */
  lemma TwoPassesConverge(b: Build, c0: Config, raw: Mentions, c1: Config, c2: Config, c3: Config)
    requires Coherent(b)
    requires Normalizes(b, c0, raw, c1) && Normalizes(b, c1, REENCODED, c2) && Normalizes(b, c2, REENCODED, c3)
    ensures c3 == c2
  {
    SelectionsSettle(b, ChosenSelections(b, c0));
    assert c2.selections == c1.selections == c3.selections;
    ScalarsSettle(b, c1, REENCODED, c2, c3);
    MapSettles(c1.devices, c2.devices, c3.devices);
    MapSettles(c1.instances, c2.instances, c3.instances);
    MetricsClean(b, c0, raw);
    CleanIsFixed(c1.metrics, Whitelist(b));
    MetricsOfClean(b, c1, REENCODED, c1.metrics);
    BackfilledIsFixed(b, c2, c1.metrics);
  }

  // ---- when one pass is enough

  /** The rule leaves the list as it is. */
  predicate Quiet(rule: Rule, sel: seq<Selection>, m: seq<string>) { Apply(rule, sel, m) == m }

  /** A clean list is its own backfill exactly when every rule is quiet on it. */
  lemma {:induction false} QuietMeansFixed(rules: seq<Rule>, i: nat, sel: seq<Selection>, m: seq<string>)
    requires i <= |rules| && forall n :: 0 <= n < i ==> Quiet(rules[n], sel, m)
    ensures Backfill(rules[..i], sel, m) == m
  {
    if i > 0 {
      assert rules[..i][..i - 1] == rules[..i - 1];
      QuietMeansFixed(rules, i - 1, sel, m);
      assert Quiet(rules[i - 1], sel, m);
    }
  }

  lemma FixedMeansQuiet(b: Build, i: nat, sel: seq<Selection>, m: seq<string>)
    requires RulesOk(b) && i < |b.rules| && Clean(m, Whitelist(b)) && Backfill(b.rules, sel, m) == m
    ensures Quiet(b.rules[i], sel, m)
  {
    assert b.rules[..i + 1][..i] == b.rules[..i];
    StaysPut(b, i, sel, m);
    StaysPut(b, i + 1, sel, m);
  }

  lemma StaysPut(b: Build, i: nat, sel: seq<Selection>, m: seq<string>)
    requires RulesOk(b) && i <= |b.rules| && Clean(m, Whitelist(b)) && Backfill(b.rules, sel, m) == m
    ensures Backfill(b.rules[..i], sel, m) == m
  {
    assert b.rules[..|b.rules|] == b.rules;
    BackfillClean(b, i, sel, m);
    BackfillGrows(b, i, |b.rules|, sel, m);
    PrefixAntisymmetric(m, Backfill(b.rules[..i], sel, m));
  }

  lemma PrefixAntisymmetric(a: seq<string>, r: seq<string>)
    requires a <= r && r <= a
    ensures a == r
  {
  }

  /** A rule whose target was enabled before is quiet on what the pass left. */
  lemma OldRuleQuiet(b: Build, i: nat, before: seq<Selection>, sel: seq<Selection>, m: seq<string>)
    requires RulesOk(b) && i < |b.rules| && Clean(m, Whitelist(b))
    requires TargetEnabled(sel, b.rules[i].target) ==> TargetEnabled(before, b.rules[i].target)
    ensures Quiet(b.rules[i], sel, Backfill(b.rules, before, m))
  {
    RuleSettled(b, i, before, m);
  }

  /** What the second pass would still add: rules that are not quiet although their
      target only became enabled when the selections were repaired. */
  predicate Unfinished(b: Build, before: seq<Selection>, after: seq<Selection>, m: seq<string>) {
    m != [] && exists i :: 0 <= i < |b.rules| && !TargetEnabled(before, b.rules[i].target) && !Quiet(b.rules[i], after, m)
  }

  lemma ListedClean(b: Build, c: Config, raw: Mentions)
    ensures Clean(ListedMetrics(b, c, raw), Whitelist(b))
  {
    DedupIsClean(if !raw.metrics && c.metrics == [] then b.defaults.metrics else c.metrics, Whitelist(b));
  }

  lemma SecondPassMetrics(b: Build, before: seq<Selection>, after: seq<Selection>, listed: seq<string>, m: seq<string>)
    requires RulesOk(b) && Clean(listed, Whitelist(b)) && (m == [] || m == Backfill(b.rules, before, listed))
    ensures m == [] || Backfill(b.rules, after, m) == m <==> !Unfinished(b, before, after, m)
  {
    assert b.rules[..|b.rules|] == b.rules;
    BackfillClean(b, |b.rules|, before, listed);
    if m != [] {
      forall i: nat | i < |b.rules| && TargetEnabled(before, b.rules[i].target) ensures Quiet(b.rules[i], after, m) {
        OldRuleQuiet(b, i, before, after, listed);
      }
      if Backfill(b.rules, after, m) == m {
        forall i: nat | i < |b.rules| ensures Quiet(b.rules[i], after, m) {
          FixedMeansQuiet(b, i, after, m);
        }
      } else if !Unfinished(b, before, after, m) {
        QuietMeansFixed(b.rules, |b.rules|, after, m);
      }
    }
  }

  /** A second pass changes nothing exactly when no rule is unfinished on the metrics that
      the first one left. */
  lemma SecondPassIff(b: Build, c0: Config, raw: Mentions, c1: Config, c2: Config)
    requires Coherent(b) && Normalizes(b, c0, raw, c1) && Normalizes(b, c1, REENCODED, c2)
    ensures c2 == c1 <==>
            !Unfinished(b, ChosenSelections(b, c0), NormalSelections(b, ChosenSelections(b, c0)), NormalMetrics(b, c0, raw))
  {
    SelectionsSettle(b, ChosenSelections(b, c0));
    ScalarsSettle(b, c0, raw, c1, c2);
    MapSettles(c0.devices, c1.devices, c2.devices);
    MapSettles(c0.instances, c1.instances, c2.instances);
    ListedClean(b, c0, raw);
    var listed := ListedMetrics(b, c0, raw);
    MetricsOfClean(b, c0, raw, listed);
    MetricsClean(b, c0, raw);
    CleanIsFixed(c1.metrics, Whitelist(b));
    MetricsOfClean(b, c1, REENCODED, c1.metrics);
    SecondPassMetrics(b, ChosenSelections(b, c0), c1.selections, listed, c1.metrics);
  }

  /** One pass suffices for a document whose selections need no repair. */
  lemma OnePassSuffices(b: Build, c0: Config, raw: Mentions, c1: Config, c2: Config)
    requires Coherent(b)
    requires NormalSelections(b, ChosenSelections(b, c0)) == ChosenSelections(b, c0)
    requires Normalizes(b, c0, raw, c1) && Normalizes(b, c1, REENCODED, c2)
    ensures c2 == c1
  {
    SecondPassIff(b, c0, raw, c1, c2);
  }
}
