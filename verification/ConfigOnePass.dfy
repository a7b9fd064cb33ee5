/** When a single migration pass is enough, decided on the document before the pass. */
module ConfigOnePass {
  import opened Text
  import opened AgentConfig
  import opened ConfigConvergence

  predicate Lacks(m: seq<string>, keys: seq<string>) { exists i :: 0 <= i < |keys| && keys[i] !in m }

  /** The rule would add keys to the list if its target were enabled. */
  predicate Wants(rule: Rule, m: seq<string>) {
    match rule.trigger
    case Unless(prefix) => !HasPrefixKey(m, prefix)
    case OnlyIf(prefix) => HasPrefixKey(m, prefix) && Lacks(m, rule.keys)
    case Always => Lacks(m, rule.keys)
  }

  /** No rule holds a key of another rule, or one with the prefix another rule looks for. */
  ghost predicate Separate(rules: seq<Rule>) {
    forall i, j, n :: 0 <= i < |rules| && 0 <= j < |rules| && i != j && 0 <= n < |rules[j].keys| ==>
      && rules[j].keys[n] !in rules[i].keys
      && (!rules[i].trigger.Always? ==> !StartsWith(rules[j].keys[n], rules[i].trigger.prefix))
  }

  lemma AppendsNothingIff(m: seq<string>, keys: seq<string>)
    requires forall i :: 0 <= i < |m| ==> PlainName(m[i])
    ensures AppendMissing(m, keys) == m <==> !Lacks(m, keys)
  {
    AppendMissingGrows(m, keys);
    if !Lacks(m, keys) {
      forall k | k in keys ensures k in m {
      }
    } else {
      var i :| 0 <= i < |keys| && keys[i] !in m;
      assert keys[i] in keys;
    }
  }

  /** A rule changes a clean list exactly when its target is enabled and it wants to. */
  lemma QuietIff(b: Build, rule: Rule, sel: seq<Selection>, m: seq<string>)
    requires RuleOk(b, rule) && Clean(m, Whitelist(b))
    ensures !Quiet(rule, sel, m) <==> TargetEnabled(sel, rule.target) && Wants(rule, m)
  {
    AppendsNothingIff(m, rule.keys);
  }

  /** A key that no enabled rule holds is not added. */
  lemma {:induction false} BackfillOnly(b: Build, n: nat, sel: seq<Selection>, m: seq<string>, k: string)
    requires RulesOk(b) && n <= |b.rules| && Clean(m, Whitelist(b))
    requires forall j :: 0 <= j < n && TargetEnabled(sel, b.rules[j].target) ==> k !in b.rules[j].keys
    ensures k in Backfill(b.rules[..n], sel, m) ==> k in m
  {
    if n > 0 {
      BackfillOnly(b, n - 1, sel, m, k);
      BackfillClean(b, n - 1, sel, m);
      assert b.rules[..n][..n - 1] == b.rules[..n - 1];
      if TargetEnabled(sel, b.rules[n - 1].target) {
        ApplyGrows(b, b.rules[n - 1], sel, Backfill(b.rules[..n - 1], sel, m));
      }
    }
  }

  /** Another rule's key is none of this rule's, and lacks the prefix it looks for. */
  lemma OtherKeys(rules: seq<Rule>, i: nat, j: nat, k: string)
    requires Separate(rules) && i < |rules| && j < |rules| && i != j && k in rules[j].keys && PlainName(k)
    ensures k !in rules[i].keys && (!rules[i].trigger.Always? ==> !KeyHasPrefix(k, rules[i].trigger.prefix))
  {
    var n :| 0 <= n < |rules[j].keys| && rules[j].keys[n] == k;
  }

  /** What concerns a rule whose target is off is not brought in by the others. */
  lemma NotBroughtIn(b: Build, i: nat, sel: seq<Selection>, m: seq<string>, k: string)
    requires RulesOk(b) && Separate(b.rules) && i < |b.rules| && Clean(m, Whitelist(b)) && PlainName(k)
    requires !TargetEnabled(sel, b.rules[i].target) && k in Backfill(b.rules, sel, m)
    requires k in b.rules[i].keys || (!b.rules[i].trigger.Always? && KeyHasPrefix(k, b.rules[i].trigger.prefix))
    ensures k in m
  {
    forall j: nat | j < |b.rules| && TargetEnabled(sel, b.rules[j].target) ensures k !in b.rules[j].keys {
      if k in b.rules[j].keys {
        OtherKeys(b.rules, i, j, k);
      }
    }
    assert b.rules[..|b.rules|] == b.rules;
    BackfillOnly(b, |b.rules|, sel, m, k);
  }

  lemma Grown(b: Build, sel: seq<Selection>, m: seq<string>)
    requires RulesOk(b) && Clean(m, Whitelist(b))
    ensures Clean(Backfill(b.rules, sel, m), Whitelist(b)) && m <= Backfill(b.rules, sel, m)
  {
    assert b.rules[..|b.rules|] == b.rules;
    BackfillClean(b, |b.rules|, sel, m);
  }

  lemma LacksSame(b: Build, i: nat, sel: seq<Selection>, m: seq<string>)
    requires RulesOk(b) && Separate(b.rules) && i < |b.rules| && Clean(m, Whitelist(b))
    requires !TargetEnabled(sel, b.rules[i].target)
    ensures Lacks(Backfill(b.rules, sel, m), b.rules[i].keys) <==> Lacks(m, b.rules[i].keys)
  {
    var end, keys := Backfill(b.rules, sel, m), b.rules[i].keys;
    Grown(b, sel, m);
    PrefixMembers(m, end);
    forall n | 0 <= n < |keys| && keys[n] in end ensures keys[n] in m {
      assert keys[n] in keys && RuleOk(b, b.rules[i]);
      NotBroughtIn(b, i, sel, m, keys[n]);
    }
  }

  lemma PrefixSame(b: Build, i: nat, sel: seq<Selection>, m: seq<string>)
    requires RulesOk(b) && Separate(b.rules) && i < |b.rules| && Clean(m, Whitelist(b))
    requires !TargetEnabled(sel, b.rules[i].target) && !b.rules[i].trigger.Always?
    ensures var p := b.rules[i].trigger.prefix; HasPrefixKey(Backfill(b.rules, sel, m), p) <==> HasPrefixKey(m, p)
  {
    var end, p := Backfill(b.rules, sel, m), b.rules[i].trigger.prefix;
    Grown(b, sel, m);
    if HasPrefixKey(m, p) {
      PrefixMono(m, end, p);
    } else if HasPrefixKey(end, p) {
      var n :| 0 <= n < |end| && KeyHasPrefix(end[n], p);
      NotBroughtIn(b, i, sel, m, end[n]);
      PrefixMember(m, end[n], p);
    }
  }

  /** A rule whose target is off wants the same before and after the others have run. */
  lemma WantsSame(b: Build, i: nat, sel: seq<Selection>, m: seq<string>)
    requires RulesOk(b) && Separate(b.rules) && i < |b.rules| && Clean(m, Whitelist(b))
    requires !TargetEnabled(sel, b.rules[i].target)
    ensures Wants(b.rules[i], Backfill(b.rules, sel, m)) <==> Wants(b.rules[i], m)
  {
    LacksSame(b, i, sel, m);
    if !b.rules[i].trigger.Always? {
      PrefixSame(b, i, sel, m);
    }
  }

  // ---- the condition

  predicate WantsUnder(b: Build, sel: seq<Selection>, m: seq<string>, i: int) {
    0 <= i < |b.rules| && TargetEnabled(sel, b.rules[i].target) && Wants(b.rules[i], m)
  }

  /** The pass leaves some metrics: some are listed, or the document does not mention the
      list and an enabled target brings some. */
  predicate LeavesMetrics(b: Build, before: seq<Selection>, listed: seq<string>, mentioned: bool) {
    listed != [] || (!mentioned && exists i :: 0 <= i < |b.rules| && WantsUnder(b, before, [], i))
  }

  /** Repairing the selections enables a target whose rule wants keys that are not listed. */
  predicate LateTarget(b: Build, before: seq<Selection>, after: seq<Selection>, listed: seq<string>) {
    exists i :: 0 <= i < |b.rules| && WantsUnder(b, after, listed, i) && !TargetEnabled(before, b.rules[i].target)
  }

  lemma BackfillEmptyIff(b: Build, sel: seq<Selection>)
    requires RulesOk(b)
    ensures Backfill(b.rules, sel, []) == [] <==> !exists i :: WantsUnder(b, sel, [], i)
  {
    assert b.rules[..|b.rules|] == b.rules && Clean([], Whitelist(b));
    forall i: nat | i < |b.rules| ensures !Quiet(b.rules[i], sel, []) <==> WantsUnder(b, sel, [], i) {
      QuietIff(b, b.rules[i], sel, []);
    }
    if Backfill(b.rules, sel, []) == [] {
      forall i: nat | i < |b.rules| ensures Quiet(b.rules[i], sel, []) {
        FixedMeansQuiet(b, i, sel, []);
      }
    } else if !exists i :: WantsUnder(b, sel, [], i) {
      QuietMeansFixed(b.rules, |b.rules|, sel, []);
    }
  }

  lemma UnfinishedIff(b: Build, before: seq<Selection>, after: seq<Selection>, listed: seq<string>)
    requires RulesOk(b) && Separate(b.rules) && Clean(listed, Whitelist(b))
    ensures Unfinished(b, before, after, Backfill(b.rules, before, listed)) <==>
            Backfill(b.rules, before, listed) != [] && LateTarget(b, before, after, listed)
  {
    var m := Backfill(b.rules, before, listed);
    Grown(b, before, listed);
    forall i: nat | i < |b.rules| && !TargetEnabled(before, b.rules[i].target)
      ensures !Quiet(b.rules[i], after, m) <==> WantsUnder(b, after, listed, i)
    {
      QuietIff(b, b.rules[i], after, m);
      WantsSame(b, i, before, listed);
    }
  }

  lemma LeavesIff(b: Build, before: seq<Selection>, listed: seq<string>, mentioned: bool)
    requires RulesOk(b) && Clean(listed, Whitelist(b))
    ensures LeavesMetrics(b, before, listed, mentioned) <==>
            !(mentioned && listed == []) && Backfill(b.rules, before, listed) != []
  {
    Grown(b, before, listed);
    BackfillEmptyIff(b, before);
  }

  /** One pass is enough if and only if it leaves no metrics, or repairing the selections
      enables no further target whose rule wants keys that the document does not list. */
  lemma OnePassIff(b: Build, c0: Config, raw: Mentions, c1: Config, c2: Config)
    requires Coherent(b) && Separate(b.rules)
    requires Normalizes(b, c0, raw, c1) && Normalizes(b, c1, REENCODED, c2)
    ensures var before, listed := ChosenSelections(b, c0), ListedMetrics(b, c0, raw);
            c2 == c1 <==>
            !(LeavesMetrics(b, before, listed, raw.metrics) && LateTarget(b, before, NormalSelections(b, before), listed))
  {
    var before, listed := ChosenSelections(b, c0), ListedMetrics(b, c0, raw);
    SecondPassIff(b, c0, raw, c1, c2);
    ListedClean(b, c0, raw);
    MetricsOfClean(b, c0, raw, listed);
    LeavesIff(b, before, listed, raw.metrics);
    UnfinishedIff(b, before, NormalSelections(b, before), listed);
  }
}
