/** The exposure rule engine: sorted two-pass evaluation against an order-free
    meaning of a rule list. */
module ExposureRules {
  import opened Sorting

  /** The capabilities a rule can require and an entry can have. */
  datatype Capability = Streaming | Tools | Vision | Audio | Embeddings | Reasoning

  /** `required` holds the capabilities whose flag is set and true; `denyTags` is
      the parsed tag list. */
  datatype Rule = Rule(
    ruleType: string, pattern: string, modelId: string, required: set<Capability>,
    denyTags: seq<string>, priority: int, enabled: bool)

  datatype Entry = Entry(modelId: string, tags: seq<string>, supports: set<Capability>)

  /** The library functions: glob matching and comparison without regard to case. */
  datatype Matching = Matching(glob: (string, string) -> bool, equalFold: (string, string) -> bool)

  predicate GlobMatch(m: Matching, pattern: string, name: string) {
    pattern != "" && m.glob(pattern, name)
  }

  predicate CapabilityFilterPasses(rule: Rule, entry: Entry) {
    rule.required <= entry.supports
  }

  predicate TagDenied(m: Matching, rule: Rule, entry: Entry) {
    exists i, j :: 0 <= i < |rule.denyTags| && 0 <= j < |entry.tags| && m.equalFold(rule.denyTags[i], entry.tags[j])
  }

  predicate Denies(m: Matching, rule: Rule, entry: Entry) {
    || (rule.ruleType == "deny_pattern" && GlobMatch(m, rule.pattern, entry.modelId))
    || TagDenied(m, rule, entry)
  }

  predicate Allows(m: Matching, rule: Rule, entry: Entry) {
    && (|| (rule.ruleType == "allow_model" && m.equalFold(rule.modelId, entry.modelId))
        || (rule.ruleType == "allow_pattern" && GlobMatch(m, rule.pattern, entry.modelId))
        || rule.ruleType == "capability_filter")
    && CapabilityFilterPasses(rule, entry)
  }

  /** What a rule list means, whatever its order: nothing enabled denies the
      entry and something enabled allows it. */
  ghost predicate Exposed(m: Matching, entry: Entry, rules: seq<Rule>) {
    && (forall r :: r in rules && r.enabled ==> !Denies(m, r, entry))
    && (exists r :: r in rules && r.enabled && Allows(m, r, entry))
  }

  method IsExposed(m: Matching, entry: Entry, rules: seq<Rule>) returns (exposed: bool)
    ensures exposed <==> Exposed(m, entry, rules)
  {
    hide Denies, Allows;
    var sorted := SortBy(rules, (r: Rule) => r.priority);
    SameRules(rules, sorted);
    for k := 0 to |sorted|
      invariant forall i :: 0 <= i < k && sorted[i].enabled ==> !Denies(m, sorted[i], entry)
    {
      var r := sorted[k];
      if r.enabled {
        var denied := EvaluateDeny(m, r, entry);
        if denied {
          assert r in sorted;
          return false;
        }
      }
    }
    for k := 0 to |sorted|
      invariant forall i :: 0 <= i < k && sorted[i].enabled ==> !Allows(m, sorted[i], entry)
    {
      var r := sorted[k];
      if r.enabled && Allows(m, r, entry) {
        assert r in sorted;
        return true;
      }
    }
    return false;
  }

  /** The deny half of one rule: its pattern, then every tag against every tag. */
  method EvaluateDeny(m: Matching, rule: Rule, entry: Entry) returns (denied: bool)
    ensures denied <==> Denies(m, rule, entry)
  {
    if rule.ruleType == "deny_pattern" && GlobMatch(m, rule.pattern, entry.modelId) { return true; }
    for i := 0 to |rule.denyTags|
      invariant forall k, j :: 0 <= k < i && 0 <= j < |entry.tags| ==> !m.equalFold(rule.denyTags[k], entry.tags[j])
    {
      for j := 0 to |entry.tags|
        invariant forall l :: 0 <= l < j ==> !m.equalFold(rule.denyTags[i], entry.tags[l])
      {
        if m.equalFold(rule.denyTags[i], entry.tags[j]) { return true; }
      }
    }
    return false;
  }

  lemma SameRules(rules: seq<Rule>, rules': seq<Rule>)
    requires multiset(rules) == multiset(rules')
    ensures forall r :: r in rules <==> r in rules'
  {
    forall r ensures r in rules <==> r in rules' {
      assert r in rules <==> r in multiset(rules);
      assert r in rules' <==> r in multiset(rules');
    }
  }

  /** Rule order is irrelevant. */
  lemma OrderIsIrrelevant(m: Matching, entry: Entry, rules: seq<Rule>, rules': seq<Rule>)
    requires multiset(rules) == multiset(rules')
    ensures Exposed(m, entry, rules) <==> Exposed(m, entry, rules')
  {
    SameRules(rules, rules');
  }

  /** And so are priorities, although the engine sorts by them. */
  lemma PrioritiesAreIrrelevant(m: Matching, entry: Entry, rules: seq<Rule>, rules': seq<Rule>)
    requires |rules| == |rules'| && forall i :: 0 <= i < |rules| ==> rules'[i] == rules[i].(priority := rules'[i].priority)
    ensures Exposed(m, entry, rules) <==> Exposed(m, entry, rules')
  {
    if Exposed(m, entry, rules) {
      PrioritiesOneWay(m, entry, rules, rules');
    } else if Exposed(m, entry, rules') {
      PrioritiesOneWay(m, entry, rules', rules);
    }
  }

  lemma PrioritiesOneWay(m: Matching, entry: Entry, rules: seq<Rule>, rules': seq<Rule>)
    requires |rules| == |rules'| && forall i :: 0 <= i < |rules| ==> rules'[i] == rules[i].(priority := rules'[i].priority)
    requires Exposed(m, entry, rules)
    ensures Exposed(m, entry, rules')
  {
    forall r | r in rules' && r.enabled ensures !Denies(m, r, entry) {
      var i :| 0 <= i < |rules'| && rules'[i] == r;
      assert rules[i] in rules && !Denies(m, rules[i], entry);
    }
    var r :| r in rules && r.enabled && Allows(m, r, entry);
    var i :| 0 <= i < |rules| && rules[i] == r;
    assert rules'[i] in rules' && Allows(m, rules'[i], entry);
  }

  /** What one enabled rule without deny tags does on its own, type by type. */
  lemma SingleRuleMeaning(m: Matching, entry: Entry, rule: Rule)
    requires rule.enabled && rule.denyTags == []
    ensures Exposed(m, entry, [rule]) <==>
      && (forall c :: c in rule.required ==> c in entry.supports)
      && (|| (rule.ruleType == "allow_model" && m.equalFold(rule.modelId, entry.modelId))
          || (rule.ruleType == "allow_pattern" && rule.pattern != "" && m.glob(rule.pattern, entry.modelId))
          || rule.ruleType == "capability_filter")
  {
    assert rule in [rule];
  }

  /** One matching deny rule or deny tag outweighs all other rules. */
  lemma DenyWins(m: Matching, entry: Entry, rules: seq<Rule>, rule: Rule)
    requires rule in rules && rule.enabled
    requires (rule.ruleType == "deny_pattern" && rule.pattern != "" && m.glob(rule.pattern, entry.modelId))
      || exists t, u :: t in rule.denyTags && u in entry.tags && m.equalFold(t, u)
    ensures !Exposed(m, entry, rules)
  {
    if exists t, u :: t in rule.denyTags && u in entry.tags && m.equalFold(t, u) {
      var t, u :| t in rule.denyTags && u in entry.tags && m.equalFold(t, u);
      var i :| 0 <= i < |rule.denyTags| && rule.denyTags[i] == t;
      var j :| 0 <= j < |entry.tags| && entry.tags[j] == u;
      assert m.equalFold(rule.denyTags[i], entry.tags[j]);
    }
    assert Denies(m, rule, entry);
  }

  /** And a rule with no matching deny pattern or tag hides nothing. */
  lemma UnmatchedRuleHidesNothing(m: Matching, entry: Entry, rules: seq<Rule>, rule: Rule)
    requires rule.ruleType != "deny_pattern" || rule.pattern == "" || !m.glob(rule.pattern, entry.modelId)
    requires forall t, u :: t in rule.denyTags && u in entry.tags ==> !m.equalFold(t, u)
    requires Exposed(m, entry, rules)
    ensures Exposed(m, entry, rules + [rule])
  {
    AddingARule(m, entry, rules, rule);
  }

  /** Disabled rules do not count, and without rules nothing is exposed. */
  lemma DisabledRulesAreIgnored(m: Matching, entry: Entry, rules: seq<Rule>, rule: Rule)
    requires !rule.enabled
    ensures Exposed(m, entry, rules + [rule]) <==> Exposed(m, entry, rules)
    ensures !Exposed(m, entry, [])
  {
    hide Denies, Allows;
    if Exposed(m, entry, rules) {
      var r :| r in rules && r.enabled && Allows(m, r, entry);
      assert r in rules + [rule];
    }
    if Exposed(m, entry, rules + [rule]) {
      var r :| r in rules + [rule] && r.enabled && Allows(m, r, entry);
      assert r in rules;
      forall q | q in rules && q.enabled ensures !Denies(m, q, entry) { assert q in rules + [rule]; }
    }
  }

  /** A capability more never hides an entry. */
  lemma MoreCapabilitiesNeverHide(m: Matching, entry: Entry, more: Entry, rules: seq<Rule>)
    requires more.modelId == entry.modelId && entry.supports <= more.supports && more.tags == entry.tags
    requires Exposed(m, entry, rules)
    ensures Exposed(m, more, rules)
  {
    forall r | r in rules && r.enabled ensures !Denies(m, r, more) {
      assert !Denies(m, r, entry);
    }
    var r :| r in rules && r.enabled && Allows(m, r, entry);
    assert Allows(m, r, more);
  }

  /** A rule that denies can only take exposure away, and one that denies nothing
      can only add to it. */
  lemma AddingARule(m: Matching, entry: Entry, rules: seq<Rule>, rule: Rule)
    ensures rule.ruleType == "deny_pattern" && Exposed(m, entry, rules + [rule]) ==> Exposed(m, entry, rules)
    ensures !Denies(m, rule, entry) && Exposed(m, entry, rules) ==> Exposed(m, entry, rules + [rule])
  {
  }
}
