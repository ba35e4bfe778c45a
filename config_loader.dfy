/** The configuration loader: the built-in defaults, the merge of a user document over
    them (the user's settings win, missing sections and keys are filled in), and the
    clamping of CPU thresholds and day counts into range. */
module ConfigLoader {
  import opened Common
  import opened Values

  /** One section of the configuration: setting names to values. */
  type Section = map<string, Value>

  /** A configuration document: section names to values, which are normally mappings. */
  type Config = map<string, Value>

  // ---------------------------------------------------------------- defaults

  const Ec2Defaults: Section := map[
    "cpu_threshold" := Int(5),
    "days_to_check" := Int(14),
    "minimum_runtime_hours" := Int(24),
    "exclude_instance_types" := List([Text("t2.nano"), Text("t3.nano")]),
    "exclude_tags" := List([])
  ]

  const RdsDefaults: Section := map[
    "cpu_threshold" := Int(10),
    "connection_threshold" := Int(5),
    "days_to_check" := Int(14),
    "exclude_engines" := List([]),
    "minimum_age_days" := Int(7)
  ]

  const EbsDefaults: Section := map[
    "days_to_check" := Int(7),
    "iops_threshold" := Int(1),
    "exclude_tags" := List([]),
    "include_volume_types" := List([Text("gp2"), Text("gp3"), Text("io1"), Text("io2")])
  ]

  const CostCalculationDefaults: Section := map[
    "pricing_region" := Text("us-east-1"),
    "include_data_transfer" := Bool(false),
    "currency" := Text("USD")
  ]

  const ReportingDefaults: Section := map[
    "include_recommendations" := Bool(true),
    "group_by_service" := Bool(true),
    "include_cost_breakdown" := Bool(true),
    "max_findings" := Int(0)
  ]

  /** The default sections, in the order the merge visits them. */
  const SectionOrder: seq<string> := ["ec2", "rds", "ebs", "cost_calculation", "reporting"]

  /** The default settings of each section. */
  const Defaults: map<string, Section> := map[
    "ec2" := Ec2Defaults,
    "rds" := RdsDefaults,
    "ebs" := EbsDefaults,
    "cost_calculation" := CostCalculationDefaults,
    "reporting" := ReportingDefaults
  ]

  /** The merge visits every default section exactly once. */
  lemma SectionOrderCoversDefaults()
    ensures forall s :: s in SectionOrder <==> s in Defaults
    ensures forall i, j :: 0 <= i < j < |SectionOrder| ==> SectionOrder[i] != SectionOrder[j]
  {
  }

  /** `_get_default_config`: the five sections, each a mapping of its defaults. */
  function GetDefaultConfig(): (c: Config)
    ensures c.Keys == Defaults.Keys
  {
    map[
      "ec2" := Dict(Ec2Defaults),
      "rds" := Dict(RdsDefaults),
      "ebs" := Dict(EbsDefaults),
      "cost_calculation" := Dict(CostCalculationDefaults),
      "reporting" := Dict(ReportingDefaults)
    ]
  }

  /** The default document has the five sections of the merge order, each a mapping. */
  lemma DefaultSections()
    ensures forall s :: s in GetDefaultConfig() <==> s in SectionOrder
    ensures forall s :: s in GetDefaultConfig() ==> GetDefaultConfig()[s].Dict?
  {
    SectionOrderCoversDefaults();
    DefaultConfigIsLoaders();
  }

  /** The default CPU thresholds are 5 for ec2 and 10 for rds. */
  lemma DefaultCpuThresholds()
    ensures var c := GetDefaultConfig();
      && "ec2" in c && c["ec2"].Dict? && "cpu_threshold" in c["ec2"].entries
      && c["ec2"].entries["cpu_threshold"] == Int(5)
    ensures var c := GetDefaultConfig();
      && "rds" in c && c["rds"].Dict? && "cpu_threshold" in c["rds"].entries
      && c["rds"].entries["cpu_threshold"] == Int(10)
  {
  }

  // ---------------------------------------------------------------- errors

  /** Why validation raises. */
  datatype ConfigError =
    /** A section the code looks into with `in` or `.get` is not a mapping. */
    | SectionNotMapping(section: string)
    /** A threshold compared with a number is not a number. */
    | NotANumber(section: string, key: string)

  // ---------------------------------------------------------------- clamping rules

  /** One check of `_validate_thresholds`: the setting `key` of `section`, read with
      `default` when missing, is set to `high` when above it and to `low` (if there is one)
      when below it. */
  datatype Rule = Rule(section: string, key: string, default: int, low: Option<int>, high: int)

  /** The CPU threshold check: at most 100, no lower bound. */
  function CpuRule(section: string): Rule { Rule(section, "cpu_threshold", 0, None, 100) }

  /** The day-count check: between 1 and 90. */
  function DaysRule(section: string): Rule { Rule(section, "days_to_check", 14, Some(1), 90) }

  /** The sections whose day counts are checked, in order. */
  const DaySections: seq<string> := ["ec2", "rds", "ebs"]

  /** The checks of `_validate_thresholds`, in the order it runs them. */
  const ThresholdRules: seq<Rule> := [CpuRule("ec2"), CpuRule("rds"), DaysRule("ec2"), DaysRule("rds"), DaysRule("ebs")]

  /** `x` passes the rule's checks unchanged. */
  predicate InRange(r: Rule, x: real) {
    x <= r.high as real && (r.low.Some? ==> r.low.value as real <= x)
  }

  /** A rule whose bounds are consistent and whose default passes it. */
  predicate WellFormedRule(r: Rule) {
    (r.low.Some? ==> r.low.value <= r.high) && InRange(r, r.default as real)
  }

  /** No two rules check the same setting. */
  predicate DistinctTargets(rules: seq<Rule>) {
    forall i, j :: 0 <= i < j < |rules| ==> rules[i].section != rules[j].section || rules[i].key != rules[j].key
  }

  /** Some rule checks setting `key` of `section`. */
  predicate Targeted(rules: seq<Rule>, section: string, key: string) {
    exists i :: 0 <= i < |rules| && rules[i].section == section && rules[i].key == key
  }

  /** Some rule checks a setting of `section`. */
  predicate RuleSection(rules: seq<Rule>, section: string) {
    exists i :: 0 <= i < |rules| && rules[i].section == section
  }

  lemma ThresholdRulesWellFormed()
    ensures forall i :: 0 <= i < |ThresholdRules| ==> WellFormedRule(ThresholdRules[i])
    ensures DistinctTargets(ThresholdRules)
    ensures forall i :: 0 <= i < |ThresholdRules| ==>
      ThresholdRules[i].section in Defaults && ThresholdRules[i].key in Defaults[ThresholdRules[i].section]
  {
    DefaultsBySection();
    assert "cpu_threshold" in Ec2Defaults && "days_to_check" in Ec2Defaults;
    assert "cpu_threshold" in RdsDefaults && "days_to_check" in RdsDefaults;
    assert "days_to_check" in EbsDefaults;
  }

  /** The default value of every checked setting is a number the check leaves alone. */
  lemma DefaultThresholdsSettled()
    ensures forall i :: 0 <= i < |ThresholdRules| ==>
      var r := ThresholdRules[i];
      r.section in Defaults && r.key in Defaults[r.section]
      && NumberOf(Defaults[r.section][r.key]).Some? && InRange(r, NumberOf(Defaults[r.section][r.key]).value)
  {
    DefaultsBySection();
    assert Ec2Defaults["cpu_threshold"] == Int(5) && Ec2Defaults["days_to_check"] == Int(14);
    assert RdsDefaults["cpu_threshold"] == Int(10) && RdsDefaults["days_to_check"] == Int(14);
    assert EbsDefaults["days_to_check"] == Int(7);
  }

  /** The defaults table lists the five sections under their names. */
  lemma DefaultsBySection()
    ensures "ec2" in Defaults && Defaults["ec2"] == Ec2Defaults
    ensures "rds" in Defaults && Defaults["rds"] == RdsDefaults
    ensures "ebs" in Defaults && Defaults["ebs"] == EbsDefaults
  {
  }

  /** A value as the rule leaves it: above `high` becomes `high`, below `low` becomes
      `low`, anything else, including a value that is not a number, is kept. */
  function Clamp(r: Rule, v: Value): (w: Value)
    requires WellFormedRule(r)
    ensures NumberOf(v).Some? ==> NumberOf(w).Some? && InRange(r, NumberOf(w).value)
    ensures NumberOf(v).Some? && InRange(r, NumberOf(v).value) ==> w == v
    ensures NumberOf(v).None? ==> w == v
  {
    match NumberOf(v)
    case None => v
    case Some(x) =>
      if x > r.high as real then Int(r.high)
      else if r.low.Some? && x < r.low.value as real then Int(r.low.value)
      else v
  }

  /** The rule can run on `c` without raising: its section is absent, or is a mapping whose
      setting, if present, is a number. */
  predicate Applicable(c: Config, r: Rule) {
    r.section in c ==>
      c[r.section].Dict? && (r.key in c[r.section].entries ==> NumberOf(c[r.section].entries[r.key]).Some?)
  }

  /** One check of `_validate_thresholds`. An absent section is read as a fresh empty
      mapping, so nothing is written back; a section that is not a mapping makes `.get`
      raise; a setting that is not a number makes the comparison raise. */
  function ApplyRule(c: Config, r: Rule): (res: Result<Config, ConfigError>)
    ensures res.Ok? <==> Applicable(c, r)
  {
    if r.section !in c then Ok(c)
    else match c[r.section]
      case Dict(entries) =>
        var current := if r.key in entries then entries[r.key] else Int(r.default);
        (match NumberOf(current)
         case None => Err(NotANumber(r.section, r.key))
         case Some(x) =>
           if x > r.high as real then Ok(c[r.section := Dict(entries[r.key := Int(r.high)])])
           else if r.low.Some? && x < r.low.value as real then Ok(c[r.section := Dict(entries[r.key := Int(r.low.value)])])
           else Ok(c))
      case _ => Err(SectionNotMapping(r.section))
  }

  /** The rules run in order; the first that raises ends the run. */
  function ApplyRules(c: Config, rules: seq<Rule>): Result<Config, ConfigError>
    decreases |rules|
  {
    if rules == [] then Ok(c)
    else match ApplyRule(c, rules[0])
      case Err(e) => Err(e)
      case Ok(c1) => ApplyRules(c1, rules[1..])
  }

  /** Running `a` then `b` is running `a + b`. */
  lemma {:induction false} ApplyRulesAppend(c: Config, a: seq<Rule>, b: seq<Rule>)
    ensures ApplyRules(c, a + b) == match ApplyRules(c, a) case Err(e) => Err(e) case Ok(c1) => ApplyRules(c1, b)
    decreases |a|
  {
    if a != [] {
      assert (a + b)[0] == a[0];
      assert (a + b)[1..] == a[1..] + b;
      match ApplyRule(c, a[0])
      case Err(_) =>
      case Ok(c1) => ApplyRulesAppend(c1, a[1..], b);
    } else {
      assert a + b == b;
    }
  }

  /** How a run of `rules` leaves the value of setting `key` of `section`: the first rule
      checking it clamps it; with no such rule it is kept. */
  function AdjustValue(rules: seq<Rule>, section: string, key: string, v: Value): Value
    requires forall i :: 0 <= i < |rules| ==> WellFormedRule(rules[i])
  {
    if rules == [] then v
    else if rules[0].section == section && rules[0].key == key then Clamp(rules[0], v)
    else AdjustValue(rules[1..], section, key, v)
  }

  /** A setting no rule checks is kept. */
  lemma {:induction false} AdjustUntargeted(rules: seq<Rule>, section: string, key: string, v: Value)
    requires forall i :: 0 <= i < |rules| ==> WellFormedRule(rules[i])
    requires !Targeted(rules, section, key)
    ensures AdjustValue(rules, section, key, v) == v
    decreases |rules|
  {
    if rules != [] {
      assert rules[0].section != section || rules[0].key != key;
      assert !Targeted(rules[1..], section, key);
      AdjustUntargeted(rules[1..], section, key, v);
    }
  }

  /** The setting checked by rule `i` is clamped by that rule. */
  lemma {:induction false} AdjustTargeted(rules: seq<Rule>, i: int, v: Value)
    requires forall j :: 0 <= j < |rules| ==> WellFormedRule(rules[j])
    requires DistinctTargets(rules) && 0 <= i < |rules|
    ensures AdjustValue(rules, rules[i].section, rules[i].key, v) == Clamp(rules[i], v)
    decreases |rules|
  {
    if i > 0 {
      assert rules[0].section != rules[i].section || rules[0].key != rules[i].key;
      assert rules[1..][i - 1] == rules[i];
      AdjustTargeted(rules[1..], i - 1, v);
    }
  }

  /** What a run that raises nothing leaves behind: the same sections; sections no rule
      looks at unchanged; sections a rule looks at still mappings with the same keys, each
      setting adjusted by the rule that checks it. */
  predicate Frame(c: Config, c2: Config, rules: seq<Rule>)
    requires forall i :: 0 <= i < |rules| ==> WellFormedRule(rules[i])
  {
    && c2.Keys == c.Keys
    && (forall s :: s in c && !RuleSection(rules, s) ==> c2[s] == c[s])
    && (forall s :: s in c && RuleSection(rules, s) ==>
          c[s].Dict? && c2[s].Dict? && c2[s].entries.Keys == c[s].entries.Keys)
    && (forall s, k :: s in c && RuleSection(rules, s) && c[s].Dict? && k in c[s].entries ==>
          c2[s].Dict? && c2[s].entries[k] == AdjustValue(rules, s, k, c[s].entries[k]))
  }

  /** One rule that raises nothing leaves the frame of that rule. */
  lemma ApplyRuleEffect(c: Config, r: Rule)
    requires WellFormedRule(r) && Applicable(c, r)
    ensures Frame(c, ApplyRule(c, r).value, [r])
  {
    var c2 := ApplyRule(c, r).value;
    assert [r][0].section == r.section;
    assert RuleSection([r], r.section);
    forall s | s in c && RuleSection([r], s)
      ensures c[s].Dict? && c2[s].Dict? && c2[s].entries.Keys == c[s].entries.Keys
    {
      assert s == r.section;
    }
    forall s, k | s in c && RuleSection([r], s) && c[s].Dict? && k in c[s].entries
      ensures c2[s].Dict? && c2[s].entries[k] == AdjustValue([r], s, k, c[s].entries[k])
    {
      assert s == r.section;
    }
  }

  /** A rule that raises nothing does not change whether a rule checking another
      setting can run. */
  lemma FrameKeepsApplicable(c: Config, c1: Config, r: Rule, q: Rule)
    requires WellFormedRule(r) && Frame(c, c1, [r])
    requires q.section != r.section || q.key != r.key
    ensures Applicable(c1, q) <==> Applicable(c, q)
  {
    if q.section in c {
      if q.section == r.section {
        assert [r][0].section == q.section;
        assert RuleSection([r], q.section);
        if c[q.section].Dict? && q.key in c[q.section].entries {
          assert c1[q.section].entries[q.key] == AdjustValue([r], q.section, q.key, c[q.section].entries[q.key]);
        }
      } else {
        assert !RuleSection([r], q.section);
      }
    }
  }

  /** A rule's frame followed by the frame of the rules after it is the frame of them all. */
  lemma FrameCompose(c: Config, c1: Config, c2: Config, rules: seq<Rule>)
    requires forall i :: 0 <= i < |rules| ==> WellFormedRule(rules[i])
    requires DistinctTargets(rules) && rules != []
    requires Frame(c, c1, [rules[0]]) && Frame(c1, c2, rules[1..])
    ensures Frame(c, c2, rules)
  {
    var r := rules[0];
    var rest := rules[1..];
    forall s | s in c && !RuleSection(rules, s)
      ensures c2[s] == c[s]
    {
      FramedSectionSkipped(rules, s);
    }
    forall s | s in c && RuleSection(rules, s)
      ensures c[s].Dict? && c2[s].Dict? && c2[s].entries.Keys == c[s].entries.Keys
    {
      FramedSectionCases(rules, s);
      if !RuleSection([r], s) { assert c1[s] == c[s]; }
      if !RuleSection(rest, s) { assert c2[s] == c1[s]; }
    }
    forall s, k | s in c && RuleSection(rules, s) && c[s].Dict? && k in c[s].entries
      ensures c2[s].Dict? && c2[s].entries[k] == AdjustValue(rules, s, k, c[s].entries[k])
    {
      FrameComposeSetting(c, c1, c2, rules, s, k);
    }
  }

  /** A section no rule of `rules` looks at is looked at neither by the first nor by the rest. */
  lemma FramedSectionSkipped(rules: seq<Rule>, s: string)
    requires rules != [] && !RuleSection(rules, s)
    ensures !RuleSection([rules[0]], s) && !RuleSection(rules[1..], s)
  {
  }

  /** A section some rule of `rules` looks at is looked at by the first or by the rest. */
  lemma FramedSectionCases(rules: seq<Rule>, s: string)
    requires rules != [] && RuleSection(rules, s)
    ensures RuleSection([rules[0]], s) || RuleSection(rules[1..], s)
  {
    var i :| 0 <= i < |rules| && rules[i].section == s;
    if i == 0 {
      assert [rules[0]][0].section == s;
    } else {
      assert rules[1..][i - 1].section == s;
    }
  }

  /** A setting of a mapping section, read through one frame. */
  lemma FrameSetting(c: Config, c1: Config, rules: seq<Rule>, s: string, k: string)
    requires forall i :: 0 <= i < |rules| ==> WellFormedRule(rules[i])
    requires Frame(c, c1, rules)
    requires s in c && c[s].Dict? && k in c[s].entries
    ensures c1[s].Dict? && k in c1[s].entries && c1[s].entries[k] == AdjustValue(rules, s, k, c[s].entries[k])
  {
    if !RuleSection(rules, s) {
      assert c1[s] == c[s];
      AdjustUntargeted(rules, s, k, c[s].entries[k]);
    }
  }

  /** Adjusting by the first rule and then by the rest is adjusting by them all. */
  lemma AdjustFirstThenRest(rules: seq<Rule>, s: string, k: string, v: Value)
    requires forall i :: 0 <= i < |rules| ==> WellFormedRule(rules[i])
    requires DistinctTargets(rules) && rules != []
    ensures AdjustValue(rules, s, k, v) == AdjustValue(rules[1..], s, k, AdjustValue([rules[0]], s, k, v))
  {
    var r := rules[0];
    if r.section == s && r.key == k {
      RestOfRules(rules);
      AdjustUntargeted(rules[1..], s, k, Clamp(r, v));
    }
  }

  /** One setting through the composed frames. */
  lemma FrameComposeSetting(c: Config, c1: Config, c2: Config, rules: seq<Rule>, s: string, k: string)
    requires forall i :: 0 <= i < |rules| ==> WellFormedRule(rules[i])
    requires DistinctTargets(rules) && rules != []
    requires Frame(c, c1, [rules[0]]) && Frame(c1, c2, rules[1..])
    requires s in c && c[s].Dict? && k in c[s].entries
    ensures c2[s].Dict? && c2[s].entries[k] == AdjustValue(rules, s, k, c[s].entries[k])
  {
    FrameSetting(c, c1, [rules[0]], s, k);
    FrameSetting(c1, c2, rules[1..], s, k);
    AdjustFirstThenRest(rules, s, k, c[s].entries[k]);
  }

  /** The rules after the first are distinct and well-formed too. */
  lemma RestOfRules(rules: seq<Rule>)
    requires forall i :: 0 <= i < |rules| ==> WellFormedRule(rules[i])
    requires DistinctTargets(rules) && rules != []
    ensures forall i :: 0 <= i < |rules[1..]| ==> WellFormedRule(rules[1..][i])
    ensures DistinctTargets(rules[1..])
    ensures forall i :: 0 <= i < |rules[1..]| ==>
      rules[1..][i].section != rules[0].section || rules[1..][i].key != rules[0].key
  {
    assert forall i :: 0 <= i < |rules[1..]| ==> rules[1..][i] == rules[i + 1];
  }

  /** A run of distinct, well-formed rules raises nothing exactly when each rule can run on
      the original document, and then leaves the frame of all of them. */
  lemma {:induction false} ApplyRulesEffect(c: Config, rules: seq<Rule>)
    requires forall i :: 0 <= i < |rules| ==> WellFormedRule(rules[i])
    requires DistinctTargets(rules)
    ensures ApplyRules(c, rules).Ok? <==> forall i :: 0 <= i < |rules| ==> Applicable(c, rules[i])
    ensures ApplyRules(c, rules).Ok? ==> Frame(c, ApplyRules(c, rules).value, rules)
    decreases |rules|
  {
    if rules == [] {
      return;
    }
    var r := rules[0];
    var rest := rules[1..];
    RestOfRules(rules);
    if !Applicable(c, r) {
      return;
    }
    ApplyRuleEffect(c, r);
    var c1 := ApplyRule(c, r).value;
    ApplyRulesEffect(c1, rest);
    forall i | 0 <= i < |rest|
      ensures Applicable(c1, rest[i]) <==> Applicable(c, rest[i])
    {
      FrameKeepsApplicable(c, c1, r, rest[i]);
    }
    assert (forall i :: 0 <= i < |rules| ==> Applicable(c, rules[i]))
       <==> (forall i :: 0 <= i < |rest| ==> Applicable(c, rest[i])) by {
      assert forall i :: 0 <= i < |rest| ==> rest[i] == rules[i + 1];
      if forall i :: 0 <= i < |rest| ==> Applicable(c, rest[i]) {
        forall i | 0 <= i < |rules| ensures Applicable(c, rules[i]) {
          if i > 0 { assert rules[i] == rest[i - 1]; }
        }
      }
    }
    if ApplyRules(c1, rest).Ok? {
      FrameCompose(c, c1, ApplyRules(c1, rest).value, rules);
    }
  }

  /** Every checked setting of `c` is a number within its bounds, in a section that is a
      mapping. */
  predicate Settled(c: Config, rules: seq<Rule>) {
    forall i :: 0 <= i < |rules| && rules[i].section in c ==>
      c[rules[i].section].Dict?
      && (rules[i].key in c[rules[i].section].entries ==>
            NumberOf(c[rules[i].section].entries[rules[i].key]).Some?
            && InRange(rules[i], NumberOf(c[rules[i].section].entries[rules[i].key]).value))
  }

  /** Rules change nothing in a document whose checked settings are already in range. */
  lemma SettledUnchanged(c: Config, rules: seq<Rule>)
    requires forall i :: 0 <= i < |rules| ==> WellFormedRule(rules[i])
    requires DistinctTargets(rules) && Settled(c, rules)
    ensures ApplyRules(c, rules) == Ok(c)
  {
    ApplyRulesEffect(c, rules);
    var c2 := ApplyRules(c, rules).value;
    forall s | s in c
      ensures c2[s] == c[s]
    {
      if RuleSection(rules, s) {
        forall k | k in c[s].entries
          ensures c2[s].entries[k] == c[s].entries[k]
        {
          var v := c[s].entries[k];
          if Targeted(rules, s, k) {
            var i :| 0 <= i < |rules| && rules[i].section == s && rules[i].key == k;
            AdjustTargeted(rules, i, v);
          } else {
            AdjustUntargeted(rules, s, k, v);
          }
        }
        assert c2[s].entries == c[s].entries;
      }
    }
    assert c2 == c;
  }


  // ---------------------------------------------------------------- the loader's tables

  /** What the loader works from: the default sections in the order the merge visits
      them, their default settings, and the threshold checks in the order they run. The
      merge and the checks are stated over any such tables; `Loader` holds the real ones. */
  datatype Schema = Schema(order: seq<string>, defaults: map<string, Section>, rules: seq<Rule>)

  /** Tables the merge and the checks can rely on: the order lists each default section
      once, the checks are well-formed and distinct, and each checks a default setting
      whose default it leaves alone. */
  ghost predicate ValidSchema(sc: Schema) {
    && (forall s :: s in sc.order <==> s in sc.defaults)
    && (forall i :: 0 <= i < |sc.rules| ==> WellFormedRule(sc.rules[i]))
    && DistinctTargets(sc.rules)
    && forall i :: 0 <= i < |sc.rules| ==>
         var r := sc.rules[i];
         r.section in sc.defaults && r.key in sc.defaults[r.section]
         && NumberOf(sc.defaults[r.section][r.key]).Some?
         && InRange(r, NumberOf(sc.defaults[r.section][r.key]).value)
  }

  /** The tables of `_get_default_config` and `_validate_thresholds`. */
  const Loader: Schema := Schema(SectionOrder, Defaults, ThresholdRules)

  lemma LoaderIsValid()
    ensures ValidSchema(Loader)
  {
    SectionOrderCoversDefaults();
    ThresholdRulesWellFormed();
    DefaultThresholdsSettled();
  }

  /** The configuration holding exactly the default sections, each a mapping of its
      defaults. */
  function DefaultConfigOf(sc: Schema): Config {
    map s | s in sc.defaults :: Dict(sc.defaults[s])
  }

  lemma DefaultConfigIsLoaders()
    ensures DefaultConfigOf(Loader) == GetDefaultConfig()
  {
  }

  // ---------------------------------------------------------------- merge

  /** Section `s` is present but is not a mapping, so looking keys up in it raises. */
  predicate Bad(config: Config, s: string) {
    s in config && !config[s].Dict?
  }

  /** Every default section the document has is a mapping. */
  predicate SectionsAreMappings(sc: Schema, config: Config) {
    forall i :: 0 <= i < |sc.order| ==> !Bad(config, sc.order[i])
  }

  /** The first of `names` that is a bad section, if any. */
  function FirstBadSection(config: Config, names: seq<string>): (bad: Option<string>)
    ensures bad.None? <==> forall i :: 0 <= i < |names| ==> !Bad(config, names[i])
    ensures bad.Some? ==> exists i :: 0 <= i < |names| && names[i] == bad.value && Bad(config, names[i])
                                      && forall j :: 0 <= j < i ==> !Bad(config, names[j])
  {
    if names == [] then None
    else if Bad(config, names[0]) then Some(names[0])
    else
      var rest := FirstBadSection(config, names[1..]);
      assert forall i :: 1 <= i < |names| ==> names[i] == names[1..][i - 1];
      rest
  }

  /** A bad section preceded only by good ones is the one `FirstBadSection` reports. */
  lemma FirstBadIsFirst(config: Config, names: seq<string>, i: int)
    requires 0 <= i < |names| && Bad(config, names[i])
    requires forall j :: 0 <= j < i ==> !Bad(config, names[j])
    ensures FirstBadSection(config, names) == Some(names[i])
  {
    var bad := FirstBadSection(config, names);
    var k :| 0 <= k < |names| && names[k] == bad.value && Bad(config, names[k])
             && forall j :: 0 <= j < k ==> !Bad(config, names[j]);
    assert k == i;
  }

  /** The user's entries of section `s`; none if the section is absent or not a mapping. */
  function UserSection(config: Config, s: string): Section {
    if s in config && config[s].Dict? then config[s].entries else map[]
  }

  /** Default section `s` after the merge: the defaults overlaid with the user's entries. */
  function MergedSection(sc: Schema, config: Config, s: string): Value
    requires s in sc.defaults
  {
    if s !in config then Dict(sc.defaults[s])
    else match config[s]
      case Dict(entries) => Dict(sc.defaults[s] + entries)
      case other => other
  }

  /** A default section that is not bad merges to its defaults overlaid with the user's
      entries. */
  lemma MergedSectionOverlays(sc: Schema, config: Config, s: string)
    requires s in sc.defaults && !Bad(config, s)
    ensures MergedSection(sc, config, s) == Dict(sc.defaults[s] + UserSection(config, s))
  {
    if s !in config {
      assert sc.defaults[s] + map[] == sc.defaults[s];
    }
  }

  /** The document after the sections `names` have been merged with their defaults, one
      after another; a name the defaults lack is skipped. */
  function MergeSections(sc: Schema, config: Config, names: seq<string>): Config
    decreases |names|
  {
    if names == [] then config
    else
      var c := MergeSections(sc, config, names[..|names| - 1]);
      var s := names[|names| - 1];
      if s in sc.defaults then c[s := MergedSection(sc, c, s)] else c
  }

  /** The merged document has the document's sections and the merged default sections. */
  lemma {:induction false} MergeSectionsKeys(sc: Schema, config: Config, names: seq<string>, s: string)
    ensures s in MergeSections(sc, config, names) <==> s in config || (s in names && s in sc.defaults)
    decreases |names|
  {
    if names != [] {
      var init := names[..|names| - 1];
      MergeSectionsKeys(sc, config, init, s);
      assert names == init + [names[|names| - 1]];
    }
  }

  /** A section not merged is kept as the user wrote it. */
  lemma {:induction false} MergeSectionsUntouched(sc: Schema, config: Config, names: seq<string>, s: string)
    requires s !in names || s !in sc.defaults
    ensures s in MergeSections(sc, config, names) <==> s in config
    ensures s in config ==> MergeSections(sc, config, names)[s] == config[s]
    decreases |names|
  {
    if names != [] {
      var init := names[..|names| - 1];
      assert names == init + [names[|names| - 1]];
      MergeSectionsUntouched(sc, config, init, s);
    }
  }

  /** Merging a section that was merged already changes nothing. */
  lemma MergedSectionTwice(sc: Schema, config: Config, c: Config, s: string)
    requires s in sc.defaults && s in c && c[s] == MergedSection(sc, config, s)
    ensures MergedSection(sc, c, s) == MergedSection(sc, config, s)
  {
    if c[s].Dict? {
      assert sc.defaults[s].Keys <= c[s].entries.Keys;
      assert sc.defaults[s] + c[s].entries == c[s].entries;
    }
  }

  /** A merged section is its defaults overlaid with the user's entries, however often its
      name occurs. */
  lemma {:induction false} MergeSectionsMerged(sc: Schema, config: Config, names: seq<string>, s: string)
    requires s in names && s in sc.defaults
    ensures s in MergeSections(sc, config, names)
    ensures MergeSections(sc, config, names)[s] == MergedSection(sc, config, s)
    decreases |names|
  {
    var init := names[..|names| - 1];
    var c := MergeSections(sc, config, init);
    assert names == init + [names[|names| - 1]];
    if names[|names| - 1] == s {
      if s in init {
        MergeSectionsMerged(sc, config, init, s);
        MergedSectionTwice(sc, config, c, s);
      } else {
        MergeSectionsUntouched(sc, config, init, s);
        assert MergedSection(sc, c, s) == MergedSection(sc, config, s);
      }
    } else {
      MergeSectionsMerged(sc, config, init, s);
    }
  }

  /** The merge loop of `_validate_config`: every default section raises if it is present
      and not a mapping (the first such in the merge order is reported), and is otherwise
      filled in with the defaults the user left out. */
  function Merged(sc: Schema, config: Config): (r: Result<Config, ConfigError>)
    ensures r.Ok? <==> SectionsAreMappings(sc, config)
    ensures r.Err? ==> r.error.SectionNotMapping? && Bad(config, r.error.section)
  {
    match FirstBadSection(config, sc.order)
    case Some(s) => Err(SectionNotMapping(s))
    case None => Ok(MergeSections(sc, config, sc.order))
  }

  /** After the merge the document has its own sections and every default section. */
  lemma MergedSections(sc: Schema, config: Config)
    requires ValidSchema(sc) && Merged(sc, config).Ok?
    ensures Merged(sc, config).value.Keys == config.Keys + sc.defaults.Keys
  {
    var m := Merged(sc, config).value;
    forall s | s in m
      ensures s in config.Keys + sc.defaults.Keys
    {
      MergeSectionsKeys(sc, config, sc.order, s);
    }
    forall s | s in config.Keys + sc.defaults.Keys
      ensures s in m
    {
      MergeSectionsKeys(sc, config, sc.order, s);
    }
  }

  /** The merge keeps sections the defaults do not know exactly as the user wrote them. */
  lemma MergedKeepsOtherSections(sc: Schema, config: Config, s: string)
    requires ValidSchema(sc) && Merged(sc, config).Ok? && s in config && s !in sc.defaults
    ensures s in Merged(sc, config).value
    ensures Merged(sc, config).value[s] == config[s]
  {
    MergeSectionsUntouched(sc, config, sc.order, s);
  }

  /** The merge makes each default section its defaults overlaid with the user's entries:
      a key the user set keeps the user's value. */
  lemma MergedOverlaysDefaults(sc: Schema, config: Config, s: string)
    requires ValidSchema(sc) && Merged(sc, config).Ok? && s in sc.defaults
    ensures s in Merged(sc, config).value
    ensures Merged(sc, config).value[s] == Dict(sc.defaults[s] + UserSection(config, s))
  {
    MergeSectionsMerged(sc, config, sc.order, s);
    MergedSectionOverlays(sc, config, s);
  }

  /** The inner loop of `_validate_config` for one mapping section: each default key the
      section lacks is added with its default value; keys the user set keep their values. */
  method MergeSection(entries: Section, defaults: Section) returns (merged: Section)
    ensures merged == defaults + entries
  {
    merged := entries;
    var todo := defaults.Keys;
    while todo != {}
      invariant todo <= defaults.Keys
      invariant merged.Keys == entries.Keys + (defaults.Keys - todo)
      invariant forall k :: k in entries ==> merged[k] == entries[k]
      invariant forall k :: k in defaults && k !in todo && k !in entries ==> merged[k] == defaults[k]
      decreases |todo|
    {
      var key :| key in todo;
      if key !in merged {
        merged := merged[key := defaults[key]];
      }
      todo := todo - {key};
    }
  }

  /** Pass `i` of the merge loop, after passes that raised nothing: if the section is bad
      it is the one the merge reports; otherwise merging it extends the merge by one
      section of the order. */
  lemma MergeLoopStep(sc: Schema, config: Config, i: int)
    requires forall s :: s in sc.order <==> s in sc.defaults
    requires forall i, j :: 0 <= i < j < |sc.order| ==> sc.order[i] != sc.order[j]
    requires 0 <= i < |sc.order| && forall j :: 0 <= j < i ==> !Bad(config, sc.order[j])
    ensures Bad(config, sc.order[i]) ==> Merged(sc, config) == Err(SectionNotMapping(sc.order[i]))
    ensures !Bad(config, sc.order[i]) ==> forall j :: 0 <= j < i + 1 ==> !Bad(config, sc.order[j])
    ensures Bad(MergeSections(sc, config, sc.order[..i]), sc.order[i]) <==> Bad(config, sc.order[i])
    ensures var c := MergeSections(sc, config, sc.order[..i]); var s := sc.order[i];
      c[s := MergedSection(sc, c, s)] == MergeSections(sc, config, sc.order[..i + 1])
  {
    var s := sc.order[i];
    if Bad(config, s) {
      FirstBadIsFirst(config, sc.order, i);
    }
    assert s !in sc.order[..i];
    MergeSectionsUntouched(sc, config, sc.order[..i], s);
    assert sc.order[..i + 1][..i] == sc.order[..i];
  }

  /** After passes over the whole order that raised nothing, the merge succeeds with the
      document the passes built. */
  lemma MergeLoopEnd(sc: Schema, config: Config)
    requires forall j :: 0 <= j < |sc.order| ==> !Bad(config, sc.order[j])
    ensures Merged(sc, config) == Ok(MergeSections(sc, config, sc.order[..|sc.order|]))
  {
    assert sc.order[..|sc.order|] == sc.order;
  }

  /** One pass of the outer loop of `_validate_config`: a missing section is set to its
      defaults; a mapping gets the default keys it lacks; anything else raises. */
  method MergeDefaultSection(sc: Schema, c: Config, section: string) returns (r: Result<Config, ConfigError>)
    requires section in sc.defaults
    ensures Bad(c, section) ==> r == Err(SectionNotMapping(section))
    ensures !Bad(c, section) ==> r == Ok(c[section := MergedSection(sc, c, section)])
  {
    var defaultValues := sc.defaults[section];
    if section !in c {
      return Ok(c[section := Dict(defaultValues)]);
    }
    match c[section]
    case Dict(entries) => {
      var merged := MergeSection(entries, defaultValues);
      return Ok(c[section := Dict(merged)]);
    }
    case _ => {
      return Err(SectionNotMapping(section));
    }
  }

  /** The outer loop of `_validate_config`: for each default section in order, a missing
      section is set to its defaults and a present one gets the default keys it lacks,
      raising if it is not a mapping. */
  method MergeDefaults(sc: Schema, config: Config) returns (r: Result<Config, ConfigError>)
    requires forall s :: s in sc.order <==> s in sc.defaults
    requires forall i, j :: 0 <= i < j < |sc.order| ==> sc.order[i] != sc.order[j]
    ensures r == Merged(sc, config)
  {
    var c := config;
    for i := 0 to |sc.order|
      invariant forall j :: 0 <= j < i ==> !Bad(config, sc.order[j])
      invariant c == MergeSections(sc, config, sc.order[..i])
    {
      var section := sc.order[i];
      MergeLoopStep(sc, config, i);
      var step := MergeDefaultSection(sc, c, section);
      if step.Err? {
        return step;
      }
      c := step.value;
    }
    MergeLoopEnd(sc, config);
    r := Ok(c);
  }

  // ---------------------------------------------------------------- validation

  /** `_validate_config`: the merge, then the checks of `_validate_thresholds`. */
  function Validated(sc: Schema, config: Config): Result<Config, ConfigError> {
    match Merged(sc, config)
    case Err(e) => Err(e)
    case Ok(merged) => ApplyRules(merged, sc.rules)
  }

  /** The user's value of the setting rule `r` checks, if given, is a number. */
  predicate UserNumeric(config: Config, r: Rule) {
    r.key in UserSection(config, r.section) ==> NumberOf(UserSection(config, r.section)[r.key]).Some?
  }

  /** Validation raises nothing exactly when every default section the user gave is a
      mapping and every checked setting the user gave is a number. */
  lemma ValidatedOkIff(sc: Schema, config: Config)
    requires ValidSchema(sc)
    ensures Validated(sc, config).Ok? <==>
      SectionsAreMappings(sc, config) && forall i :: 0 <= i < |sc.rules| ==> UserNumeric(config, sc.rules[i])
  {
    if Merged(sc, config).Ok? {
      var merged := Merged(sc, config).value;
      MergedSections(sc, config);
      ApplyRulesEffect(merged, sc.rules);
      forall i | 0 <= i < |sc.rules|
        ensures Applicable(merged, sc.rules[i]) <==> UserNumeric(config, sc.rules[i])
      {
        MergedOverlaysDefaults(sc, config, sc.rules[i].section);
      }
    }
  }

  /** The frame of a run, seen from one mapping section. */
  lemma FrameSection(c: Config, c2: Config, rules: seq<Rule>, s: string)
    requires forall i :: 0 <= i < |rules| ==> WellFormedRule(rules[i])
    requires Frame(c, c2, rules) && s in c && c[s].Dict?
    ensures s in c2 && c2[s].Dict? && c2[s].entries.Keys == c[s].entries.Keys
    ensures forall k :: k in c2[s].entries ==> c2[s].entries[k] == AdjustValue(rules, s, k, c[s].entries[k])
  {
    if !RuleSection(rules, s) {
      forall k | k in c2[s].entries
        ensures c2[s].entries[k] == AdjustValue(rules, s, k, c[s].entries[k])
      {
        assert !Targeted(rules, s, k);
        AdjustUntargeted(rules, s, k, c[s].entries[k]);
      }
    }
  }

  /** The shape of a validated document: each default section is a mapping holding the
      default keys and the user's keys, and each of its settings is the user's value (or
      the default) as the checks leave it. */
  lemma ValidatedSection(sc: Schema, config: Config, s: string)
    requires ValidSchema(sc) && Validated(sc, config).Ok? && s in sc.defaults
    ensures var r := Validated(sc, config).value;
      && s in r && r[s].Dict?
      && r[s].entries.Keys == sc.defaults[s].Keys + UserSection(config, s).Keys
      && forall k :: k in r[s].entries ==>
           r[s].entries[k] == AdjustValue(sc.rules, s, k, (sc.defaults[s] + UserSection(config, s))[k])
  {
    var merged := Merged(sc, config).value;
    MergedSections(sc, config);
    MergedOverlaysDefaults(sc, config, s);
    ApplyRulesEffect(merged, sc.rules);
    FrameSection(merged, Validated(sc, config).value, sc.rules, s);
  }

  /** After validation every default section exists and holds every default key. */
  lemma ValidatedHasDefaults(sc: Schema, config: Config)
    requires ValidSchema(sc) && Validated(sc, config).Ok?
    ensures forall s :: s in sc.defaults ==>
      s in Validated(sc, config).value && Validated(sc, config).value[s].Dict?
      && sc.defaults[s].Keys <= Validated(sc, config).value[s].entries.Keys
  {
    forall s | s in sc.defaults
      ensures s in Validated(sc, config).value && Validated(sc, config).value[s].Dict?
              && sc.defaults[s].Keys <= Validated(sc, config).value[s].entries.Keys
    {
      ValidatedSection(sc, config, s);
    }
  }

  /** Validation keeps sections the defaults do not know, and keeps every value the user
      gave for a setting no check looks at. */
  lemma ValidatedKeepsUserSettings(sc: Schema, config: Config, s: string, k: string)
    requires ValidSchema(sc) && Validated(sc, config).Ok?
    ensures s in config && s !in sc.defaults ==>
      s in Validated(sc, config).value && Validated(sc, config).value[s] == config[s]
    ensures s in sc.defaults && k in UserSection(config, s) && !Targeted(sc.rules, s, k) ==>
      s in Validated(sc, config).value && Validated(sc, config).value[s].Dict?
      && k in Validated(sc, config).value[s].entries
      && Validated(sc, config).value[s].entries[k] == UserSection(config, s)[k]
  {
    var merged := Merged(sc, config).value;
    MergedSections(sc, config);
    ApplyRulesEffect(merged, sc.rules);
    if s in config && s !in sc.defaults {
      MergedKeepsOtherSections(sc, config, s);
      assert !RuleSection(sc.rules, s);
    }
    if s in sc.defaults && k in UserSection(config, s) && !Targeted(sc.rules, s, k) {
      ValidatedSection(sc, config, s);
      AdjustUntargeted(sc.rules, s, k, (sc.defaults[s] + UserSection(config, s))[k]);
    }
  }

  /** The value a validated document holds for the setting rule `i` checks, against the
      user's value (or the default): a number within the rule's bounds, equal to the
      given value when that was already within them, and the bound it crossed otherwise. */
  lemma ValidatedThreshold(sc: Schema, config: Config, i: int)
    requires ValidSchema(sc) && Validated(sc, config).Ok? && 0 <= i < |sc.rules|
    ensures var rule := sc.rules[i];
      var given := (sc.defaults[rule.section] + UserSection(config, rule.section))[rule.key];
      && rule.section in Validated(sc, config).value && Validated(sc, config).value[rule.section].Dict?
      && rule.key in Validated(sc, config).value[rule.section].entries
      && var v := Validated(sc, config).value[rule.section].entries[rule.key];
      && NumberOf(given).Some?
      && NumberOf(v).Some? && InRange(rule, NumberOf(v).value)
      && (InRange(rule, NumberOf(given).value) ==> v == given)
      && (NumberOf(given).value > rule.high as real ==> v == Int(rule.high))
      && (rule.low.Some? && NumberOf(given).value < rule.low.value as real ==> v == Int(rule.low.value))
  {
    var rule := sc.rules[i];
    ValidatedOkIff(sc, config);
    ValidatedSection(sc, config, rule.section);
    AdjustTargeted(sc.rules, i, (sc.defaults[rule.section] + UserSection(config, rule.section))[rule.key]);
  }

  /** The same, against the value the user gave: kept when within the rule's bounds, the
      bound it crossed otherwise. */
  lemma ValidatedUserThreshold(sc: Schema, config: Config, i: int)
    requires ValidSchema(sc) && Validated(sc, config).Ok? && 0 <= i < |sc.rules|
    ensures var rule := sc.rules[i];
      var r := Validated(sc, config).value;
      && rule.section in r && r[rule.section].Dict? && rule.key in r[rule.section].entries
      && var v := r[rule.section].entries[rule.key];
      && NumberOf(v).Some? && InRange(rule, NumberOf(v).value)
      && (rule.key in UserSection(config, rule.section) ==>
            var u := UserSection(config, rule.section)[rule.key];
            && NumberOf(u).Some?
            && (InRange(rule, NumberOf(u).value) ==> v == u)
            && (NumberOf(u).value > rule.high as real ==> v == Int(rule.high))
            && (rule.low.Some? && NumberOf(u).value < rule.low.value as real ==> v == Int(rule.low.value)))
  {
    var rule := sc.rules[i];
    ValidatedThreshold(sc, config, i);
    if rule.key in UserSection(config, rule.section) {
      assert (sc.defaults[rule.section] + UserSection(config, rule.section))[rule.key]
          == UserSection(config, rule.section)[rule.key];
    }
  }

  /** A validated document is settled: its default sections are mappings and its checked
      settings are in range. */
  lemma ValidatedIsSettled(sc: Schema, config: Config)
    requires ValidSchema(sc) && Validated(sc, config).Ok?
    ensures Settled(Validated(sc, config).value, sc.rules)
  {
    ValidatedHasDefaults(sc, config);
    forall i | 0 <= i < |sc.rules|
      ensures var rule := sc.rules[i];
        var r := Validated(sc, config).value;
        rule.key in r[rule.section].entries
        && NumberOf(r[rule.section].entries[rule.key]).Some?
        && InRange(rule, NumberOf(r[rule.section].entries[rule.key]).value)
    {
      ValidatedThreshold(sc, config, i);
    }
  }

  /** Merging a document that already holds every default section and key adds nothing. */
  lemma MergeComplete(sc: Schema, c: Config)
    requires ValidSchema(sc)
    requires forall s :: s in sc.defaults ==> s in c && c[s].Dict? && sc.defaults[s].Keys <= c[s].entries.Keys
    ensures Merged(sc, c) == Ok(c)
  {
    var m := Merged(sc, c).value;
    MergedSections(sc, c);
    forall s | s in c
      ensures m[s] == c[s]
    {
      if s in sc.defaults {
        MergedOverlaysDefaults(sc, c, s);
        assert sc.defaults[s] + c[s].entries == c[s].entries;
      } else {
        MergedKeepsOtherSections(sc, c, s);
      }
    }
    assert m == c;
  }

  /** Validating a validated document changes nothing. */
  lemma ValidateIdempotent(sc: Schema, config: Config)
    requires ValidSchema(sc) && Validated(sc, config).Ok?
    ensures Validated(sc, Validated(sc, config).value) == Validated(sc, config)
  {
    var r := Validated(sc, config).value;
    ValidatedHasDefaults(sc, config);
    MergeComplete(sc, r);
    ValidatedIsSettled(sc, config);
    SettledUnchanged(r, sc.rules);
  }

  /** Validating an empty document gives the default configuration. */
  lemma ValidateEmpty(sc: Schema)
    requires ValidSchema(sc)
    ensures Validated(sc, map[]) == Ok(DefaultConfigOf(sc))
  {
    var d := DefaultConfigOf(sc);
    var m := Merged(sc, map[]).value;
    MergedSections(sc, map[]);
    forall s | s in sc.defaults
      ensures m[s] == d[s]
    {
      MergedOverlaysDefaults(sc, map[], s);
      assert sc.defaults[s] + map[] == sc.defaults[s];
    }
    assert m == d;
    SettledUnchanged(d, sc.rules);
  }

  // ---------------------------------------------------------------- the loader's own tables

  /** After validation the ec2 and rds `cpu_threshold` are at most 100; a value the user
      set at or below 100, negative ones included, is kept, and a larger one becomes 100. */
  lemma ValidatedCpuThresholds(config: Config, s: string)
    requires (s == "ec2" || s == "rds") && Validated(Loader, config).Ok?
    ensures s in Validated(Loader, config).value && Validated(Loader, config).value[s].Dict?
    ensures "cpu_threshold" in Validated(Loader, config).value[s].entries
    ensures var v := Validated(Loader, config).value[s].entries["cpu_threshold"];
      && NumberOf(v).Some? && NumberOf(v).value <= 100.0
      && ("cpu_threshold" in UserSection(config, s) ==>
            var u := UserSection(config, s)["cpu_threshold"];
            NumberOf(u).Some? && (NumberOf(u).value <= 100.0 ==> v == u) && (NumberOf(u).value > 100.0 ==> v == Int(100)))
  {
    LoaderIsValid();
    var i := if s == "ec2" then 0 else 1;
    assert Loader.rules[i] == CpuRule(s);
    ValidatedUserThreshold(Loader, config, i);
  }

  /** After validation the ec2, rds and ebs `days_to_check` lie between 1 and 90; a value
      the user set within that range is kept, a larger one becomes 90 and a smaller one 1. */
  lemma ValidatedDaysToCheck(config: Config, s: string)
    requires (s == "ec2" || s == "rds" || s == "ebs") && Validated(Loader, config).Ok?
    ensures s in Validated(Loader, config).value && Validated(Loader, config).value[s].Dict?
    ensures "days_to_check" in Validated(Loader, config).value[s].entries
    ensures var v := Validated(Loader, config).value[s].entries["days_to_check"];
      && NumberOf(v).Some? && 1.0 <= NumberOf(v).value <= 90.0
      && ("days_to_check" in UserSection(config, s) ==>
            var u := UserSection(config, s)["days_to_check"];
            NumberOf(u).Some?
            && (1.0 <= NumberOf(u).value <= 90.0 ==> v == u)
            && (NumberOf(u).value > 90.0 ==> v == Int(90))
            && (NumberOf(u).value < 1.0 ==> v == Int(1)))
  {
    LoaderIsValid();
    var i := if s == "ec2" then 2 else if s == "rds" then 3 else 4;
    assert Loader.rules[i] == DaysRule(s);
    ValidatedUserThreshold(Loader, config, i);
  }

  /** Validating an empty document gives `_get_default_config`. */
  lemma ValidateEmptyConfig()
    ensures Validated(Loader, map[]) == Ok(GetDefaultConfig())
  {
    LoaderIsValid();
    ValidateEmpty(Loader);
    DefaultConfigIsLoaders();
  }

  // ---------------------------------------------------------------- the methods

  /** One `if ... > limit: section[key] = limit` block of `_validate_thresholds`. */
  method ClampSetting(config: Config, rule: Rule) returns (r: Result<Config, ConfigError>)
    ensures r == ApplyRule(config, rule)
  {
    if rule.section !in config {
      return Ok(config);
    }
    if !config[rule.section].Dict? {
      return Err(SectionNotMapping(rule.section));
    }
    var sectionConfig := config[rule.section].entries;
    var current := if rule.key in sectionConfig then sectionConfig[rule.key] else Int(rule.default);
    var number := NumberOf(current);
    if number.None? {
      return Err(NotANumber(rule.section, rule.key));
    }
    if number.value > rule.high as real {
      sectionConfig := sectionConfig[rule.key := Int(rule.high)];
      return Ok(config[rule.section := Dict(sectionConfig)]);
    } else if rule.low.Some? && number.value < rule.low.value as real {
      sectionConfig := sectionConfig[rule.key := Int(rule.low.value)];
      return Ok(config[rule.section := Dict(sectionConfig)]);
    }
    return Ok(config);
  }

  /** After the first `n` rules gave `c`, running rule `n` on `c` is running the first
      `n + 1`; if it raises, the whole run raises with it. */
  lemma ApplyRulesPrefixStep(config: Config, rules: seq<Rule>, n: int, c: Config)
    requires 0 <= n < |rules| && ApplyRules(config, rules[..n]) == Ok(c)
    ensures ApplyRules(config, rules[..n + 1]) == ApplyRule(c, rules[n])
    ensures ApplyRule(c, rules[n]).Err? ==> ApplyRules(config, rules) == ApplyRule(c, rules[n])
  {
    ApplyRulesAppend(config, rules[..n], [rules[n]]);
    assert rules[..n] + [rules[n]] == rules[..n + 1];
    if ApplyRule(c, rules[n]).Err? {
      ApplyRulesAppend(config, rules[..n + 1], rules[n + 1..]);
      assert rules[..n + 1] + rules[n + 1..] == rules;
    }
  }

  /** `_validate_thresholds`: the two CPU checks, then the day-count check for each of
      ec2, rds and ebs. */
  method ValidateThresholds(config: Config) returns (r: Result<Config, ConfigError>)
    ensures r == ApplyRules(config, ThresholdRules)
  {
    var c := config;
    assert ThresholdRules[..0] == [];
    ApplyRulesPrefixStep(config, ThresholdRules, 0, c);
    r := ClampSetting(c, CpuRule("ec2"));
    if r.Err? {
      return;
    }
    c := r.value;
    ApplyRulesPrefixStep(config, ThresholdRules, 1, c);
    r := ClampSetting(c, CpuRule("rds"));
    if r.Err? {
      return;
    }
    c := r.value;
    for i := 0 to |DaySections|
      invariant ApplyRules(config, ThresholdRules[..2 + i]) == Ok(c)
    {
      ApplyRulesPrefixStep(config, ThresholdRules, 2 + i, c);
      r := ClampSetting(c, DaysRule(DaySections[i]));
      if r.Err? {
        return;
      }
      c := r.value;
    }
    assert ThresholdRules[..5] == ThresholdRules;
    r := Ok(c);
  }

  /** `_validate_config` with the loader's own tables: the merge, then the threshold
      checks. */
  method ValidateConfig(config: Config) returns (r: Result<Config, ConfigError>)
    ensures r == Validated(Loader, config)
  {
    LoaderIsValid();
    SectionOrderCoversDefaults();
    r := MergeDefaults(Loader, config);
    if r.Err? {
      return;
    }
    r := ValidateThresholds(r.value);
  }
}
