/** What every scanner shares: the finding record, the static hourly price table, the
    exclusion-tag matcher, and reading a scanner's section with the defaults the scanners
    pass to `dict.get`. */
module BaseScanner {
  import opened Common
  import opened Values

  // ---------------------------------------------------------------- resources

  /** A resource tag as the describe calls return it; either field may be missing. */
  datatype Tag = Tag(key: Option<string>, value: Option<string>)

  /** `tag.get('Key', '')`. */
  function TagKey(t: Tag): string { t.key.GetOr("") }

  /** `tag.get('Value', '')`. */
  function TagValue(t: Tag): string { t.value.GetOr("") }

  /** A creation or launch time: its ISO-8601 text, and its age in whole days at scan
      time (`(utcnow() - t).days`), which stands in for reading the clock. */
  datatype Timestamp = Timestamp(iso: string, ageDays: int)

  // ---------------------------------------------------------------- exclusion by tag

  /** One `exclude_tags` entry: a bare tag key, or a mapping from tag keys to `str()` of
      the value that excludes. */
  datatype ExcludeEntry = BareKey(key: string) | KeyValue(pairs: map<string, string>)

  /** Whether one entry excludes a resource carrying tag `t`. */
  predicate EntryMatches(e: ExcludeEntry, t: Tag) {
    match e
    case BareKey(k) => TagKey(t) == k
    case KeyValue(pairs) => TagKey(t) in pairs && pairs[TagKey(t)] == TagValue(t)
  }

  /** Some tag of the resource matches some entry. */
  predicate Excludes(tags: seq<Tag>, entries: seq<ExcludeEntry>) {
    exists i, j :: 0 <= i < |tags| && 0 <= j < |entries| && EntryMatches(entries[j], tags[i])
  }

  /** `should_exclude_resource`: scan the tags, and for each the entries, stopping at the
      first match. */
  method ShouldExcludeResource(tags: seq<Tag>, excludeTags: seq<ExcludeEntry>) returns (exclude: bool)
    ensures exclude <==> Excludes(tags, excludeTags)
  {
    for i := 0 to |tags|
      invariant forall i', j :: 0 <= i' < i && 0 <= j < |excludeTags| ==> !EntryMatches(excludeTags[j], tags[i'])
    {
      var key, value := TagKey(tags[i]), TagValue(tags[i]);
      for j := 0 to |excludeTags|
        invariant forall j' :: 0 <= j' < j ==> !EntryMatches(excludeTags[j'], tags[i])
      {
        match excludeTags[j] {
          case KeyValue(pairs) =>
            if key in pairs && pairs[key] == value {
              assert EntryMatches(excludeTags[j], tags[i]);
              return true;
            }
          case BareKey(k) =>
            if key == k {
              assert EntryMatches(excludeTags[j], tags[i]);
              return true;
            }
        }
      }
    }
    return false;
  }

  /** With no `exclude_tags` nothing is excluded, whatever the tags. */
  lemma NoEntriesExcludeNothing(tags: seq<Tag>)
    ensures !Excludes(tags, [])
  {
  }

  // ---------------------------------------------------------------- pricing

  /** The static hourly rates (USD) per resource type and instance type. */
  const CostMap: map<string, map<string, real>> := map[
    "ec2" := map[
      "t2.micro" := 0.0116,
      "t2.small" := 0.023,
      "t2.medium" := 0.0464,
      "t3.micro" := 0.0104,
      "t3.small" := 0.0208,
      "t3.medium" := 0.0416,
      "m5.large" := 0.096,
      "m5.xlarge" := 0.192
    ],
    "rds" := map[
      "db.t3.micro" := 0.017,
      "db.t3.small" := 0.034,
      "db.t3.medium" := 0.068,
      "db.m5.large" := 0.192,
      "db.m5.xlarge" := 0.384
    ]
  ]

  /** The hourly rate of a pair missing from the table. */
  const DefaultHourlyRate: real := 0.05

  /** Whether the table prices `instanceType` for `resourceType`. */
  predicate Priced(resourceType: string, instanceType: string) {
    resourceType in CostMap && instanceType in CostMap[resourceType]
  }

  /** Every rate in the table is positive. */
  lemma TableRatesPositive(resourceType: string, instanceType: string)
    requires Priced(resourceType, instanceType)
    ensures CostMap[resourceType][instanceType] > 0.0
  {
  }

  /** `calculate_cost_savings`: the hourly rate from the table, or 0.05 for any pair it
      does not list, times the hours in a month. The region argument of the source is
      ignored there, so it is not taken here. */
  function CalculateCostSavings(resourceType: string, instanceType: string, hoursPerMonth: int := 730): (savings: real)
    ensures Priced(resourceType, instanceType) ==> savings == CostMap[resourceType][instanceType] * hoursPerMonth as real
    ensures !Priced(resourceType, instanceType) ==> savings == DefaultHourlyRate * hoursPerMonth as real
    ensures hoursPerMonth >= 0 ==> savings >= 0.0
  {
    var hourlyRate :=
      if resourceType in CostMap && instanceType in CostMap[resourceType]
      then CostMap[resourceType][instanceType]
      else DefaultHourlyRate;
    assert hourlyRate > 0.0 by {
      if Priced(resourceType, instanceType) { TableRatesPositive(resourceType, instanceType); }
    }
    hourlyRate * hoursPerMonth as real
  }

  // ---------------------------------------------------------------- findings

  /** How urgent a finding is. */
  datatype Severity = Low | Medium | High {
    /** The text the source stores. */
    function Name(): string {
      match this
      case Low => "low"
      case Medium => "medium"
      case High => "high"
    }

    /** The position in the order low < medium < high. */
    function Rank(): nat {
      match this
      case Low => 0
      case Medium => 1
      case High => 2
    }
  }

  /** The kinds of issue the scanners report. */
  datatype IssueType = StoppedInstance | LowCpuUtilization | LowConnectionCount | UnattachedVolume | LowVolumeUtilization {
    /** The text the source stores. */
    function Code(): string {
      match this
      case StoppedInstance => "stopped_instance"
      case LowCpuUtilization => "low_cpu_utilization"
      case LowConnectionCount => "low_connection_count"
      case UnattachedVolume => "unattached_volume"
      case LowVolumeUtilization => "low_volume_utilization"
    }
  }

  /** A metadata value: text, a number (int or float, their display is not modelled),
      `round(x, 2)` of the exact value `x`, or `None`. */
  datatype MetaValue = MText(s: string) | MNum(n: real) | MRounded(x: real) | MNone

  /** A finding's metadata, in insertion order. */
  type Metadata = seq<(string, MetaValue)>

  /** The record `create_finding` builds. Its `found_at` clock reading is not modelled. */
  datatype Finding = Finding(
    resourceId: string,
    resourceType: string,
    issueType: IssueType,
    description: string,
    monthlySavings: real,
    recommendation: string,
    severity: Severity,
    scanner: string,
    metadata: Metadata)

  /** `create_finding`, called by the scanner class named `scanner`: every argument goes
      into the record unchanged, and missing metadata (`None`) becomes empty. */
  function CreateFinding(
    scanner: string,
    resourceId: string,
    resourceType: string,
    issueType: IssueType,
    description: string,
    monthlySavings: real := 0.0,
    recommendation: string := "",
    severity: Severity := Medium,
    metadata: Option<Metadata> := None): (f: Finding)
    ensures f.resourceId == resourceId && f.resourceType == resourceType && f.issueType == issueType
    ensures f.description == description && f.monthlySavings == monthlySavings
    ensures f.recommendation == recommendation && f.severity == severity && f.scanner == scanner
    ensures metadata.None? ==> f.metadata == []
    ensures metadata.Some? ==> f.metadata == metadata.value
  {
    Finding(resourceId, resourceType, issueType, description, monthlySavings, recommendation,
            severity, scanner, metadata.GetOr([]))
  }

  /** Leaving out the optional arguments gives no savings, no recommendation, medium
      severity and empty metadata. */
  lemma CreateFindingDefaults(scanner: string, resourceId: string, resourceType: string, issueType: IssueType, description: string)
    ensures var f := CreateFinding(scanner, resourceId, resourceType, issueType, description);
      f.monthlySavings == 0.0 && f.recommendation == "" && f.severity == Medium && f.metadata == []
  {
  }

  /** The severity rule the utilisation checks share: `'high' if value < cutoff else
      'medium'`. */
  function HighBelow(value: real, cutoff: real): (s: Severity)
    ensures s == High <==> value < cutoff
    ensures s != Low
  {
    if value < cutoff then High else Medium
  }

  /** A lower statistic never gets a lower severity. */
  lemma HighBelowMonotone(a: real, b: real, cutoff: real)
    requires a <= b
    ensures HighBelow(a, cutoff).Rank() >= HighBelow(b, cutoff).Rank()
  {
  }

  // ---------------------------------------------------------------- reading a scanner section

  /** `section.get(key, default)` where the value is compared with numbers: `None` when
      it is of a kind such a comparison rejects. */
  function NumberSetting(section: map<string, Value>, key: string, default: real): Option<real> {
    if key !in section then Some(default) else NumberOf(section[key])
  }

  /** Setting `key` is absent, or of a kind a number comparison accepts. */
  predicate NumberUsable(section: map<string, Value>, key: string) {
    key in section ==> NumberOf(section[key]).Some?
  }

  /** Setting `key` is absent, or a list. */
  predicate ListUsable(section: map<string, Value>, key: string) {
    key in section ==> section[key].List?
  }

  /** The strings of a list, in order; other items can never equal a string, so they
      never decide an `in` test and are dropped. */
  function TextItems(items: seq<Value>): (names: seq<string>)
    ensures forall n :: n in names <==> Text(n) in items
  {
    if items == [] then []
    else
      var init := TextItems(items[..|items| - 1]);
      assert items == items[..|items| - 1] + [items[|items| - 1]];
      match items[|items| - 1]
      case Text(s) => init + [s]
      case _ => init
  }

  /** `section.get(key, default)` where the value is a list tested with `in`: `None` when
      it is not a list. */
  function NamesSetting(section: map<string, Value>, key: string, default: seq<string>): Option<seq<string>> {
    if key !in section then Some(default)
    else match section[key]
      case List(items) => Some(TextItems(items))
      case _ => None
  }

  /** The pairs of a mapping entry, with each value replaced by its `str()`. */
  function StrPairs(m: map<string, Value>): map<string, string> {
    map k | k in m && StrOf(m[k]).Some? :: StrOf(m[k]).value
  }

  /** The entry `should_exclude_resource` sees for one item of `exclude_tags`: a mapping
      compares keys and `str()` of values, anything else compares the tag key with itself
      (which only a string can pass). */
  predicate ItemMatches(item: Value, t: Tag) {
    match item
    case Dict(m) => TagKey(t) in m && StrOf(m[TagKey(t)]) == Some(TagValue(t))
    case _ => item == Text(TagKey(t))
  }

  /** The entries one `exclude_tags` item stands for: a string is a bare key, a mapping a
      key/value entry, and any other item, which no tag can match, none. */
  function ItemEntries(item: Value): seq<ExcludeEntry> {
    match item
    case Text(s) => [BareKey(s)]
    case Dict(m) => [KeyValue(StrPairs(m))]
    case _ => []
  }

  /** The `exclude_tags` items as entries, in order. */
  function ExcludeEntries(items: seq<Value>): seq<ExcludeEntry> {
    if items == [] then []
    else ExcludeEntries(items[..|items| - 1]) + ItemEntries(items[|items| - 1])
  }

  /** Some entry of `es` matches tag `t`. */
  predicate AnyEntryMatches(es: seq<ExcludeEntry>, t: Tag) {
    exists j :: 0 <= j < |es| && EntryMatches(es[j], t)
  }

  /** Some item of `items` matches tag `t` as the source compares them. */
  predicate AnyItemMatches(items: seq<Value>, t: Tag) {
    exists j :: 0 <= j < |items| && ItemMatches(items[j], t)
  }

  /** A match in a concatenation is a match in one of its parts. */
  lemma AnyEntryMatchesAppend(a: seq<ExcludeEntry>, b: seq<ExcludeEntry>, t: Tag)
    ensures AnyEntryMatches(a + b, t) <==> AnyEntryMatches(a, t) || AnyEntryMatches(b, t)
  {
    if AnyEntryMatches(a + b, t) {
      var j :| 0 <= j < |a + b| && EntryMatches((a + b)[j], t);
      if j < |a| { assert EntryMatches(a[j], t); } else { assert EntryMatches(b[j - |a|], t); }
    }
    if AnyEntryMatches(a, t) {
      var j :| 0 <= j < |a| && EntryMatches(a[j], t);
      assert EntryMatches((a + b)[j], t);
    }
    if AnyEntryMatches(b, t) {
      var j :| 0 <= j < |b| && EntryMatches(b[j], t);
      assert EntryMatches((a + b)[|a| + j], t);
    }
  }

  /** The entries of one item match a tag exactly when the item does. */
  lemma ItemEntriesFaithful(item: Value, t: Tag)
    ensures AnyEntryMatches(ItemEntries(item), t) <==> ItemMatches(item, t)
  {
    match item {
      case Text(s) =>
        assert ItemEntries(item)[0] == BareKey(s);
      case Dict(m) =>
        assert ItemEntries(item)[0] == KeyValue(StrPairs(m));
        var key := TagKey(t);
        assert key in StrPairs(m) <==> key in m && StrOf(m[key]).Some?;
      case _ =>
    }
  }

  /** An item of `items` matches exactly when one of the earlier items or the last does. */
  lemma AnyItemMatchesSnoc(items: seq<Value>, t: Tag)
    requires items != []
    ensures AnyItemMatches(items, t) <==> AnyItemMatches(items[..|items| - 1], t) || ItemMatches(items[|items| - 1], t)
  {
    var init := items[..|items| - 1];
    if AnyItemMatches(items, t) {
      var j :| 0 <= j < |items| && ItemMatches(items[j], t);
      if j < |init| { assert ItemMatches(init[j], t); }
    }
    if AnyItemMatches(init, t) {
      var j :| 0 <= j < |init| && ItemMatches(init[j], t);
      assert items[j] == init[j];
    }
  }

  /** A tag matches one of the converted entries exactly when it matches one of the raw
      items as the source compares them. */
  lemma {:induction false} ExcludeEntriesFaithful(items: seq<Value>, t: Tag)
    ensures AnyEntryMatches(ExcludeEntries(items), t) <==> AnyItemMatches(items, t)
  {
    if items != [] {
      var init := items[..|items| - 1];
      var last := items[|items| - 1];
      ExcludeEntriesFaithful(init, t);
      AnyEntryMatchesAppend(ExcludeEntries(init), ItemEntries(last), t);
      ItemEntriesFaithful(last, t);
      AnyItemMatchesSnoc(items, t);
    }
  }

  /** `self.config.get('exclude_tags', [])`: `None` when it is not a list. */
  function ExcludeTagsSetting(section: map<string, Value>): Option<seq<ExcludeEntry>> {
    if "exclude_tags" !in section then Some([])
    else match section["exclude_tags"]
      case List(items) => Some(ExcludeEntries(items))
      case _ => None
  }
}
