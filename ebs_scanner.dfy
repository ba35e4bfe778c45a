/** The EBS scanner's rules for one volume: excluded volumes and volume types outside the
    include list give nothing, an unattached volume an `unattached_volume` finding, an
    attached one a `low_volume_utilization` finding when its daily operations are few. */
module EbsScanner {
  import opened Common
  import opened Values
  import opened Stats
  import opened BaseScanner
  import Numerals

  /** The class name `create_finding` records. */
  const ScannerName: string := "EBSScanner"

  /** The recommendation text of an unattached-volume finding. */
  const UnattachedAdvice: string := "Delete if no longer needed, or attach to an instance if required"

  /** The recommendation text of a low-utilisation finding. */
  const LowUtilizationAdvice: string := "Review if volume is needed or consider smaller volume size"

  /** A volume as `describe_volumes` lists it (`Tags` missing is the empty list). */
  datatype Volume = Volume(
    volumeId: string,
    volumeType: string,
    size: int,
    state: string,
    tags: seq<Tag>,
    createTime: Option<Timestamp>)

  /** The settings the scanner reads from its configuration section. */
  datatype EbsSettings = EbsSettings(
    daysToCheck: real,
    iopsThreshold: real,
    excludeTags: seq<ExcludeEntry>,
    includeVolumeTypes: seq<string>)

  /** The volume types analysed when the configuration names none. */
  const DefaultVolumeTypes: seq<string> := ["gp2", "gp3", "io1", "io2"]

  /** The settings as the scanner's `config.get` calls read them: a missing key takes the
      default the scanner passes (7 days, 1 operation a day, no excluded tags, the four
      SSD types). `None` when a value is of a kind the scanner cannot use. */
  function EbsSettingsOf(section: map<string, Value>): (s: Option<EbsSettings>)
    ensures s.Some? <==>
      && NumberUsable(section, "days_to_check") && NumberUsable(section, "iops_threshold")
      && ListUsable(section, "exclude_tags") && ListUsable(section, "include_volume_types")
    ensures section == map[] ==> s == Some(EbsSettings(7.0, 1.0, [], DefaultVolumeTypes))
    ensures s.Some? && "days_to_check" !in section ==> s.value.daysToCheck == 7.0
    ensures s.Some? && "days_to_check" in section ==> NumberOf(section["days_to_check"]) == Some(s.value.daysToCheck)
    ensures s.Some? && "iops_threshold" !in section ==> s.value.iopsThreshold == 1.0
    ensures s.Some? && "iops_threshold" in section ==> NumberOf(section["iops_threshold"]) == Some(s.value.iopsThreshold)
    ensures s.Some? && "exclude_tags" !in section ==> s.value.excludeTags == []
    ensures s.Some? && "exclude_tags" in section ==> s.value.excludeTags == ExcludeEntries(section["exclude_tags"].items)
    ensures s.Some? && "include_volume_types" !in section ==> s.value.includeVolumeTypes == DefaultVolumeTypes
    ensures s.Some? && "include_volume_types" in section ==>
      forall n :: n in s.value.includeVolumeTypes <==> Text(n) in section["include_volume_types"].items
  {
    var days := NumberSetting(section, "days_to_check", 7.0);
    var iops := NumberSetting(section, "iops_threshold", 1.0);
    var tags := ExcludeTagsSetting(section);
    var types := NamesSetting(section, "include_volume_types", DefaultVolumeTypes);
    if days.Some? && iops.Some? && tags.Some? && types.Some?
    then Some(EbsSettings(days.value, iops.value, tags.value, types.value))
    else None
  }

  // ---------------------------------------------------------------- pricing

  /** The per-GB monthly prices of `_calculate_volume_cost`. */
  const VolumePricing: map<string, real> := map[
    "gp2" := 0.10,
    "gp3" := 0.08,
    "io1" := 0.125,
    "io2" := 0.125,
    "st1" := 0.045,
    "sc1" := 0.025
  ]

  /** The per-GB price of a volume type the table does not list. */
  const DefaultPricePerGb: real := 0.10

  /** `_calculate_volume_cost`: the size in GB times the type's per-GB price, with a
      default price for unlisted types. The region argument of the source is ignored
      there, so it is not taken here. */
  function CalculateVolumeCost(volumeType: string, sizeGb: int): (cost: real)
    ensures volumeType in VolumePricing ==> cost == sizeGb as real * VolumePricing[volumeType]
    ensures volumeType !in VolumePricing ==> cost == sizeGb as real * DefaultPricePerGb
    ensures sizeGb >= 0 ==> cost >= 0.0
    ensures sizeGb > 0 ==> cost > 0.0
  {
    var pricePerGb := if volumeType in VolumePricing then VolumePricing[volumeType] else DefaultPricePerGb;
    assert pricePerGb > 0.0;
    sizeGb as real * pricePerGb
  }

  // ---------------------------------------------------------------- unattached volumes

  /** How long an unattached volume has been around: its age in whole days if it has a
      creation time, otherwise 0. */
  function DaysUnattached(v: Volume): int {
    match v.createTime
    case Some(t) => t.ageDays
    case None => 0
  }

  /** The `create_time` metadata entry: the ISO text, or `None`. */
  function CreateTimeMeta(v: Volume): MetaValue {
    match v.createTime
    case Some(t) => MText(t.iso)
    case None => MNone
  }

  /** `_create_unattached_volume_finding`: the whole monthly cost of the volume is saved,
      and the finding is urgent once the volume is more than 30 days old. */
  function UnattachedVolumeFinding(v: Volume, region: string): (f: Finding)
    ensures f.resourceId == v.volumeId && f.resourceType == "EBS" && f.scanner == ScannerName
    ensures f.issueType == UnattachedVolume
    ensures f.severity == High <==> DaysUnattached(v) > 30
    ensures f.severity != High ==> f.severity == Medium
    ensures f.monthlySavings == CalculateVolumeCost(v.volumeType, v.size)
  {
    var days := DaysUnattached(v);
    CreateFinding(
      ScannerName, v.volumeId, "EBS", UnattachedVolume,
      "EBS volume " + v.volumeId + " (" + Numerals.IntToDecimal(v.size) + "GB " + v.volumeType
        + ") is unattached for " + Numerals.IntToDecimal(days) + " days",
      CalculateVolumeCost(v.volumeType, v.size),
      UnattachedAdvice,
      if days > 30 then High else Medium,
      Some([("volume_type", MText(v.volumeType)),
            ("volume_size", MNum(v.size as real)),
            ("region", MText(region)),
            ("days_unattached", MNum(days as real)),
            ("create_time", CreateTimeMeta(v))]))
  }

  // ---------------------------------------------------------------- attached volumes

  /** The daily average of read plus write operations over the checked days; 0 when the
      number of days is not positive. */
  function DailyAverageOps(settings: EbsSettings, readOps: seq<real>, writeOps: seq<real>): real {
    if settings.daysToCheck > 0.0
    then (Sum(readOps) + Sum(writeOps)) / settings.daysToCheck
    else 0.0
  }

  /** Whether the operation series call for a finding: at least one of them has samples
      and the daily average is under `iops_threshold`. */
  predicate VolumeIsIdle(settings: EbsSettings, readOps: seq<real>, writeOps: seq<real>) {
    (readOps != [] || writeOps != []) && DailyAverageOps(settings, readOps, writeOps) < settings.iopsThreshold
  }

  /** The `low_volume_utilization` finding of `_check_volume_utilization`: half of the
      volume's monthly cost is counted as saved, and a volume with no operations at all is
      more urgent than one with a few. */
  function LowVolumeUtilizationFinding(v: Volume, region: string, settings: EbsSettings,
                                       readOps: seq<real>, writeOps: seq<real>): (f: Finding)
    ensures f.resourceId == v.volumeId && f.resourceType == "EBS" && f.scanner == ScannerName
    ensures f.issueType == LowVolumeUtilization
    ensures f.severity == Medium <==> DailyAverageOps(settings, readOps, writeOps) == 0.0
    ensures f.severity != Medium ==> f.severity == Low
    ensures f.monthlySavings == CalculateVolumeCost(v.volumeType, v.size) * 0.5
  {
    var dailyAvgOps := DailyAverageOps(settings, readOps, writeOps);
    CreateFinding(
      ScannerName, v.volumeId, "EBS", LowVolumeUtilization,
      "EBS volume " + v.volumeId + " has low utilization: " + Numerals.Fixed1(dailyAvgOps) + " operations/day average",
      CalculateVolumeCost(v.volumeType, v.size) * 0.5,
      LowUtilizationAdvice,
      if dailyAvgOps == 0.0 then Medium else Low,
      Some([("volume_type", MText(v.volumeType)),
            ("volume_size", MNum(v.size as real)),
            ("region", MText(region)),
            ("daily_avg_operations", MRounded(dailyAvgOps)),
            ("total_read_ops", MNum(Sum(readOps))),
            ("total_write_ops", MNum(Sum(writeOps))),
            ("days_analyzed", MNum(settings.daysToCheck))]))
  }

  /** The finding for an idle attached volume is worth half of what deleting the same
      volume unattached would save. */
  lemma UtilizationSavesHalfOfDeletion(v: Volume, region: string, settings: EbsSettings,
                                       readOps: seq<real>, writeOps: seq<real>)
    ensures LowVolumeUtilizationFinding(v, region, settings, readOps, writeOps).monthlySavings * 2.0
            == UnattachedVolumeFinding(v, region).monthlySavings
  {
  }

  /** `_check_volume_utilization`, given the read and write operation series. */
  method CheckVolumeUtilization(v: Volume, region: string, settings: EbsSettings,
                                readOps: seq<real>, writeOps: seq<real>)
    returns (findings: seq<Finding>)
    ensures findings == if VolumeIsIdle(settings, readOps, writeOps)
                        then [LowVolumeUtilizationFinding(v, region, settings, readOps, writeOps)] else []
  {
    findings := [];
    if readOps != [] || writeOps != [] {
      var totalReadOps := if readOps != [] then Sum(readOps) else 0.0;
      var totalWriteOps := if writeOps != [] then Sum(writeOps) else 0.0;
      var totalOps := totalReadOps + totalWriteOps;
      var daysChecked := settings.daysToCheck;
      var dailyAvgOps := if daysChecked > 0.0 then totalOps / daysChecked else 0.0;
      if dailyAvgOps < settings.iopsThreshold {
        findings := findings + [LowVolumeUtilizationFinding(v, region, settings, readOps, writeOps)];
      }
    }
  }

  /** The volume passes the filters of `_analyze_volume`: no exclusion tag matches and its
      type is one of the included types. */
  predicate Analysable(v: Volume, settings: EbsSettings) {
    !Excludes(v.tags, settings.excludeTags) && v.volumeType in settings.includeVolumeTypes
  }

  /** `_analyze_volume`, given the volume's operation series. */
  method AnalyzeVolume(v: Volume, region: string, settings: EbsSettings, readOps: seq<real>, writeOps: seq<real>)
    returns (findings: seq<Finding>)
    ensures |findings| <= 1
    ensures Excludes(v.tags, settings.excludeTags) ==> findings == []
    ensures v.volumeType !in settings.includeVolumeTypes ==> findings == []
    ensures v.state != "available" && v.state != "in-use" ==> findings == []
    ensures Analysable(v, settings) && v.state == "available" ==> findings == [UnattachedVolumeFinding(v, region)]
    ensures Analysable(v, settings) && v.state == "in-use" ==>
      findings == if VolumeIsIdle(settings, readOps, writeOps)
                  then [LowVolumeUtilizationFinding(v, region, settings, readOps, writeOps)] else []
  {
    findings := [];
    var excluded := ShouldExcludeResource(v.tags, settings.excludeTags);
    if excluded {
      return;
    }
    if v.volumeType !in settings.includeVolumeTypes {
      return;
    }
    if v.state == "available" {
      findings := findings + [UnattachedVolumeFinding(v, region)];
    } else if v.state == "in-use" {
      var utilizationFindings := CheckVolumeUtilization(v, region, settings, readOps, writeOps);
      findings := findings + utilizationFindings;
    }
  }
}
