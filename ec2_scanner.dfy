/** The EC2 scanner's rules for one instance: terminated and excluded instances give
    nothing, a stopped one a `stopped_instance` finding, a running one a
    `low_cpu_utilization` finding when its mean CPU is under the threshold. */
module Ec2Scanner {
  import opened Common
  import opened Values
  import opened Stats
  import opened BaseScanner
  import Numerals

  /** The class name `create_finding` records. */
  const ScannerName: string := "EC2Scanner"

  /** The recommendation text of the advice of a stopped-instance finding. */
  const StoppedAdvice: string := "Consider terminating if no longer needed, or start if required"

  /** The recommendation text of the advice of a low-CPU finding. */
  const LowCpuAdvice: string := "Consider downsizing to smaller instance type or terminating if unused"

  /** An instance as `describe_instances` lists it (`Tags` missing is the empty list). */
  datatype Instance = Instance(
    instanceId: string,
    instanceType: string,
    state: string,
    tags: seq<Tag>,
    launchTime: Option<Timestamp>)

  /** The settings the scanner reads from its configuration section. */
  datatype Ec2Settings = Ec2Settings(
    cpuThreshold: real,
    daysToCheck: real,
    excludeInstanceTypes: seq<string>,
    excludeTags: seq<ExcludeEntry>)

  /** The settings as the scanner's `config.get` calls read them: a missing key takes the
      default the scanner passes (cpu 5, days 14, no excluded types or tags). `None` when a
      value is of a kind the scanner cannot use. */
  function Ec2SettingsOf(section: map<string, Value>): (s: Option<Ec2Settings>)
    ensures s.Some? <==>
      && NumberUsable(section, "cpu_threshold") && NumberUsable(section, "days_to_check")
      && ListUsable(section, "exclude_instance_types") && ListUsable(section, "exclude_tags")
    ensures section == map[] ==> s == Some(Ec2Settings(5.0, 14.0, [], []))
    ensures s.Some? && "cpu_threshold" !in section ==> s.value.cpuThreshold == 5.0
    ensures s.Some? && "cpu_threshold" in section ==> NumberOf(section["cpu_threshold"]) == Some(s.value.cpuThreshold)
    ensures s.Some? && "days_to_check" !in section ==> s.value.daysToCheck == 14.0
    ensures s.Some? && "days_to_check" in section ==> NumberOf(section["days_to_check"]) == Some(s.value.daysToCheck)
    ensures s.Some? && "exclude_instance_types" !in section ==> s.value.excludeInstanceTypes == []
    ensures s.Some? && "exclude_instance_types" in section ==>
      forall n :: n in s.value.excludeInstanceTypes <==> Text(n) in section["exclude_instance_types"].items
    ensures s.Some? && "exclude_tags" !in section ==> s.value.excludeTags == []
    ensures s.Some? && "exclude_tags" in section ==> s.value.excludeTags == ExcludeEntries(section["exclude_tags"].items)
  {
    var cpu := NumberSetting(section, "cpu_threshold", 5.0);
    var days := NumberSetting(section, "days_to_check", 14.0);
    var types := NamesSetting(section, "exclude_instance_types", []);
    var tags := ExcludeTagsSetting(section);
    if cpu.Some? && days.Some? && types.Some? && tags.Some?
    then Some(Ec2Settings(cpu.value, days.value, types.value, tags.value))
    else None
  }

  /** The `launch_time` metadata entry: the ISO text, or `None`. */
  function LaunchTimeMeta(inst: Instance): MetaValue {
    match inst.launchTime
    case Some(t) => MText(t.iso)
    case None => MNone
  }

  /** `_create_stopped_instance_finding`. */
  function StoppedInstanceFinding(inst: Instance, region: string): (f: Finding)
    ensures f.resourceId == inst.instanceId && f.resourceType == "EC2" && f.scanner == ScannerName
    ensures f.issueType == StoppedInstance && f.severity == Medium
    ensures f.monthlySavings == CalculateCostSavings("ec2", inst.instanceType) && f.monthlySavings > 0.0
  {
    CreateFinding(
      ScannerName, inst.instanceId, "EC2", StoppedInstance,
      "EC2 instance " + inst.instanceId + " (" + inst.instanceType + ") has been stopped",
      CalculateCostSavings("ec2", inst.instanceType),
      StoppedAdvice,
      Medium,
      Some([("instance_type", MText(inst.instanceType)),
            ("region", MText(region)),
            ("launch_time", LaunchTimeMeta(inst))]))
  }

  /** Whether the CPU series calls for a finding: it has samples and their mean is under
      the threshold. */
  predicate CpuIsLow(settings: Ec2Settings, cpuValues: seq<real>) {
    cpuValues != [] && Mean(cpuValues) < settings.cpuThreshold
  }

  /** The `low_cpu_utilization` finding of `_check_cpu_utilization`. The metadata records
      the mean and the maximum of the series; the maximum is never below the mean. */
  function LowCpuFinding(inst: Instance, region: string, settings: Ec2Settings, cpuValues: seq<real>): (f: Finding)
    requires cpuValues != []
    ensures f.resourceId == inst.instanceId && f.resourceType == "EC2" && f.scanner == ScannerName
    ensures f.issueType == LowCpuUtilization
    ensures f.severity == High <==> Mean(cpuValues) < 1.0
    ensures f.severity != Low
    ensures f.monthlySavings == CalculateCostSavings("ec2", inst.instanceType) && f.monthlySavings > 0.0
    ensures |f.metadata| == 6
    ensures f.metadata[2] == ("avg_cpu_utilization", MRounded(Mean(cpuValues)))
    ensures f.metadata[3] == ("max_cpu_utilization", MRounded(Max(cpuValues)))
    ensures f.metadata[2].1.x <= f.metadata[3].1.x
  {
    var avgCpu := Mean(cpuValues);
    var maxCpu := Max(cpuValues);
    MaxAtLeastMean(cpuValues);
    CreateFinding(
      ScannerName, inst.instanceId, "EC2", LowCpuUtilization,
      "EC2 instance " + inst.instanceId + " has low CPU utilization: " + Numerals.Fixed1(avgCpu) + "% average",
      CalculateCostSavings("ec2", inst.instanceType),
      LowCpuAdvice,
      HighBelow(avgCpu, 1.0),
      Some([("instance_type", MText(inst.instanceType)),
            ("region", MText(region)),
            ("avg_cpu_utilization", MRounded(avgCpu)),
            ("max_cpu_utilization", MRounded(maxCpu)),
            ("days_analyzed", MNum(settings.daysToCheck)),
            ("launch_time", LaunchTimeMeta(inst))]))
  }

  /** `_check_cpu_utilization`, given the CPU series the metrics call returned for the
      last `days_to_check` days: one finding exactly when the series is non-empty and its
      mean is under `cpu_threshold`; an empty series gives none. */
  method CheckCpuUtilization(inst: Instance, region: string, settings: Ec2Settings, cpuValues: seq<real>)
    returns (findings: seq<Finding>)
    ensures |findings| <= 1
    ensures findings != [] <==> CpuIsLow(settings, cpuValues)
    ensures cpuValues == [] ==> findings == []
    ensures findings != [] ==> findings[0] == LowCpuFinding(inst, region, settings, cpuValues)
  {
    findings := [];
    if cpuValues != [] {
      var avgCpu := Sum(cpuValues) / |cpuValues| as real;
      if avgCpu < settings.cpuThreshold {
        findings := findings + [LowCpuFinding(inst, region, settings, cpuValues)];
      }
    }
  }

  /** The instance passes every filter that comes before the state rules. */
  predicate Analysable(inst: Instance, settings: Ec2Settings) {
    inst.state != "terminated"
    && !Excludes(inst.tags, settings.excludeTags)
    && inst.instanceType !in settings.excludeInstanceTypes
  }

  /** `_analyze_instance`, given the instance's CPU series. */
  method AnalyzeInstance(inst: Instance, region: string, settings: Ec2Settings, cpuValues: seq<real>)
    returns (findings: seq<Finding>)
    ensures |findings| <= 1
    ensures inst.state == "terminated" ==> findings == []
    ensures Excludes(inst.tags, settings.excludeTags) ==> findings == []
    ensures inst.instanceType in settings.excludeInstanceTypes ==> findings == []
    ensures inst.state != "stopped" && inst.state != "running" ==> findings == []
    ensures Analysable(inst, settings) && inst.state == "stopped" ==> findings == [StoppedInstanceFinding(inst, region)]
    ensures Analysable(inst, settings) && inst.state == "running" ==>
      (findings != [] <==> CpuIsLow(settings, cpuValues))
      && (findings != [] ==> findings == [LowCpuFinding(inst, region, settings, cpuValues)])
  {
    findings := [];
    if inst.state == "terminated" {
      return;
    }
    var excluded := ShouldExcludeResource(inst.tags, settings.excludeTags);
    if excluded {
      return;
    }
    if inst.instanceType in settings.excludeInstanceTypes {
      return;
    }
    if inst.state == "stopped" {
      findings := findings + [StoppedInstanceFinding(inst, region)];
    } else if inst.state == "running" {
      var cpuFindings := CheckCpuUtilization(inst, region, settings, cpuValues);
      findings := findings + cpuFindings;
    }
  }
}
