/** The scan run of `main`: the three scanners are given their configuration sections, run
    in the order EC2, RDS, EBS, and their findings are concatenated into the report with
    the summed savings and the count. */
module ScanRun {
  import opened Common
  import opened Values
  import opened BaseScanner
  import ConfigLoader
  import Ec2Scanner
  import RdsScanner
  import EbsScanner

  /** The report record handed to the reporters. */
  datatype Report = Report(
    scanTimestamp: string,
    totalFindings: int,
    totalPotentialSavings: real,
    findings: seq<Finding>,
    configuration: ConfigLoader.Config)

  /** The configuration sections of the scanners, in the order they run. */
  const ScannerSections: seq<string> := ["ec2", "rds", "ebs"]

  /** `config.get(name, {})`: the section a scanner is built with. */
  function ScannerConfig(config: ConfigLoader.Config, name: string): (v: Value)
    ensures name in config ==> v == config[name]
    ensures name !in config ==> v == Dict(map[])
  {
    if name in config then config[name] else Dict(map[])
  }

  /** The sum of `monthly_savings` over `fs`. */
  function TotalSavings(fs: seq<Finding>): real {
    if fs == [] then 0.0 else TotalSavings(fs[..|fs| - 1]) + fs[|fs| - 1].monthlySavings
  }

  /** The savings of a concatenation are the sum of the savings of its parts. */
  lemma {:induction false} TotalSavingsAppend(a: seq<Finding>, b: seq<Finding>)
    ensures TotalSavings(a + b) == TotalSavings(a) + TotalSavings(b)
    decreases |b|
  {
    if b == [] {
      assert a + b == a;
    } else {
      assert (a + b)[..|a + b| - 1] == a + b[..|b| - 1];
      TotalSavingsAppend(a, b[..|b| - 1]);
    }
  }

  /** Savings that are each non-negative add up to a non-negative total. */
  lemma {:induction false} TotalSavingsNonNegative(fs: seq<Finding>)
    requires forall i :: 0 <= i < |fs| ==> fs[i].monthlySavings >= 0.0
    ensures TotalSavings(fs) >= 0.0
    decreases |fs|
  {
    if fs != [] {
      TotalSavingsNonNegative(fs[..|fs| - 1]);
    }
  }

  /** The lists of `lists` one after the other. */
  function Concat(lists: seq<seq<Finding>>): (all: seq<Finding>)
    ensures |all| == LengthSum(lists)
  {
    if lists == [] then [] else Concat(lists[..|lists| - 1]) + lists[|lists| - 1]
  }

  /** The sum of the lengths of `lists`. */
  function LengthSum(lists: seq<seq<Finding>>): nat {
    if lists == [] then 0 else LengthSum(lists[..|lists| - 1]) + |lists[|lists| - 1]|
  }

  /** The scan loop and report record of `main`, given what each scanner's `scan()`
      returned: the findings are the three lists in scanner order with nothing dropped,
      the total savings is accumulated scanner by scanner and equals the sum over the
      concatenation, and the count is the length of the concatenation. */
  method RunScans(ec2Findings: seq<Finding>, rdsFindings: seq<Finding>, ebsFindings: seq<Finding>,
                  config: ConfigLoader.Config, scanTimestamp: string)
    returns (report: Report)
    ensures report.findings == ec2Findings + rdsFindings + ebsFindings
    ensures report.totalFindings == |report.findings| == |ec2Findings| + |rdsFindings| + |ebsFindings|
    ensures report.totalPotentialSavings == TotalSavings(report.findings)
    ensures report.totalPotentialSavings
            == TotalSavings(ec2Findings) + TotalSavings(rdsFindings) + TotalSavings(ebsFindings)
    ensures report.scanTimestamp == scanTimestamp && report.configuration == config
  {
    var perScanner := [ec2Findings, rdsFindings, ebsFindings];
    var allFindings: seq<Finding> := [];
    var totalPotentialSavings := 0.0;
    for i := 0 to |perScanner|
      invariant allFindings == Concat(perScanner[..i])
      invariant totalPotentialSavings == TotalSavings(allFindings)
    {
      var findings := perScanner[i];
      assert perScanner[..i + 1][..i] == perScanner[..i];
      TotalSavingsAppend(allFindings, findings);
      allFindings := allFindings + findings;
      var scannerSavings := TotalSavings(findings);
      totalPotentialSavings := totalPotentialSavings + scannerSavings;
    }
    assert perScanner[..3] == perScanner;
    assert Concat(perScanner) == ec2Findings + rdsFindings + ebsFindings by {
      var two := [ec2Findings, rdsFindings];
      assert perScanner[..2] == two;
      assert two[..1] == [ec2Findings];
      assert [ec2Findings][..0] == [];
      assert Concat([ec2Findings]) == [] + ec2Findings == ec2Findings;
      assert Concat(two) == ec2Findings + rdsFindings;
      assert Concat(perScanner) == Concat(two) + ebsFindings;
    }
    TotalSavingsAppend(ec2Findings, rdsFindings);
    TotalSavingsAppend(ec2Findings + rdsFindings, ebsFindings);
    report := Report(scanTimestamp, |allFindings|, totalPotentialSavings, allFindings, config);
  }

  /** The sections a validated configuration gives the scanners hold their thresholds in
      range: CPU thresholds at most 100 and day counts between 1 and 90. */
  lemma ScannerSettingsInRange(config: ConfigLoader.Config)
    requires ConfigLoader.Validated(ConfigLoader.Loader, config).Ok?
    ensures var c := ConfigLoader.Validated(ConfigLoader.Loader, config).value;
      && ScannerConfig(c, "ec2").Dict? && ScannerConfig(c, "rds").Dict? && ScannerConfig(c, "ebs").Dict?
      && (var s := Ec2Scanner.Ec2SettingsOf(ScannerConfig(c, "ec2").entries);
          s.Some? ==> s.value.cpuThreshold <= 100.0 && 1.0 <= s.value.daysToCheck <= 90.0)
      && (var s := RdsScanner.RdsSettingsOf(ScannerConfig(c, "rds").entries);
          s.Some? ==> s.value.cpuThreshold <= 100.0 && 1.0 <= s.value.daysToCheck <= 90.0)
      && (var s := EbsScanner.EbsSettingsOf(ScannerConfig(c, "ebs").entries);
          s.Some? ==> 1.0 <= s.value.daysToCheck <= 90.0)
  {
    ConfigLoader.ValidatedCpuThresholds(config, "ec2");
    ConfigLoader.ValidatedCpuThresholds(config, "rds");
    ConfigLoader.ValidatedDaysToCheck(config, "ec2");
    ConfigLoader.ValidatedDaysToCheck(config, "rds");
    ConfigLoader.ValidatedDaysToCheck(config, "ebs");
  }
}
