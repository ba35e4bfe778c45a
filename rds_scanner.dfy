/** The RDS scanner's rules for one database instance: only an available instance whose
    engine is not excluded and that is old enough is measured, and its CPU and its
    connection count are judged independently. Tags play no part. */
module RdsScanner {
  import opened Common
  import opened Values
  import opened Stats
  import opened BaseScanner
  import Numerals

  /** The class name `create_finding` records. */
  const ScannerName: string := "RDSScanner"

  /** The recommendation text of the advice of a low-CPU finding. */
  const LowCpuAdvice: string := "Consider downsizing to smaller instance class or review if database is needed"

  /** The recommendation text of the advice of a low-connection finding. */
  const LowConnectionAdvice: string := "Review if database is actively used or consider consolidating databases"

  /** A database instance as `describe_db_instances` lists it. */
  datatype DbInstance = DbInstance(
    identifier: string,
    dbClass: string,
    status: string,
    engine: Option<string>,
    createTime: Option<Timestamp>)

  /** `db_instance.get('Engine', '')`. */
  function EngineOf(db: DbInstance): string { db.engine.GetOr("") }

  /** The settings the scanner reads from its configuration section. */
  datatype RdsSettings = RdsSettings(
    cpuThreshold: real,
    connectionThreshold: real,
    daysToCheck: real,
    excludeEngines: seq<string>,
    minimumAgeDays: real)

  /** The settings as the scanner's `config.get` calls read them: a missing key takes the
      default the scanner passes (cpu 10, connections 5, days 14, no excluded engines, a
      minimum age of 7 days). `None` when a value is of a kind the scanner cannot use. */
  function RdsSettingsOf(section: map<string, Value>): (s: Option<RdsSettings>)
    ensures s.Some? <==>
      && NumberUsable(section, "cpu_threshold") && NumberUsable(section, "connection_threshold")
      && NumberUsable(section, "days_to_check") && ListUsable(section, "exclude_engines")
      && NumberUsable(section, "minimum_age_days")
    ensures section == map[] ==> s == Some(RdsSettings(10.0, 5.0, 14.0, [], 7.0))
    ensures s.Some? && "cpu_threshold" !in section ==> s.value.cpuThreshold == 10.0
    ensures s.Some? && "cpu_threshold" in section ==> NumberOf(section["cpu_threshold"]) == Some(s.value.cpuThreshold)
    ensures s.Some? && "connection_threshold" !in section ==> s.value.connectionThreshold == 5.0
    ensures s.Some? && "connection_threshold" in section ==> NumberOf(section["connection_threshold"]) == Some(s.value.connectionThreshold)
    ensures s.Some? && "days_to_check" !in section ==> s.value.daysToCheck == 14.0
    ensures s.Some? && "days_to_check" in section ==> NumberOf(section["days_to_check"]) == Some(s.value.daysToCheck)
    ensures s.Some? && "minimum_age_days" !in section ==> s.value.minimumAgeDays == 7.0
    ensures s.Some? && "minimum_age_days" in section ==> NumberOf(section["minimum_age_days"]) == Some(s.value.minimumAgeDays)
    ensures s.Some? && "exclude_engines" !in section ==> s.value.excludeEngines == []
    ensures s.Some? && "exclude_engines" in section ==>
      forall n :: n in s.value.excludeEngines <==> Text(n) in section["exclude_engines"].items
  {
    var cpu := NumberSetting(section, "cpu_threshold", 10.0);
    var connections := NumberSetting(section, "connection_threshold", 5.0);
    var days := NumberSetting(section, "days_to_check", 14.0);
    var engines := NamesSetting(section, "exclude_engines", []);
    var minAge := NumberSetting(section, "minimum_age_days", 7.0);
    if cpu.Some? && connections.Some? && days.Some? && engines.Some? && minAge.Some?
    then Some(RdsSettings(cpu.value, connections.value, days.value, engines.value, minAge.value))
    else None
  }

  /** The age gate: the instance has a creation time and is younger than
      `minimum_age_days`. Without a creation time the gate does not apply. */
  predicate TooNew(db: DbInstance, settings: RdsSettings) {
    db.createTime.Some? && (db.createTime.value.ageDays as real) < settings.minimumAgeDays
  }

  /** The instance passes every filter that comes before the metric checks. */
  predicate Analysable(db: DbInstance, settings: RdsSettings) {
    db.status == "available" && EngineOf(db) !in settings.excludeEngines && !TooNew(db, settings)
  }

  /** The CPU series has samples and their mean is under `cpu_threshold`. */
  predicate CpuIsLow(settings: RdsSettings, cpuValues: seq<real>) {
    cpuValues != [] && Mean(cpuValues) < settings.cpuThreshold
  }

  /** The connection series has samples and their mean is under `connection_threshold`. */
  predicate ConnectionsAreLow(settings: RdsSettings, connectionValues: seq<real>) {
    connectionValues != [] && Mean(connectionValues) < settings.connectionThreshold
  }

  /** The `low_cpu_utilization` finding of `_check_cpu_utilization`. */
  function LowCpuFinding(db: DbInstance, region: string, settings: RdsSettings, cpuValues: seq<real>): (f: Finding)
    requires cpuValues != []
    ensures f.resourceId == db.identifier && f.resourceType == "RDS" && f.scanner == ScannerName
    ensures f.issueType == LowCpuUtilization
    ensures f.severity == High <==> Mean(cpuValues) < 2.0
    ensures f.severity != Low
    ensures f.monthlySavings == CalculateCostSavings("rds", db.dbClass) && f.monthlySavings > 0.0
  {
    var avgCpu := Mean(cpuValues);
    CreateFinding(
      ScannerName, db.identifier, "RDS", LowCpuUtilization,
      "RDS instance " + db.identifier + " has low CPU utilization: " + Numerals.Fixed1(avgCpu) + "% average",
      CalculateCostSavings("rds", db.dbClass),
      LowCpuAdvice,
      HighBelow(avgCpu, 2.0),
      Some([("db_class", MText(db.dbClass)),
            ("engine", MText(EngineOf(db))),
            ("region", MText(region)),
            ("avg_cpu_utilization", MRounded(avgCpu)),
            ("days_analyzed", MNum(settings.daysToCheck))]))
  }

  /** The `low_connection_count` finding of `_check_database_connections`. */
  function LowConnectionFinding(db: DbInstance, region: string, settings: RdsSettings, connectionValues: seq<real>): (f: Finding)
    requires connectionValues != []
    ensures f.resourceId == db.identifier && f.resourceType == "RDS" && f.scanner == ScannerName
    ensures f.issueType == LowConnectionCount
    ensures f.severity == High <==> Mean(connectionValues) < 1.0
    ensures f.severity != Low
    ensures f.monthlySavings == CalculateCostSavings("rds", db.dbClass) && f.monthlySavings > 0.0
  {
    var avgConnections := Mean(connectionValues);
    CreateFinding(
      ScannerName, db.identifier, "RDS", LowConnectionCount,
      "RDS instance " + db.identifier + " has low connection count: " + Numerals.Fixed1(avgConnections) + " average",
      CalculateCostSavings("rds", db.dbClass),
      LowConnectionAdvice,
      HighBelow(avgConnections, 1.0),
      Some([("db_class", MText(db.dbClass)),
            ("engine", MText(EngineOf(db))),
            ("region", MText(region)),
            ("avg_connections", MRounded(avgConnections)),
            ("days_analyzed", MNum(settings.daysToCheck))]))
  }

  /** `_check_cpu_utilization`, given the instance's CPU series. */
  method CheckCpuUtilization(db: DbInstance, region: string, settings: RdsSettings, cpuValues: seq<real>)
    returns (findings: seq<Finding>)
    ensures findings == if CpuIsLow(settings, cpuValues) then [LowCpuFinding(db, region, settings, cpuValues)] else []
  {
    findings := [];
    if cpuValues != [] {
      var avgCpu := Sum(cpuValues) / |cpuValues| as real;
      if avgCpu < settings.cpuThreshold {
        findings := findings + [LowCpuFinding(db, region, settings, cpuValues)];
      }
    }
  }

  /** `_check_database_connections`, given the instance's connection-count series. */
  method CheckDatabaseConnections(db: DbInstance, region: string, settings: RdsSettings, connectionValues: seq<real>)
    returns (findings: seq<Finding>)
    ensures findings == if ConnectionsAreLow(settings, connectionValues)
                        then [LowConnectionFinding(db, region, settings, connectionValues)] else []
  {
    findings := [];
    if connectionValues != [] {
      var avgConnections := Sum(connectionValues) / |connectionValues| as real;
      if avgConnections < settings.connectionThreshold {
        findings := findings + [LowConnectionFinding(db, region, settings, connectionValues)];
      }
    }
  }

  /** What the two metric checks report for an instance that passed the filters: the
      CPU finding (if any) followed by the connection finding (if any). */
  function MetricFindings(db: DbInstance, region: string, settings: RdsSettings,
                          cpuValues: seq<real>, connectionValues: seq<real>): (fs: seq<Finding>)
    ensures |fs| == (if CpuIsLow(settings, cpuValues) then 1 else 0)
                    + (if ConnectionsAreLow(settings, connectionValues) then 1 else 0)
    ensures CpuIsLow(settings, cpuValues) ==> fs[0].issueType == LowCpuUtilization
    ensures ConnectionsAreLow(settings, connectionValues) ==> fs[|fs| - 1].issueType == LowConnectionCount
    ensures forall i :: 0 <= i < |fs| ==>
      fs[i].resourceId == db.identifier && fs[i].monthlySavings == CalculateCostSavings("rds", db.dbClass)
  {
    var cpu := if CpuIsLow(settings, cpuValues) then [LowCpuFinding(db, region, settings, cpuValues)] else [];
    var connections := if ConnectionsAreLow(settings, connectionValues)
                       then [LowConnectionFinding(db, region, settings, connectionValues)] else [];
    assert forall i :: 0 <= i < |cpu| ==>
      cpu[i].resourceId == db.identifier && cpu[i].monthlySavings == CalculateCostSavings("rds", db.dbClass);
    assert forall i :: 0 <= i < |connections| ==>
      connections[i].resourceId == db.identifier && connections[i].monthlySavings == CalculateCostSavings("rds", db.dbClass);
    cpu + connections
  }

  /** `_analyze_db_instance`, given the CPU and connection series: nothing unless the
      instance is available, its engine is not excluded and it is not too new; then what
      the two metric checks report. */
  method AnalyzeDbInstance(db: DbInstance, region: string, settings: RdsSettings,
                           cpuValues: seq<real>, connectionValues: seq<real>)
    returns (findings: seq<Finding>)
    ensures db.status != "available" ==> findings == []
    ensures EngineOf(db) in settings.excludeEngines ==> findings == []
    ensures TooNew(db, settings) ==> findings == []
    ensures Analysable(db, settings) ==> findings == MetricFindings(db, region, settings, cpuValues, connectionValues)
  {
    findings := [];
    if db.status != "available" {
      return;
    }
    var engine := EngineOf(db);
    if engine in settings.excludeEngines {
      return;
    }
    if db.createTime.Some? {
      var ageDays := db.createTime.value.ageDays;
      if (ageDays as real) < settings.minimumAgeDays {
        return;
      }
    }
    findings := CheckMetrics(db, region, settings, cpuValues, connectionValues);
  }

  /** The two metric checks of `_analyze_db_instance`, CPU first. */
  method CheckMetrics(db: DbInstance, region: string, settings: RdsSettings,
                      cpuValues: seq<real>, connectionValues: seq<real>)
    returns (findings: seq<Finding>)
    ensures findings == MetricFindings(db, region, settings, cpuValues, connectionValues)
  {
    var cpuFindings := CheckCpuUtilization(db, region, settings, cpuValues);
    var connectionFindings := CheckDatabaseConnections(db, region, settings, connectionValues);
    findings := cpuFindings + connectionFindings;
  }
}
