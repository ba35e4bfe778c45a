# AWS Resource Optimizer — finding engine in Dafny

This project models the core of the AWS Resource Optimizer. The optimizer scans EC2
instances, RDS database instances and EBS volumes, and reports the idle or underused ones
as *findings*. Each finding carries a severity and an estimated monthly saving.

The model covers:

- the three scanners' per-resource rules;
- the static price tables;
- the exclusion-tag matcher;
- the record every finding is built with;
- the configuration merge with defaults and the threshold clamping;
- the scan run of `main`, which concatenates the scanners' findings and sums their savings;
- the computed parts of the HTML reporter: grouping by resource type, per-service counts
  and savings, finding-card defaults and the metadata detail line.

Values are exact. Metric samples, rates and savings are `real`. The age of a resource is
given in whole days, standing in for the clock. Every CloudWatch series (CPU, connections,
read and write operations) is an input `seq<real>`.

Modules, one per source file, plus four small supporting ones:

| module | file | models |
|---|---|---|
| `Common` | common.dfy | `Option` (with `GetOr`, Python's `dict.get(k, default)`) and `Result` |
| `Values` | values.dfy | YAML configuration values, their numeric reading and their `str()` |
| `Numerals` | numerals.dfy | decimal text of integers and the one-decimal `:.1f` rendering in descriptions |
| `Stats` | stats.dfy | sum, mean and maximum of a metric series |
| `BaseScanner` | base_scanner.dfy | `should_exclude_resource`, `calculate_cost_savings`, `create_finding`, reading a scanner section |
| `Ec2Scanner` | ec2_scanner.dfy | `_analyze_instance`, `_create_stopped_instance_finding`, `_check_cpu_utilization` |
| `RdsScanner` | rds_scanner.dfy | `_analyze_db_instance`, `_check_cpu_utilization`, `_check_database_connections` |
| `EbsScanner` | ebs_scanner.dfy | `_analyze_volume`, `_create_unattached_volume_finding`, `_check_volume_utilization`, `_calculate_volume_cost` |
| `ConfigLoader` | config_loader.dfy | `_get_default_config`, `_validate_config`, `_validate_thresholds` |
| `ScanRun` | scan_run.dfy | the scanner list, scan loop and report record of `main` |
| `HtmlReporter` | html_reporter.dfy | grouping, service headers, card defaults and metadata line of `_generate_html` |

Some specification functions carry no contract of their own. The lemmas and methods in
the table state what they mean:

- `Values.StrOf` is the `str()` of an `exclude_tags` value (src/scanners/base_scanner.py:130).
- `ScanRun.TotalSavings` is the sum of `monthly_savings` (src/main.py:93).
- `EbsScanner.DailyAverageOps` is the daily operation average (src/scanners/ebs_scanner.py:162-168).
- `RdsScanner.TooNew` is the age gate (src/scanners/rds_scanner.py:71-77).

The code takes the form of the source:

- The scanners' analyses, the exclusion loop, the merge loops, the clamping sequence, the
  scan loop, the grouping loop and the detail-line loop are methods with loops. Each is
  proved against a specification function, or its `ensures` states the outcome outright.
- The price tables, the finding records, severities and the defaults are functions.

The configuration document is a `map<string, Value>`. `_validate_config` mutates it in
place. The model returns the new document, or an error naming the section or setting on
which Python would raise, such as a section that is not a mapping or a threshold that is
not a number.

The merge and clamp lemmas are stated over a `Schema`: the section order, the defaults and
the clamping rules. `Loader` is the schema of the source, and `LoaderIsValid` proves it
meets the lemmas' assumptions. The concrete lemmas (`ValidatedCpuThresholds`,
`ValidatedDaysToCheck`, `ValidateEmptyConfig`) are stated for `Loader` itself.

Where the design description and the code differ, the model follows the code:

- The EC2 scanner's own fallback for `exclude_instance_types` is the empty list. The
  configuration defaults list `t2.nano` and `t3.nano`, so after validation the nano types
  are excluded unless the user replaces the list.
- Savings are non-negative only for non-negative sizes. An EBS volume of negative size
  would give a negative cost, and `CalculateVolumeCost` states the bound under that
  condition.

## Model

| member | source | states |
|---|---|---|
| BaseScanner.ShouldExcludeResource | src/scanners/base_scanner.py:121-135 | the result is true exactly when some tag matches some entry: its key equals a bare-string entry, or its key is in a mapping entry whose value is the tag's value; a missing Key or Value reads as "" |
| BaseScanner.NoEntriesExcludeNothing | src/scanners/base_scanner.py:121-135 | with an empty `exclude_tags` list no tag list is excluded |
| BaseScanner.ExcludeEntriesFaithful | src/scanners/base_scanner.py:127-133 | turning the raw `exclude_tags` items into entries (strings as bare keys, mappings as key/`str(value)` pairs, other items dropped) keeps exactly the tags the source's comparisons match |
| BaseScanner.ItemEntriesFaithful | src/scanners/base_scanner.py:127-133 | one `exclude_tags` item's entries match a tag exactly when the source's comparisons for that item do |
| BaseScanner.TableRatesPositive | src/scanners/base_scanner.py:88-106 | every rate in the EC2 and RDS hourly table is positive |
| BaseScanner.CalculateCostSavings | src/scanners/base_scanner.py:88-109 | a known (service, type) pair gives its table rate times the hours per month (default 730); any other pair the 0.05 default rate; and the savings are non-negative for non-negative hours |
| BaseScanner.CreateFinding | src/scanners/base_scanner.py:137-170 | the record holds its arguments unchanged; missing metadata becomes the empty mapping |
| BaseScanner.CreateFindingDefaults | src/scanners/base_scanner.py:137-142 | the omitted arguments default to savings 0, no recommendation, severity medium and empty metadata |
| BaseScanner.HighBelow | src/scanners/ec2_scanner.py:152 | the shared severity choice is high exactly when the statistic is under the cutoff, and medium otherwise; never low |
| BaseScanner.HighBelowMonotone | src/scanners/rds_scanner.py:118 | a lower statistic never gets a lower severity |
| BaseScanner.TextItems | src/scanners/ec2_scanner.py:74-75 | the names a list setting offers to an `in` test are exactly its string items |
| Values.NumberOf | src/utils/config_loader.py:121 | a value has a numeric reading exactly when it is a bool, an int or a float, the kinds Python compares with a number |
| Stats.Max | src/scanners/ec2_scanner.py:145 | `max` is an element of the series and no element exceeds it |
| Stats.MaxAtLeastMean | src/scanners/ec2_scanner.py:144-145 | the maximum of a non-empty series is at least its mean |
| Stats.SumNonNegative | src/scanners/ebs_scanner.py:162-164 | operation counts that are each non-negative have a non-negative total |
| Numerals.NatToDecimal | src/scanners/ebs_scanner.py:104 | the decimal text of a count is non-empty, all digits, without a leading zero |
| Numerals.DecimalRoundTrip | src/scanners/ebs_scanner.py:104 | reading the decimal text of a count gives the count back |
| Numerals.IntToDecimal | src/scanners/ebs_scanner.py:104 | the text starts with a minus sign exactly when the number is negative, and the rest is non-empty, all digits, without a leading zero |
| Numerals.IntDecimalRoundTrip | src/scanners/ebs_scanner.py:104 | reading the signed text of a day count back gives the count |
| Numerals.RoundHalfEven | src/scanners/ec2_scanner.py:158 | the result is within half a unit of the exact value, and even when the value lies exactly half way |
| Numerals.RoundHalfEvenUnique | src/scanners/ec2_scanner.py:158 | no other integer is within half a unit and even at a tie, so the rounding is determined |
| Numerals.Fixed1 | src/scanners/ec2_scanner.py:158 | the `:.1f` text ends in a point and one digit |
| Numerals.Fixed1Value | src/scanners/ec2_scanner.py:158 | the text has a minus sign exactly for a negative value, and its digits around the point denote the magnitude of the value rounded half-even to tenths |
| Ec2Scanner.Ec2SettingsOf | src/scanners/ec2_scanner.py:74-147 | the settings are read exactly when every present threshold is a number and every present list setting a list; a missing setting reads as the scanner's default (cpu 5, days 14, no excluded types or tags); a present number as its value, a present type list as its string items, present `exclude_tags` as its entries; an empty section gives all defaults |
| Ec2Scanner.StoppedInstanceFinding | src/scanners/ec2_scanner.py:89-110 | the stopped finding is issue `stopped_instance`, severity medium, savings `calculate_cost_savings('ec2', type)` and positive |
| Ec2Scanner.LowCpuFinding | src/scanners/ec2_scanner.py:143-170 | issue `low_cpu_utilization`; severity high exactly when the mean is under 1, never low; savings the EC2 rate of the type; recorded maximum never below the recorded mean |
| Ec2Scanner.CheckCpuUtilization | src/scanners/ec2_scanner.py:112-175 | at most one finding, present exactly when the series is non-empty and its mean is under `cpu_threshold`; an empty series gives none |
| Ec2Scanner.AnalyzeInstance | src/scanners/ec2_scanner.py:47-87 | terminated, tag-excluded or type-excluded instances give none; a stopped one gives exactly the stopped finding; a running one the CPU finding exactly when the CPU is low; other states none; never more than one |
| RdsScanner.RdsSettingsOf | src/scanners/rds_scanner.py:66-163 | the settings are read exactly when every present threshold is a number and a present `exclude_engines` a list; missing settings read as the scanner's defaults (cpu 10, connections 5, days 14, no excluded engines, minimum age 7); present numbers as their values, present engines as the list's string items |
| RdsScanner.LowCpuFinding | src/scanners/rds_scanner.py:111-135 | issue `low_cpu_utilization`; severity high exactly when the mean is under 2, never low; savings `calculate_cost_savings('rds', class)`, positive |
| RdsScanner.LowConnectionFinding | src/scanners/rds_scanner.py:161-185 | issue `low_connection_count`; severity high exactly when the mean is under 1, never low; the same savings as the CPU finding |
| RdsScanner.CheckCpuUtilization | src/scanners/rds_scanner.py:89-137 | the CPU finding alone exactly when the series is non-empty and its mean is under `cpu_threshold`, and no finding otherwise |
| RdsScanner.CheckDatabaseConnections | src/scanners/rds_scanner.py:139-187 | the connection finding alone exactly when the series is non-empty and its mean is under `connection_threshold`, and no finding otherwise |
| RdsScanner.MetricFindings | src/scanners/rds_scanner.py:79-87 | as many findings as checks that fire (so at most two), any CPU finding first and any connection finding last, all for the instance with the RDS savings |
| RdsScanner.AnalyzeDbInstance | src/scanners/rds_scanner.py:44-87 | a status other than available, an excluded engine, or a creation time younger than `minimum_age_days` gives none; otherwise exactly the two checks' findings, CPU first; no creation time skips the age gate |
| RdsScanner.CheckMetrics | src/scanners/rds_scanner.py:79-87 | the CPU check's findings followed by the connection check's |
| EbsScanner.EbsSettingsOf | src/scanners/ebs_scanner.py:68-170 | the settings are read exactly when every present threshold is a number and every present list setting a list; missing settings read as the scanner's defaults (days 7, iops 1, no tags, types gp2/gp3/io1/io2); present numbers as their values, present types as the list's string items, present `exclude_tags` as its entries |
| EbsScanner.CalculateVolumeCost | src/scanners/ebs_scanner.py:198-221 | size times the per-GB rate of the type, 0.10 for an unknown type; non-negative for non-negative sizes and positive for positive ones |
| EbsScanner.UnattachedVolumeFinding | src/scanners/ebs_scanner.py:83-115 | issue `unattached_volume`; severity high exactly when unattached over 30 days, else medium (no creation time counts as 0 days); savings the full volume cost |
| EbsScanner.LowVolumeUtilizationFinding | src/scanners/ebs_scanner.py:161-194 | issue `low_volume_utilization`; severity medium exactly when the daily average is 0, else low; savings half the volume cost |
| EbsScanner.UtilizationSavesHalfOfDeletion | src/scanners/ebs_scanner.py:105 | twice the utilisation finding's savings is the unattached finding's savings for the same volume |
| EbsScanner.CheckVolumeUtilization | src/scanners/ebs_scanner.py:117-196 | the low-utilisation finding exactly when some operation series is non-empty and (reads + writes) / `days_to_check` (0 when days is not positive) is under `iops_threshold`; none when both series are empty |
| EbsScanner.AnalyzeVolume | src/scanners/ebs_scanner.py:44-81 | tag-excluded volumes and types outside `include_volume_types` give none; available gives exactly the unattached finding; in-use the utilisation check's result; other states none; at most one finding |
| ConfigLoader.SectionOrderCoversDefaults | src/utils/config_loader.py:52-84 | the section order lists each default section once |
| ConfigLoader.GetDefaultConfig | src/utils/config_loader.py:50-84 | the default document has exactly the sections of the defaults table |
| ConfigLoader.DefaultSections | src/utils/config_loader.py:50-84 | the default document has exactly the five sections ec2, rds, ebs, cost_calculation and reporting, every one a mapping |
| ConfigLoader.DefaultCpuThresholds | src/utils/config_loader.py:53-66 | the default ec2 `cpu_threshold` is 5 and the default rds `cpu_threshold` is 10 |
| ConfigLoader.ThresholdRulesWellFormed | src/utils/config_loader.py:119-140 | the five checks have consistent bounds, target distinct settings and only settings that have defaults |
| ConfigLoader.DefaultThresholdsSettled | src/utils/config_loader.py:52-72 | every default threshold and day count is a number the checks leave alone |
| ConfigLoader.Clamp | src/utils/config_loader.py:121-140 | a number comes out within the rule's bounds, unchanged when already within them; anything else is unchanged |
| ConfigLoader.ApplyRule | src/utils/config_loader.py:120-123 | one check raises nothing exactly when its section is absent, or is a mapping whose setting, if present, is a number |
| ConfigLoader.ApplyRulesAppend | src/utils/config_loader.py:119-140 | running two lists of checks in turn is running their concatenation, stopping at the first error |
| ConfigLoader.ApplyRulesEffect | src/utils/config_loader.py:119-140 | the checks succeed exactly when each can run on the input; then only the checked settings of existing mapping sections change, each to its clamped value |
| ConfigLoader.SettledUnchanged | src/utils/config_loader.py:119-140 | on a document whose checked settings are numbers in range the checks change nothing |
| ConfigLoader.LoaderIsValid | src/utils/config_loader.py:97-110 | the source's sections, defaults and checks meet the assumptions of the schema lemmas |
| ConfigLoader.DefaultConfigIsLoaders | src/utils/config_loader.py:50-84 | the schema's default document is `_get_default_config` |
| ConfigLoader.FirstBadSection | src/utils/config_loader.py:100-107 | there is no bad section exactly when every listed one is a mapping or absent; otherwise it returns a listed section that is present and not a mapping |
| ConfigLoader.FirstBadIsFirst | src/utils/config_loader.py:100-107 | the error names the first section in default order that is present and not a mapping |
| ConfigLoader.MergedSectionOverlays | src/utils/config_loader.py:101-107 | a merged section is the defaults overlaid with the user's entries |
| ConfigLoader.Merged | src/utils/config_loader.py:100-107 | the merge succeeds exactly when every default section the user gave is a mapping, and an error names such a section |
| ConfigLoader.MergedSections | src/utils/config_loader.py:100-107 | the merged document has the user's sections plus every default section |
| ConfigLoader.MergedKeepsOtherSections | src/utils/config_loader.py:100-107 | a section the defaults do not know is kept as given |
| ConfigLoader.MergedOverlaysDefaults | src/utils/config_loader.py:100-107 | a default section becomes its defaults overlaid with the user's entries, so user keys win and unknown user keys stay |
| ConfigLoader.MergeSection | src/utils/config_loader.py:105-107 | the key loop leaves the defaults overlaid with the user's entries |
| ConfigLoader.MergeSectionsKeys | src/utils/config_loader.py:100-107 | after merging some sections the document has its own sections plus those of them the defaults know |
| ConfigLoader.MergeSectionsUntouched | src/utils/config_loader.py:100-107 | a section not yet merged, or unknown to the defaults, is kept exactly as the user wrote it |
| ConfigLoader.MergeSectionsMerged | src/utils/config_loader.py:101-107 | a merged default section is its merged form, and merging it a second time changes nothing |
| ConfigLoader.MergeLoopStep | src/utils/config_loader.py:100-107 | in pass `i` a non-mapping section is the one the merge reports; otherwise the pass extends the merge of the sections before it |
| ConfigLoader.MergeDefaultSection | src/utils/config_loader.py:101-107 | one section step raises on a present non-mapping section and otherwise installs the merged section |
| ConfigLoader.MergeDefaults | src/utils/config_loader.py:100-107 | the section loop computes `Merged`, raising at the first non-mapping section in default order |
| ConfigLoader.ValidatedOkIff | src/utils/config_loader.py:97-112 | validation raises nothing exactly when the user's default sections are mappings and the user's checked settings are numbers |
| ConfigLoader.ValidatedSection | src/utils/config_loader.py:100-140 | each default section of the result has the default keys plus the user's keys, each value the overlay as the checks leave it |
| ConfigLoader.ValidatedHasDefaults | src/utils/config_loader.py:100-107 | after validation every default section exists and holds every default key |
| ConfigLoader.ValidatedKeepsUserSettings | src/utils/config_loader.py:100-107 | unknown sections are kept as given, and a user value for a setting no check looks at is kept |
| ConfigLoader.ValidatedThreshold | src/utils/config_loader.py:119-140 | each checked setting ends as a number within bounds, unchanged when already within them, and the bound it crossed otherwise |
| ConfigLoader.ValidatedIsSettled | src/utils/config_loader.py:97-140 | a validated document has every checked setting in range |
| ConfigLoader.MergeComplete | src/utils/config_loader.py:100-107 | merging a document that already holds every default section and key changes nothing |
| ConfigLoader.ValidateIdempotent | src/utils/config_loader.py:97-112 | validating a validated document gives it back unchanged |
| ConfigLoader.ValidateEmpty | src/utils/config_loader.py:97-112 | validating the empty document gives the schema's defaults |
| ConfigLoader.ValidatedCpuThresholds | src/utils/config_loader.py:120-129 | after validation ec2 and rds `cpu_threshold` are at most 100; a user value at most 100, negatives included, is kept; a larger one becomes 100 |
| ConfigLoader.ValidatedDaysToCheck | src/utils/config_loader.py:132-140 | after validation ec2, rds and ebs `days_to_check` lie in [1, 90]; in-range user values are kept, larger become 90, smaller become 1 |
| ConfigLoader.ValidateEmptyConfig | src/utils/config_loader.py:97-112 | validating the empty document gives `_get_default_config` |
| ConfigLoader.ClampSetting | src/utils/config_loader.py:120-140 | one check in imperative form computes `ApplyRule` |
| ConfigLoader.ValidateThresholds | src/utils/config_loader.py:115-140 | the two CPU checks and the day-count loop over ec2, rds, ebs compute the five rules in order |
| ConfigLoader.ValidateConfig | src/utils/config_loader.py:87-112 | `_validate_config` computes the merge followed by the checks |
| ScanRun.ScannerConfig | src/main.py:77-81 | a scanner gets its section, or the empty mapping when the section is absent |
| ScanRun.TotalSavingsAppend | src/main.py:84-94 | the savings of a concatenation are the sum of the parts' savings |
| ScanRun.TotalSavingsNonNegative | src/main.py:93-94 | non-negative savings sum to a non-negative total |
| ScanRun.Concat | src/main.py:87-90 | the concatenation of the scanner lists is as long as their lengths together |
| ScanRun.RunScans | src/main.py:77-106 | the findings are the EC2, RDS and EBS lists in that order with nothing dropped; the total savings, summed per scanner, equals the sum over the concatenation; `total_findings` is its length |
| ScanRun.ScannerSettingsInRange | src/utils/config_loader.py:119-140 | the sections a validated document gives the scanners are mappings, and whenever a scanner can read its settings they have CPU thresholds at most 100 and day counts in [1, 90] |
| HtmlReporter.Entries | src/reporters/html_reporter.py:45 | the reporter sees one entry per finding |
| HtmlReporter.ServicesSpec | src/reporters/html_reporter.py:50-55 | the dictionary keys are the resource types that occur ('Unknown' for a missing one), each once |
| HtmlReporter.FindingsOfSpec | src/reporters/html_reporter.py:50-55 | a group holds only findings of its type and never more than all of them |
| HtmlReporter.NoGroupOutsideServices | src/reporters/html_reporter.py:50-55 | a type that never occurs has no findings |
| HtmlReporter.FindingsOfAppend | src/reporters/html_reporter.py:51-55 | grouping keeps the input order: the group of a concatenation is the groups of the parts in turn |
| HtmlReporter.FindingsOfOne | src/reporters/html_reporter.py:52-55 | a finding lands in the group of its own type and in no other |
| HtmlReporter.GroupStep | src/reporters/html_reporter.py:51-55 | one more finding adds its type to the keys when the type is new, and appends the finding to its own type's list and to no other |
| HtmlReporter.GroupByService | src/reporters/html_reporter.py:50-55 | the loop's keys, in insertion order, are `Services`, and each key's list is that type's findings in input order |
| HtmlReporter.RowsStep | src/reporters/html_reporter.py:110-116 | one more finding adds one to the count and its savings to the total of the headers of its type, and nothing to the others |
| HtmlReporter.RowsCover | src/reporters/html_reporter.py:110-116 | the headers of distinct types count and sum exactly the findings of those types |
| HtmlReporter.FullCover | src/reporters/html_reporter.py:110-116 | when every finding's type has a header, the covered findings are all of them, savings included |
| HtmlReporter.GroupsAddUp | src/reporters/html_reporter.py:96-116 | the service headers' counts add up to the number of findings and their savings to the total savings (missing as 0) |
| HtmlReporter.ServicesCount | src/reporters/html_reporter.py:104 | the number of groups is the number of distinct resource types |
| HtmlReporter.ServiceSummaries | src/reporters/html_reporter.py:96-116 | Total Findings is the number of findings, Services Analyzed the number of groups, and each header's count and savings is its group's |
| HtmlReporter.EntriesSavingsOfFindings | src/reporters/html_reporter.py:111 | the reporter's savings over a scan's findings are the scan's total |
| HtmlReporter.ReportGroupsMatchTotal | src/reporters/html_reporter.py:110-111 | each finding of a scan goes to its record's resource type, and the headers' savings add up to the report's total potential savings |
| HtmlReporter.EntriesOfFindings | src/reporters/html_reporter.py:45 | the entry at each position is that finding's record |
| HtmlReporter.CardOf | src/reporters/html_reporter.py:121-126 | a missing severity is "medium", a missing id "Unknown", a missing description or recommendation empty, missing savings 0, missing metadata empty; every present field is shown as given |
| HtmlReporter.CardOfFinding | src/reporters/html_reporter.py:121-129 | a scan's finding shows its own fields, and its severity class is low, medium or high |
| HtmlReporter.RStripSpec | src/reporters/html_reporter.py:149 | `rstrip(', ')` removes only trailing commas and spaces and leaves text that does not end in one |
| HtmlReporter.RStripKeepsHead | src/reporters/html_reporter.py:149 | the strip never reaches into text before a kept character |
| HtmlReporter.WithoutRegion | src/reporters/html_reporter.py:147 | the metadata without `region` holds no `region` entry |
| HtmlReporter.AppendMetadata | src/reporters/html_reporter.py:144-149 | empty metadata adds nothing; otherwise the opening, the `key: value, ` items, the strip and `</div>` |
| HtmlReporter.DetailItemsSkipRegion | src/reporters/html_reporter.py:146-148 | the detail line is that of the metadata without its `region` entries |
| HtmlReporter.DetailItemsPrefix | src/reporters/html_reporter.py:146-148 | the items are listed in metadata order |
| HtmlReporter.DetailLineShape | src/reporters/html_reporter.py:144-149 | the html before is kept, the line ends in `</div>`, and the character before it is neither a comma nor a space |
| HtmlReporter.DetailLineListsKey | src/reporters/html_reporter.py:146-149 | every key other than `region` is listed with its colon, after the items before it, whatever the strip removes |

## Left out

- AWS access is not modelled: boto3 sessions, the client cache, region discovery, pagination,
  every `scan()` loop and its catch-all exception handler, and `get_cloudwatch_metrics`.
  They are network I/O. The describe calls' records and the metric series are inputs.
- The clock is not read: `found_at`, `scan_timestamp` and the ages computed with
  `datetime.utcnow()` are inputs (`Timestamp.ageDays`, `scanTimestamp`) or are dropped.
- `ConfigLoader.load` is not modelled, because it is file access and YAML parsing.
  The document it parses is the input of `ValidateConfig`.
- The JSON reporter, the HTML template, the writing of the report file, argparse, logging,
  `print` and `sys.exit` are not modelled. They are fixed text or I/O.
- Floating point is replaced by exact reals. Where the source would round, sums, means
  and comparisons are exact.
  - `round(x, 2)` in metadata is kept as the exact value (`MRounded`).
  - `Numerals.Fixed1` rounds the exact value half-even to one decimal and renders it as `:.1f`.
- HtmlReporter.AppendMetadata: how `str()` renders a metadata value (int against float,
  rounded floats, `None`) is the parameter `show`, not modelled.
- The `:.2f` rendering of the savings in the HTML headers and cards is not modelled: rows carry the
  exact amounts.
- HtmlReporter.Entries: the `.get` fallbacks of `main` and of the reporter for a finding
  without `monthly_savings`, `resource_type` or `severity` never apply, because every
  finding is built by `create_finding`. They are modelled on `Entry` with optional fields,
  and `ScanRun.TotalSavings` reads the field directly.
- BaseScanner.ExcludeEntriesFaithful: `str()` of a float or container value in a
  key/value `exclude_tags` entry is not modelled. Such a pair is treated as never matching.
- `Ec2Scanner.Ec2SettingsOf`, `RdsScanner.RdsSettingsOf` and `EbsScanner.EbsSettingsOf`
  give `None` whenever a present threshold is not a number or a present list setting is
  not a list. The scanners' models take already-read settings. Python behaves thus:
  - A threshold that is not a number raises, but only when the comparison is reached.
  - For `exclude_instance_types`, `exclude_engines` and `include_volume_types`, the `in`
    test never raises on a string or a mapping. A string gives a substring test, so
    `"nano"` excludes type `t2.nano`. A mapping gives a key test. Other non-list values
    raise.
  - `exclude_tags` is iterated. A mapping yields its keys, each matched as a bare key, so
    `{Environment: prod}` excludes every resource tagged `Environment` whatever the
    value. A string yields its characters as bare keys. Other non-list values raise.
  - The model gives `None` for all of these cases.
- ConfigLoader.Merged: a user section that is a string or a list raises in the model.
  In Python the `in` test on such a section does not raise when every default key name
  happens to be one of its elements or substrings. That corner is not modelled.
- ConfigLoader.ValidateConfig returns the new document instead of mutating the caller's
  dictionary. It does not model two things:
  - the partial mutation left behind when Python raises half way;
  - the sharing of a default section dictionary after `config[section] = default_values`.
- ConfigLoader.ValidateConfig: a document whose top level is not a mapping cannot be
  expressed, because `Config` is a map. An empty YAML file is one: `yaml.safe_load`
  returns `None`, `load` passes it on, and the first `section not in config` test raises
  `TypeError`.
- Non-string keys, NaN and infinities in the configuration document are not modelled.
- The `region` argument of the cost functions is not modelled, because the source ignores it.
- `RdsScanner.CheckMetrics` has no counterpart of its own in the source. It is the last two
  steps of `_analyze_db_instance` (lines 79-87), split out to keep the proof small.
