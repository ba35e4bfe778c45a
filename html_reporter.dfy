/** The parts of the HTML reporter that compute something: findings grouped by their
    resource type in order of first appearance, the per-service counts and savings of the
    service headers, the field defaults of a finding card, and the metadata detail line. */
module HtmlReporter {
  import opened Common
  import opened BaseScanner
  import ScanRun

  /** A finding as the reporter reads it: every key it looks up may be missing. */
  datatype Entry = Entry(
    resourceType: Option<string>,
    resourceId: Option<string>,
    severity: Option<string>,
    description: Option<string>,
    monthlySavings: Option<real>,
    recommendation: Option<string>,
    metadata: Option<Metadata>)

  /** The dictionary a finding record becomes: every key present. */
  function EntryOf(f: Finding): Entry {
    Entry(Some(f.resourceType), Some(f.resourceId), Some(f.severity.Name()), Some(f.description),
          Some(f.monthlySavings), Some(f.recommendation), Some(f.metadata))
  }

  /** The entries of a list of finding records. */
  function Entries(fs: seq<Finding>): (es: seq<Entry>)
    ensures |es| == |fs|
  {
    if fs == [] then [] else Entries(fs[..|fs| - 1]) + [EntryOf(fs[|fs| - 1])]
  }

  /** `finding.get('resource_type', 'Unknown')`: the group a finding goes to. */
  function ServiceOf(e: Entry): string {
    e.resourceType.GetOr("Unknown")
  }

  /** `f.get('monthly_savings', 0)`. */
  function SavingsOf(e: Entry): real {
    e.monthlySavings.GetOr(0.0)
  }

  /** The summed savings of `es`, a missing value counting as 0. */
  function EntriesSavings(es: seq<Entry>): real {
    if es == [] then 0.0 else EntriesSavings(es[..|es| - 1]) + SavingsOf(es[|es| - 1])
  }

  /** No element of `ss` occurs twice. */
  predicate Distinct(ss: seq<string>) {
    forall j, k :: 0 <= j < k < |ss| ==> ss[j] != ss[k]
  }

  /** The keys of `findings_by_service` in insertion order: each resource type once, in the
      order of its first finding. */
  function Services(es: seq<Entry>): seq<string> {
    if es == [] then []
    else
      var ss := Services(es[..|es| - 1]);
      var s := ServiceOf(es[|es| - 1]);
      if s in ss then ss else ss + [s]
  }

  /** The services are exactly the types that occur, none twice. */
  lemma ServicesSpec(es: seq<Entry>)
    ensures Distinct(Services(es))
    ensures forall i :: 0 <= i < |es| ==> ServiceOf(es[i]) in Services(es)
    ensures forall j :: 0 <= j < |Services(es)| ==> exists i :: 0 <= i < |es| && ServiceOf(es[i]) == Services(es)[j]
  {
    ServicesDistinct(es);
    ServicesCover(es);
    ServicesOccur(es);
  }

  /** No service is listed twice. */
  lemma {:induction false} ServicesDistinct(es: seq<Entry>)
    ensures Distinct(Services(es))
    decreases |es|
  {
    if es != [] {
      ServicesDistinct(es[..|es| - 1]);
    }
  }

  /** Every finding's type is listed. */
  lemma {:induction false} ServicesCover(es: seq<Entry>)
    ensures forall i :: 0 <= i < |es| ==> ServiceOf(es[i]) in Services(es)
    decreases |es|
  {
    if es != [] {
      var init := es[..|es| - 1];
      ServicesCover(init);
      assert forall i :: 0 <= i < |init| ==> init[i] == es[i];
    }
  }

  /** Every listed service is the type of some finding. */
  lemma {:induction false} ServicesOccur(es: seq<Entry>)
    ensures forall j :: 0 <= j < |Services(es)| ==> exists i :: 0 <= i < |es| && ServiceOf(es[i]) == Services(es)[j]
    decreases |es|
  {
    if es != [] {
      var init := es[..|es| - 1];
      var ss := Services(init);
      var all := Services(es);
      ServicesOccur(init);
      forall j | 0 <= j < |all|
        ensures exists i :: 0 <= i < |es| && ServiceOf(es[i]) == all[j]
      {
        if j < |ss| {
          var i :| 0 <= i < |init| && ServiceOf(init[i]) == ss[j];
          assert es[i] == init[i];
          assert all[j] == ss[j];
          assert ServiceOf(es[i]) == all[j];
        } else {
          assert ServiceOf(es[|es| - 1]) == all[j];
        }
      }
    } else {
      assert Services(es) == [];
    }
  }

  /** The group of service `s`: the findings of that resource type, in input order. */
  function FindingsOf(es: seq<Entry>, s: string): seq<Entry> {
    if es == [] then []
    else FindingsOf(es[..|es| - 1], s) + (if ServiceOf(es[|es| - 1]) == s then [es[|es| - 1]] else [])
  }

  /** A group holds only findings of its type, and no more than there are findings. */
  lemma {:induction false} FindingsOfSpec(es: seq<Entry>, s: string)
    ensures |FindingsOf(es, s)| <= |es|
    ensures forall i :: 0 <= i < |FindingsOf(es, s)| ==> ServiceOf(FindingsOf(es, s)[i]) == s
    decreases |es|
  {
    if es != [] {
      FindingsOfSpec(es[..|es| - 1], s);
    }
  }

  /** A type that is not among the services has an empty group. */
  lemma {:induction false} NoGroupOutsideServices(es: seq<Entry>, s: string)
    requires s !in Services(es)
    ensures FindingsOf(es, s) == []
    decreases |es|
  {
    if es != [] {
      var init := es[..|es| - 1];
      assert s != ServiceOf(es[|es| - 1]);
      assert s !in Services(init);
      NoGroupOutsideServices(init, s);
    }
  }

  /** Grouping keeps the input order: the group of a concatenation is the group of the
      first part followed by the group of the second. */
  lemma {:induction false} FindingsOfAppend(a: seq<Entry>, b: seq<Entry>, s: string)
    ensures FindingsOf(a + b, s) == FindingsOf(a, s) + FindingsOf(b, s)
    decreases |b|
  {
    if b == [] {
      assert a + b == a;
    } else {
      var b' := b[..|b| - 1];
      assert (a + b)[..|a + b| - 1] == a + b';
      FindingsOfAppend(a, b', s);
    }
  }

  /** A single finding goes to the group of its own resource type and to no other. */
  lemma FindingsOfOne(e: Entry, s: string)
    ensures FindingsOf([e], s) == if ServiceOf(e) == s then [e] else []
  {
    assert [e][..0] == [];
  }

  /** `findings_by_service` as an insertion-ordered dictionary: the keys `services` in
      insertion order and the map from each to its list. */
  method GroupByService(entries: seq<Entry>) returns (services: seq<string>, groups: map<string, seq<Entry>>)
    ensures services == Services(entries)
    ensures forall s :: s in groups <==> s in services
    ensures forall s :: s in groups ==> groups[s] == FindingsOf(entries, s)
  {
    services := [];
    groups := map[];
    for i := 0 to |entries|
      invariant services == Services(entries[..i])
      invariant forall s :: s in groups <==> s in services
      invariant forall s :: s in groups ==> groups[s] == FindingsOf(entries[..i], s)
    {
      var finding := entries[i];
      var service := ServiceOf(finding);
      GroupStep(entries, i);
      if service !in groups {
        NoGroupOutsideServices(entries[..i], service);
        services := services + [service];
        groups := groups[service := []];
      }
      groups := groups[service := groups[service] + [finding]];
    }
    assert entries[..|entries|] == entries;
  }

  /** One more finding: its type joins the services when it is new, and the finding
      joins the end of its own group and of no other. */
  lemma GroupStep(entries: seq<Entry>, i: int)
    requires 0 <= i < |entries|
    ensures var ss := Services(entries[..i]);
      Services(entries[..i + 1]) == if ServiceOf(entries[i]) in ss then ss else ss + [ServiceOf(entries[i])]
    ensures forall s ::
      FindingsOf(entries[..i + 1], s) == FindingsOf(entries[..i], s) + (if ServiceOf(entries[i]) == s then [entries[i]] else [])
  {
    assert entries[..i + 1][..i] == entries[..i];
  }

  /** A service header: the service, its number of findings and its summed savings. */
  datatype ServiceRow = ServiceRow(service: string, count: int, savings: real)

  /** The header of service `s`. */
  function RowOf(es: seq<Entry>, s: string): ServiceRow {
    var group := FindingsOf(es, s);
    ServiceRow(s, |group|, EntriesSavings(group))
  }

  /** The headers of the services `ss`, in that order. */
  function Rows(es: seq<Entry>, ss: seq<string>): (rows: seq<ServiceRow>)
    ensures |rows| == |ss|
  {
    if ss == [] then [] else Rows(es, ss[..|ss| - 1]) + [RowOf(es, ss[|ss| - 1])]
  }

  /** The summed counts of `rows`. */
  function CountTotal(rows: seq<ServiceRow>): int {
    if rows == [] then 0 else CountTotal(rows[..|rows| - 1]) + rows[|rows| - 1].count
  }

  /** The summed savings of `rows`. */
  function SavingsTotal(rows: seq<ServiceRow>): real {
    if rows == [] then 0.0 else SavingsTotal(rows[..|rows| - 1]) + rows[|rows| - 1].savings
  }

  /** One more finding adds one to the count and its savings to the total of the headers
      of distinct services when its type is among them, and nothing otherwise. */
  lemma {:induction false} RowsStep(init: seq<Entry>, e: Entry, ss: seq<string>)
    requires Distinct(ss)
    ensures CountTotal(Rows(init + [e], ss))
            == CountTotal(Rows(init, ss)) + (if ServiceOf(e) in ss then 1 else 0)
    ensures SavingsTotal(Rows(init + [e], ss))
            == SavingsTotal(Rows(init, ss)) + (if ServiceOf(e) in ss then SavingsOf(e) else 0.0)
    decreases |ss|
  {
    if ss != [] {
      var ss' := ss[..|ss| - 1];
      var t := ss[|ss| - 1];
      assert Distinct(ss');
      RowsStep(init, e, ss');
      var es := init + [e];
      assert es[..|es| - 1] == init;
      var old_ := FindingsOf(init, t);
      if ServiceOf(e) == t {
        assert FindingsOf(es, t) == old_ + [e];
        assert (old_ + [e])[..|old_|] == old_;
        assert ServiceOf(e) !in ss';
      } else {
        assert FindingsOf(es, t) == old_;
      }
    }
  }

  /** The number of findings in `es` whose type is among `ss`. */
  function CoveredCount(es: seq<Entry>, ss: seq<string>): int {
    if es == [] then 0
    else CoveredCount(es[..|es| - 1], ss) + (if ServiceOf(es[|es| - 1]) in ss then 1 else 0)
  }

  /** The summed savings of the findings in `es` whose type is among `ss`. */
  function CoveredSavings(es: seq<Entry>, ss: seq<string>): real {
    if es == [] then 0.0
    else CoveredSavings(es[..|es| - 1], ss) + (if ServiceOf(es[|es| - 1]) in ss then SavingsOf(es[|es| - 1]) else 0.0)
  }

  /** With no findings every header is empty. */
  lemma {:induction false} RowsOfNothing(ss: seq<string>)
    ensures CountTotal(Rows([], ss)) == 0 && SavingsTotal(Rows([], ss)) == 0.0
    decreases |ss|
  {
    if ss != [] {
      RowsOfNothing(ss[..|ss| - 1]);
    }
  }

  /** The headers of distinct services count and sum exactly the findings of those
      services. */
  lemma {:induction false} RowsCover(es: seq<Entry>, ss: seq<string>)
    requires Distinct(ss)
    ensures CountTotal(Rows(es, ss)) == CoveredCount(es, ss)
    ensures SavingsTotal(Rows(es, ss)) == CoveredSavings(es, ss)
    decreases |es|
  {
    if es == [] {
      RowsOfNothing(ss);
    } else {
      var init := es[..|es| - 1];
      assert es == init + [es[|es| - 1]];
      RowsCover(init, ss);
      RowsStep(init, es[|es| - 1], ss);
    }
  }

  /** When every finding's type is among `ss`, all findings are covered. */
  lemma {:induction false} FullCover(es: seq<Entry>, ss: seq<string>)
    requires forall i :: 0 <= i < |es| ==> ServiceOf(es[i]) in ss
    ensures CoveredCount(es, ss) == |es|
    ensures CoveredSavings(es, ss) == EntriesSavings(es)
    decreases |es|
  {
    if es != [] {
      var init := es[..|es| - 1];
      assert forall i :: 0 <= i < |init| ==> init[i] == es[i];
      FullCover(init, ss);
    }
  }

  /** The service headers of a finding list account for every finding once: their counts
      add up to the number of findings and their savings to the total savings. */
  lemma GroupsAddUp(es: seq<Entry>)
    ensures CountTotal(Rows(es, Services(es))) == |es|
    ensures SavingsTotal(Rows(es, Services(es))) == EntriesSavings(es)
  {
    ServicesSpec(es);
    RowsCover(es, Services(es));
    FullCover(es, Services(es));
  }

  /** The elements of a sequence without repeats are as many as its length. */
  lemma {:induction false} DistinctCardinality(ss: seq<string>)
    requires Distinct(ss)
    ensures |set s | s in ss| == |ss|
    decreases |ss|
  {
    if ss != [] {
      var ss' := ss[..|ss| - 1];
      var t := ss[|ss| - 1];
      assert Distinct(ss');
      DistinctCardinality(ss');
      assert ss == ss' + [t];
      assert (set s | s in ss) == (set s | s in ss') + {t};
      assert t !in (set s | s in ss');
    }
  }

  /** The number of groups is the number of distinct resource types among the findings. */
  lemma ServicesCount(es: seq<Entry>)
    ensures |Services(es)| == |set i | 0 <= i < |es| :: ServiceOf(es[i])|
  {
    var ss := Services(es);
    ServicesSpec(es);
    DistinctCardinality(ss);
    assert (set s | s in ss) == (set i | 0 <= i < |es| :: ServiceOf(es[i]));
  }

  /** The summary of `_generate_html`: the Total Findings and Services Analyzed cards and
      the service headers of the per-service loop, in dictionary order. */
  method ServiceSummaries(entries: seq<Entry>)
    returns (totalFindings: int, servicesAnalyzed: int, rows: seq<ServiceRow>)
    ensures totalFindings == |entries|
    ensures servicesAnalyzed == |Services(entries)| == |rows|
    ensures rows == Rows(entries, Services(entries))
  {
    var services, groups := GroupByService(entries);
    totalFindings := |entries|;
    servicesAnalyzed := |services|;
    rows := [];
    for j := 0 to |services|
      invariant rows == Rows(entries, services[..j])
    {
      assert services[..j + 1][..j] == services[..j];
      var service := services[j];
      var serviceFindings := groups[service];
      var serviceSavings := EntriesSavings(serviceFindings);
      rows := rows + [ServiceRow(service, |serviceFindings|, serviceSavings)];
    }
    assert services[..|services|] == services;
  }

  /** The entries of finding records have the records' savings. */
  lemma {:induction false} EntriesSavingsOfFindings(fs: seq<Finding>)
    ensures EntriesSavings(Entries(fs)) == ScanRun.TotalSavings(fs)
    decreases |fs|
  {
    if fs != [] {
      var es := Entries(fs);
      assert es[..|es| - 1] == Entries(fs[..|fs| - 1]);
      EntriesSavingsOfFindings(fs[..|fs| - 1]);
    }
  }

  /** For the findings of a scan run, each finding's group is its record's resource type,
      and the service headers' savings add up to the report's total potential savings. */
  lemma ReportGroupsMatchTotal(fs: seq<Finding>)
    ensures forall i :: 0 <= i < |fs| ==> ServiceOf(Entries(fs)[i]) == fs[i].resourceType
    ensures SavingsTotal(Rows(Entries(fs), Services(Entries(fs)))) == ScanRun.TotalSavings(fs)
  {
    EntriesOfFindings(fs);
    GroupsAddUp(Entries(fs));
    EntriesSavingsOfFindings(fs);
  }

  /** Each entry of a record list is the entry of the record at the same position. */
  lemma {:induction false} EntriesOfFindings(fs: seq<Finding>)
    ensures forall i :: 0 <= i < |fs| ==> Entries(fs)[i] == EntryOf(fs[i])
    decreases |fs|
  {
    if fs != [] {
      EntriesOfFindings(fs[..|fs| - 1]);
    }
  }

  /** The fields a finding card shows, after the `.get` defaults. */
  datatype Card = Card(
    severity: string,
    resourceId: string,
    description: string,
    monthlySavings: real,
    recommendation: string,
    metadata: Metadata)

  /** The card fields of an entry: a missing severity is "medium", a missing resource id
      "Unknown", missing savings 0, missing texts empty and missing metadata empty. */
  function CardOf(e: Entry): (c: Card)
    ensures e.severity.None? ==> c.severity == "medium"
    ensures e.resourceId.None? ==> c.resourceId == "Unknown"
    ensures e.monthlySavings.None? ==> c.monthlySavings == 0.0
    ensures e.metadata.None? ==> c.metadata == []
    ensures e.description.None? ==> c.description == ""
    ensures e.recommendation.None? ==> c.recommendation == ""
    ensures e.severity.Some? ==> c.severity == e.severity.value
    ensures e.resourceId.Some? ==> c.resourceId == e.resourceId.value
    ensures e.description.Some? ==> c.description == e.description.value
    ensures e.monthlySavings.Some? ==> c.monthlySavings == e.monthlySavings.value
    ensures e.recommendation.Some? ==> c.recommendation == e.recommendation.value
    ensures e.metadata.Some? ==> c.metadata == e.metadata.value
  {
    Card(e.severity.GetOr("medium"), e.resourceId.GetOr("Unknown"), e.description.GetOr(""),
         SavingsOf(e), e.recommendation.GetOr(""), e.metadata.GetOr([]))
  }

  /** A finding record's card shows its own fields, and its severity is one of the three
      styled classes. */
  lemma CardOfFinding(f: Finding)
    ensures CardOf(EntryOf(f)) == Card(f.severity.Name(), f.resourceId, f.description,
                                       f.monthlySavings, f.recommendation, f.metadata)
    ensures CardOf(EntryOf(f)).severity in ["low", "medium", "high"]
  {
  }

  /** The opening of the metadata detail line. */
  const DetailsOpen: string := "<div class=\"metadata\"><strong>Details:</strong> "

  /** The characters `rstrip(', ')` removes. */
  predicate Strippable(c: char) {
    c == ',' || c == ' '
  }

  /** `s.rstrip(', ')`. */
  function RStrip(s: string): string {
    if s != [] && Strippable(s[|s| - 1]) then RStrip(s[..|s| - 1]) else s
  }

  /** The strip keeps the longest prefix of `s` that does not end in a comma or space:
      only such characters are removed. */
  lemma {:induction false} RStripSpec(s: string)
    ensures RStrip(s) <= s
    ensures RStrip(s) == [] || !Strippable(RStrip(s)[|RStrip(s)| - 1])
    ensures forall i :: |RStrip(s)| <= i < |s| ==> Strippable(s[i])
    decreases |s|
  {
    if s != [] && Strippable(s[|s| - 1]) {
      RStripSpec(s[..|s| - 1]);
    }
  }

  /** The opening of the detail line ends in `> `. */
  lemma DetailsOpenShape()
    ensures |DetailsOpen| >= 2 && DetailsOpen[|DetailsOpen| - 2] == '>' && DetailsOpen[|DetailsOpen| - 1] == ' '
  {
  }

  /** Stripping a text whose tail holds a character that is kept leaves its head alone. */
  lemma {:induction false} RStripKeepsHead(p: string, s: string, k: int)
    requires 0 <= k < |s| && !Strippable(s[k])
    ensures RStrip(p + s) == p + RStrip(s)
    decreases |s|
  {
    if Strippable(s[|s| - 1]) {
      var s' := s[..|s| - 1];
      assert (p + s)[..|p + s| - 1] == p + s';
      RStripKeepsHead(p, s', k);
    }
  }

  /** The text `key: value, ` of one metadata entry; nothing for `region`. */
  function DetailItem(entry: (string, MetaValue), show: MetaValue -> string): string {
    if entry.0 == "region" then "" else entry.0 + ": " + show(entry.1) + ", "
  }

  /** The items of the detail line, in metadata order, before the strip. */
  function DetailItems(metadata: Metadata, show: MetaValue -> string): string {
    if metadata == [] then ""
    else DetailItems(metadata[..|metadata| - 1], show) + DetailItem(metadata[|metadata| - 1], show)
  }

  /** The metadata without its `region` entries. */
  function WithoutRegion(metadata: Metadata): (m: Metadata)
    ensures |m| <= |metadata|
    ensures forall i :: 0 <= i < |m| ==> m[i].0 != "region"
  {
    if metadata == [] then []
    else
      var last := metadata[|metadata| - 1];
      WithoutRegion(metadata[..|metadata| - 1]) + (if last.0 == "region" then [] else [last])
  }

  /** The html after a finding's metadata: unchanged when the metadata is empty, otherwise
      extended by the detail line, stripped and closed. */
  function MetadataBlock(html: string, metadata: Metadata, show: MetaValue -> string): string {
    if metadata == [] then html
    else RStrip(html + DetailsOpen + DetailItems(metadata, show)) + "</div>"
  }

  /** The detail line of `_generate_html`, appended to the html built so far. */
  method AppendMetadata(html: string, metadata: Metadata, show: MetaValue -> string) returns (out: string)
    ensures out == MetadataBlock(html, metadata, show)
    ensures metadata == [] ==> out == html
  {
    out := html;
    if metadata != [] {
      out := out + DetailsOpen;
      ghost var head := out;
      for i := 0 to |metadata|
        invariant out == head + DetailItems(metadata[..i], show)
      {
        ghost var before := out;
        var (key, value) := metadata[i];
        if key !in ["region"] {
          out := out + (key + ": " + show(value) + ", ");
        }
        AppendItemStep(head, before, out, metadata, i, show);
      }
      assert metadata[..|metadata|] == metadata;
      out := RStrip(out) + "</div>";
    }
  }

  /** One turn of the detail loop: the text after entry `i` is the text before it and
      entry `i`'s item. */
  lemma AppendItemStep(head: string, before: string, after: string, metadata: Metadata, i: int, show: MetaValue -> string)
    requires 0 <= i < |metadata|
    requires before == head + DetailItems(metadata[..i], show)
    requires after == before + DetailItem(metadata[i], show)
    ensures after == head + DetailItems(metadata[..i + 1], show)
  {
    DetailItemsSnoc(metadata, i, show);
    AppendAssociative(head, DetailItems(metadata[..i], show), DetailItem(metadata[i], show));
  }

  /** The items up to entry `i` are the items before it and entry `i`'s item. */
  lemma DetailItemsSnoc(metadata: Metadata, i: int, show: MetaValue -> string)
    requires 0 <= i < |metadata|
    ensures DetailItems(metadata[..i + 1], show) == DetailItems(metadata[..i], show) + DetailItem(metadata[i], show)
  {
    assert metadata[..i + 1][..i] == metadata[..i];
  }

  /** String concatenation is associative. */
  lemma AppendAssociative(a: string, b: string, c: string)
    ensures a + b + c == a + (b + c)
  {
  }

  /** The `region` entries contribute nothing to the detail line: it is the line of the
      metadata without them. */
  lemma {:induction false} DetailItemsSkipRegion(metadata: Metadata, show: MetaValue -> string)
    ensures DetailItems(metadata, show) == DetailItems(WithoutRegion(metadata), show)
    decreases |metadata|
  {
    if metadata != [] {
      var init := metadata[..|metadata| - 1];
      var last := metadata[|metadata| - 1];
      DetailItemsSkipRegion(init, show);
      var w := WithoutRegion(init);
      if last.0 != "region" {
        assert WithoutRegion(metadata) == w + [last];
        assert (w + [last])[..|w|] == w;
        assert DetailItems(w + [last], show) == DetailItems(w, show) + DetailItem(last, show);
      } else {
        assert WithoutRegion(metadata) == w;
        assert DetailItems(metadata, show) == DetailItems(init, show) + "";
      }
    }
  }

  /** The items of a prefix of the metadata begin the items of the whole. */
  lemma {:induction false} DetailItemsPrefix(metadata: Metadata, k: int, show: MetaValue -> string)
    requires 0 <= k <= |metadata|
    ensures DetailItems(metadata[..k], show) <= DetailItems(metadata, show)
    decreases |metadata| - k
  {
    if k < |metadata| {
      var init := metadata[..|metadata| - 1];
      assert init[..k] == metadata[..k];
      DetailItemsPrefix(init, k, show);
    } else {
      assert metadata[..k] == metadata;
    }
  }

  /** For non-empty metadata the html built so far is kept, the detail line is closed by
      `</div>`, and the character before it is neither a comma nor a space. */
  lemma DetailLineShape(html: string, metadata: Metadata, show: MetaValue -> string)
    requires metadata != []
    ensures var block := MetadataBlock(html, metadata, show);
      && |block| >= |html| + |DetailsOpen| - 1 + 6
      && block[..|html|] == html
      && block[|block| - 6..] == "</div>"
      && !Strippable(block[|block| - 7])
  {
    var items := DetailItems(metadata, show);
    StripDetails(html, items);
    var t := RStrip(DetailsOpen + items);
    AppendAssociative(html, DetailsOpen, items);
    AfterStripShape(html, t);
  }

  /** The strip of a detail line stops inside the opening at the latest, so it keeps the
      html before the line and ends in a character that is kept. */
  lemma StripDetails(html: string, items: string)
    ensures var t := RStrip(DetailsOpen + items);
      && |t| >= |DetailsOpen| - 1
      && !Strippable(t[|t| - 1])
      && RStrip(html + (DetailsOpen + items)) == html + t
  {
    var body := DetailsOpen + items;
    var k := |DetailsOpen| - 2;
    DetailsOpenShape();
    assert body[k] == DetailsOpen[k];
    RStripKeepsHead(html, body, k);
    RStripSpec(body);
  }

  /** The shape of a stripped detail line once it is closed. */
  lemma AfterStripShape(html: string, t: string)
    requires t != [] && !Strippable(t[|t| - 1])
    ensures var block := html + t + "</div>";
      && block[..|html|] == html
      && block[|block| - 6..] == "</div>"
      && block[|block| - 7] == t[|t| - 1]
  {
  }

  /** Every metadata key other than `region` is listed, after the items of the entries
      before it and followed by its colon, whatever part of the line the strip removes. */
  lemma DetailLineListsKey(html: string, metadata: Metadata, show: MetaValue -> string, k: int)
    requires 0 <= k < |metadata| && metadata[k].0 != "region"
    ensures html + DetailsOpen + DetailItems(metadata[..k], show) + metadata[k].0 + ":"
            <= MetadataBlock(html, metadata, show)
  {
    var key := metadata[k].0;
    var head := html + DetailsOpen;
    var p := head + DetailItems(metadata[..k], show);
    var s := head + DetailItems(metadata, show);
    var q := p + DetailItem(metadata[k], show);
    var x := DetailItems(metadata[..k], show);
    var y := DetailItem(metadata[k], show);
    ItemPrefix(metadata, show, k);
    HeadPrefix(head, x, y, DetailItems(metadata, show));
    KeyColonPrefix(p, key, show(metadata[k].1));
    assert DetailItem(metadata[k], show) == key + ": " + show(metadata[k].1) + ", ";
    var a := p + key + ":";
    var idx := |p| + |key|;
    assert a[idx] == ':';
    assert s[idx] == ':';
    var t := RStrip(s);
    RStripSpec(s);
    assert |t| > idx;
    PrefixUpTo(a, q, s, t);
  }

  /** The text of the entries before `k` and the item of entry `k` begin the text of the
      whole metadata. */
  lemma ItemPrefix(metadata: Metadata, show: MetaValue -> string, k: int)
    requires 0 <= k < |metadata|
    ensures DetailItems(metadata[..k], show) + DetailItem(metadata[k], show) <= DetailItems(metadata, show)
  {
    assert metadata[..k + 1][..k] == metadata[..k];
    DetailItemsPrefix(metadata, k + 1, show);
  }

  /** A common head keeps a prefix of two parts a prefix. */
  lemma HeadPrefix(head: string, x: string, y: string, z: string)
    requires x + y <= z
    ensures head + x + y <= head + z
  {
    PrefixExtend(head, x + y, z);
    assert head + x + y == head + (x + y);
  }

  /** A common head keeps a prefix a prefix. */
  lemma PrefixExtend(head: string, x: string, y: string)
    requires x <= y
    ensures head + x <= head + y
  {
    assert y == x + y[|x|..];
    assert head + y == (head + x) + y[|x|..];
  }

  /** The item of a key begins with the key and its colon. */
  lemma KeyColonPrefix(p: string, key: string, value: string)
    ensures p + key + ":" <= p + (key + ": " + value + ", ")
  {
  }

  /** A prefix of `q` ending before the kept length of a stripped `s` that `q` begins is
      a prefix of the stripped text. */
  lemma PrefixUpTo(a: string, q: string, s: string, t: string)
    requires a <= q && q <= s && t <= s && |a| <= |t|
    ensures a <= t + "</div>"
  {
    assert a == s[..|a|];
    assert t[..|a|] == s[..|a|];
    assert (t + "</div>")[..|a|] == t[..|a|];
  }
}
