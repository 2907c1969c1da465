/** From decoded NVD and CISA KEV documents to catalogue records. */
module FeedRecords {
  import opened GoStrings
  import opened CveCatalogue

  // ----- NVD -----

  datatype Description = Description(lang: string, value: string)
  datatype Metric = Metric(baseScore: real, baseSeverity: string)
  datatype NVDItem = NVDItem(
    id: string, published: string, lastModified: string, vulnStatus: string,
    descriptions: seq<Description>, metrics: map<string, seq<Metric>>)

  function EnglishDescription(items: seq<Description>): string {
    FirstEnglish(items, if |items| > 0 then TrimSpace(items[0].value) else "")
  }

  function FirstEnglish(items: seq<Description>, otherwise: string): string {
    if items == [] then otherwise
    else if items[0].lang == "en" then TrimSpace(items[0].value)
    else FirstEnglish(items[1..], otherwise)
  }

  /** The newest CVSS version for which the item has a metric. */
  function NVDBestMetric(metrics: map<string, seq<Metric>>): Option<Metric> {
    FirstMetric(["cvssMetricV40", "cvssMetricV31", "cvssMetricV30", "cvssMetricV2"], metrics)
  }

  function FirstMetric(keys: seq<string>, metrics: map<string, seq<Metric>>): Option<Metric> {
    if keys == [] then None
    else if keys[0] in metrics && metrics[keys[0]] != [] then Some(metrics[keys[0]][0])
    else FirstMetric(keys[1..], metrics)
  }

  function NormalizeSeverity(value: string): string {
    var v := ToLower(TrimSpace(value));
    if v == "critical" then "critical"
    else if v in ["high", "important"] then "high"
    else if v in ["medium", "moderate"] then "medium"
    else if v == "low" then "low"
    else if v in ["none", "negligible"] then "none"
    else UNKNOWN
  }

  /** `parseTime` stands for time.Parse(RFC3339Nano). */
  function ParseNVDTime(parseTime: string -> Option<Time>, value: string): Option<Time> {
    if TrimSpace(value) == "" then None else parseTime(TrimSpace(value))
  }

  function NVDRecord(parseTime: string -> Option<Time>, item: NVDItem): CVERecord {
    var metric := NVDBestMetric(item.metrics);
    CVERecord(
      TrimSpace(item.id), "", EnglishDescription(item.descriptions),
      if metric.Some? then NormalizeSeverity(metric.value.baseSeverity) else UNKNOWN,
      if metric.Some? then Some(metric.value.baseScore) else None,
      ParseNVDTime(parseTime, item.published), ParseNVDTime(parseTime, item.lastModified),
      EqualFold(item.vulnStatus, "Rejected"), false, None, "", "", "", SOURCE_NVD, "")
  }

  function NVDRecords(parseTime: string -> Option<Time>, items: seq<NVDItem>): seq<CVERecord> {
    if items == [] then []
    else
      var last := items[|items| - 1];
      NVDRecords(parseTime, items[..|items| - 1]) +
      if TrimSpace(last.id) == "" then [] else [NVDRecord(parseTime, last)]
  }

  method ParseNVDAPI(parseTime: string -> Option<Time>, items: seq<NVDItem>) returns (records: seq<CVERecord>)
    ensures records == NVDRecords(parseTime, items)
  {
    records := [];
    for i := 0 to |items|
      invariant records == NVDRecords(parseTime, items[..i])
    {
      assert items[..i + 1][..i] == items[..i];
      if TrimSpace(items[i].id) == "" {
        continue;
      }
      records := records + [NVDRecord(parseTime, items[i])];
    }
    assert items[..|items|] == items;
  }

  // ----- CISA KEV -----

  datatype KEVItem = KEVItem(
    cveID: string, vendorProject: string, product: string, dueDate: string, requiredAction: string)

  /** `parseDate` stands for time.Parse(DateOnly). */
  function KEVRecord(parseDate: string -> Option<Time>, item: KEVItem): CVERecord {
    CVERecord(
      TrimSpace(item.cveID), "", "", UNKNOWN, None, None, None, false, true,
      if item.dueDate == "" then None else parseDate(item.dueDate),
      TrimSpace(item.vendorProject), TrimSpace(item.product), TrimSpace(item.requiredAction), SOURCE_CISA_KEV, "")
  }

  function KEVRecords(parseDate: string -> Option<Time>, items: seq<KEVItem>): seq<CVERecord> {
    if items == [] then []
    else
      var last := items[|items| - 1];
      KEVRecords(parseDate, items[..|items| - 1]) +
      if TrimSpace(last.cveID) == "" then [] else [KEVRecord(parseDate, last)]
  }

  method ParseCISAKEV(parseDate: string -> Option<Time>, items: seq<KEVItem>) returns (records: seq<CVERecord>)
    ensures records == KEVRecords(parseDate, items)
  {
    records := [];
    for i := 0 to |items|
      invariant records == KEVRecords(parseDate, items[..i])
    {
      assert items[..i + 1][..i] == items[..i];
      if TrimSpace(items[i].cveID) == "" {
        continue;
      }
      records := records + [KEVRecord(parseDate, items[i])];
    }
    assert items[..|items|] == items;
  }

  // ----- Which columns the two feeds can fill -----

  lemma {:induction false} NVDRecordsHaveNVDShape(parseTime: string -> Option<Time>, items: seq<NVDItem>)
    ensures forall r :: r in NVDRecords(parseTime, items) ==> NVDShape(r) && r.cveID != "" && r.source == SOURCE_NVD
  {
    hide EnglishDescription, NVDBestMetric, NormalizeSeverity, ParseNVDTime, TrimSpace, EqualFold;
    if items != [] {
      NVDRecordsHaveNVDShape(parseTime, items[..|items| - 1]);
    }
  }

  lemma {:induction false} KEVRecordsHaveKEVShape(parseDate: string -> Option<Time>, items: seq<KEVItem>)
    ensures forall r :: r in KEVRecords(parseDate, items) ==>
      KEVShape(r) && r.cveID != "" && r.source == SOURCE_CISA_KEV && r.knownExploited
  {
    hide TrimSpace;
    if items != [] {
      KEVRecordsHaveKEVShape(parseDate, items[..|items| - 1]);
    }
  }

  /** The startup sync running beside the ticker: however the row upserts of one NVD document and one KEV
      document are interleaved, the table ends up the same on every column but the source. */
  lemma FeedsCommute(parseTime: string -> Option<Time>, parseDate: string -> Option<Time>, nvd: seq<NVDItem>, kev: seq<KEVItem>,
                     table: Table, zs: seq<CVERecord>)
    requires Interleaves(NVDRecords(parseTime, nvd), KEVRecords(parseDate, kev), zs)
    ensures SameButSource(UpsertAll(table, zs),
                          UpsertAll(UpsertAll(table, NVDRecords(parseTime, nvd)), KEVRecords(parseDate, kev)))
  {
    hide NVDRecords, KEVRecords, UpsertAll, SameButSource;
    var xs, ys := NVDRecords(parseTime, nvd), KEVRecords(parseDate, kev);
    NVDRecordsHaveNVDShape(parseTime, nvd);
    KEVRecordsHaveKEVShape(parseDate, kev);
    OneAfterTheOtherInterleaves(xs, ys);
    InterleavingsAgree(table, xs, ys, zs, xs + ys);
    UpsertAllAppends(table, xs, ys);
  }

  // ----- Which column comes from where -----

  lemma {:induction false} FirstEnglishFound(items: seq<Description>, otherwise: string, i: nat)
    requires i < |items| && items[i].lang == "en" && forall j :: 0 <= j < i ==> items[j].lang != "en"
    ensures FirstEnglish(items, otherwise) == TrimSpace(items[i].value)
  {
    hide TrimSpace;
    if i > 0 {
      FirstEnglishFound(items[1..], otherwise, i - 1);
    }
  }

  lemma {:induction false} NoEnglish(items: seq<Description>, otherwise: string)
    requires forall j :: 0 <= j < |items| ==> items[j].lang != "en"
    ensures FirstEnglish(items, otherwise) == otherwise
  {
    if items != [] {
      NoEnglish(items[1..], otherwise);
    }
  }

  /** The first English description, else the first one, else none; without surrounding space. */
  lemma DescriptionChosen(items: seq<Description>)
    ensures forall i :: 0 <= i < |items| && items[i].lang == "en" && (forall j :: 0 <= j < i ==> items[j].lang != "en") ==>
      EnglishDescription(items) == TrimSpace(items[i].value)
    ensures (forall i :: 0 <= i < |items| ==> items[i].lang != "en") ==>
      EnglishDescription(items) == if items == [] then "" else TrimSpace(items[0].value)
  {
    hide TrimSpace, FirstEnglish;
    var otherwise := if |items| > 0 then TrimSpace(items[0].value) else "";
    forall i | 0 <= i < |items| && items[i].lang == "en" && (forall j :: 0 <= j < i ==> items[j].lang != "en")
      ensures EnglishDescription(items) == TrimSpace(items[i].value)
    {
      FirstEnglishFound(items, otherwise, i);
    }
    if forall i :: 0 <= i < |items| ==> items[i].lang != "en" {
      NoEnglish(items, otherwise);
    }
  }

  lemma NextMetric(key: string, keys: seq<string>, metrics: map<string, seq<Metric>>)
    ensures FirstMetric([key] + keys, metrics) ==
      if key in metrics && metrics[key] != [] then Some(metrics[key][0]) else FirstMetric(keys, metrics)
    ensures FirstMetric([], metrics) == None
  {
    assert ([key] + keys)[1..] == keys;
  }

  /** CVSS 4.0 before 3.1 before 3.0 before 2, the first metric of the first version that has one. */
  lemma MetricChosen(metrics: map<string, seq<Metric>>)
    ensures var has := (key: string) => key in metrics && metrics[key] != [];
      NVDBestMetric(metrics) ==
        if has("cvssMetricV40") then Some(metrics["cvssMetricV40"][0])
        else if has("cvssMetricV31") then Some(metrics["cvssMetricV31"][0])
        else if has("cvssMetricV30") then Some(metrics["cvssMetricV30"][0])
        else if has("cvssMetricV2") then Some(metrics["cvssMetricV2"][0])
        else None
  {
    NextMetric("cvssMetricV2", [], metrics);
    NextMetric("cvssMetricV30", ["cvssMetricV2"], metrics);
    NextMetric("cvssMetricV31", ["cvssMetricV30", "cvssMetricV2"], metrics);
    NextMetric("cvssMetricV40", ["cvssMetricV31", "cvssMetricV30", "cvssMetricV2"], metrics);
  }

  /** The words each severity is known by, in any case and with space around. */
  lemma SeverityWords(value: string, word: string)
    requires ToLower(TrimSpace(value)) == word
    ensures NormalizeSeverity(value) ==
      if word == "important" then "high" else if word == "moderate" then "medium" else if word == "negligible" then "none"
      else if word == "critical" || word == "high" || word == "medium" || word == "low" || word == "none" then word
      else "unknown"
  {
    hide TrimSpace, ToLower;
  }

  lemma RejectedInLowerCase()
    ensures ToLower("Rejected") == "rejected"
  {
    assert forall i :: 0 <= i < 8 ==> ToLower("Rejected")[i] == "rejected"[i];
  }

  /** Every column an NVD item fills. */
  lemma NVDColumns(parseTime: string -> Option<Time>, item: NVDItem)
    ensures var r := NVDRecord(parseTime, item);
      var (published, modified) := (TrimSpace(item.published), TrimSpace(item.lastModified));
      && r.cveID == TrimSpace(item.id) && r.source == "nvd" && r.description == EnglishDescription(item.descriptions)
      && r.publishedAt == (if published == "" then None else parseTime(published))
      && r.modifiedAt == (if modified == "" then None else parseTime(modified))
      && (r.rejected <==> ToLower(item.vulnStatus) == "rejected")
      && match NVDBestMetric(item.metrics) {
           case Some(metric) => r.cvssScore == Some(metric.baseScore) && r.severity == NormalizeSeverity(metric.baseSeverity)
           case None => r.cvssScore == None && r.severity == "unknown"
         }
  {
    hide TrimSpace, ToLower, EnglishDescription, NVDBestMetric, NormalizeSeverity;
    RejectedInLowerCase();
  }

  /** Every column a KEV entry fills. */
  lemma KEVColumns(parseDate: string -> Option<Time>, item: KEVItem)
    ensures var r := KEVRecord(parseDate, item);
      && r.cveID == TrimSpace(item.cveID) && r.source == "cisa-kev" && r.knownExploited
      && r.kevVendorProject == TrimSpace(item.vendorProject) && r.kevProduct == TrimSpace(item.product)
      && r.kevRequiredAction == TrimSpace(item.requiredAction)
      && r.kevDueDate == if item.dueDate == "" then None else parseDate(item.dueDate)
  {
  }

  /** One record for each item with an id, none for the others, in the order of the document. */
  lemma {:induction false} RecordsInOrder(parseTime: string -> Option<Time>, xs: seq<NVDItem>, item: NVDItem, ys: seq<NVDItem>)
    ensures NVDRecords(parseTime, xs + [item] + ys) ==
      NVDRecords(parseTime, xs) + (if TrimSpace(item.id) == "" then [] else [NVDRecord(parseTime, item)]) + NVDRecords(parseTime, ys)
    ensures NVDRecords(parseTime, []) == []
  {
    hide NVDRecord, TrimSpace;
    if ys == [] {
      assert (xs + [item] + ys)[..|xs|] == xs;
    } else {
      assert (xs + [item] + ys)[..|xs + [item] + ys| - 1] == xs + [item] + ys[..|ys| - 1];
      RecordsInOrder(parseTime, xs, item, ys[..|ys| - 1]);
    }
  }

  lemma {:induction false} EntriesInOrder(parseDate: string -> Option<Time>, xs: seq<KEVItem>, item: KEVItem, ys: seq<KEVItem>)
    ensures KEVRecords(parseDate, xs + [item] + ys) ==
      KEVRecords(parseDate, xs) + (if TrimSpace(item.cveID) == "" then [] else [KEVRecord(parseDate, item)]) + KEVRecords(parseDate, ys)
    ensures KEVRecords(parseDate, []) == []
  {
    hide KEVRecord, TrimSpace;
    if ys == [] {
      assert (xs + [item] + ys)[..|xs|] == xs;
    } else {
      assert (xs + [item] + ys)[..|xs + [item] + ys| - 1] == xs + [item] + ys[..|ys| - 1];
      EntriesInOrder(parseDate, xs, item, ys[..|ys| - 1]);
    }
  }
}
