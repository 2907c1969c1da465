/** The cve_records table and the column-wise upsert that feeds use to fill it. */
module CveCatalogue {
  import opened GoStrings

  type Time = int

  datatype CVERecord = CVERecord(
    cveID: string, title: string, description: string, severity: string, cvssScore: Option<real>,
    publishedAt: Option<Time>, modifiedAt: Option<Time>, rejected: bool, knownExploited: bool,
    kevDueDate: Option<Time>, kevVendorProject: string, kevProduct: string, kevRequiredAction: string,
    source: string, metadata: string)

  const UNKNOWN := "unknown"
  const NO_METADATA := "{}"

  function JsonOrEmpty(raw: string): string {
    if raw == "" then NO_METADATA else raw
  }

  /** The row the statement tries to insert (EXCLUDED). */
  function RowOf(record: CVERecord): CVERecord {
    record.(metadata := JsonOrEmpty(record.metadata))
  }

  /** An incoming value replaces the stored one unless it is the column's "nothing known" value. */
  function Fill<T(==)>(nothing: T, stored: T, incoming: T): T {
    if incoming != nothing then incoming else stored
  }

  /** ON CONFLICT (cve_id) DO UPDATE. */
  function Merge(stored: CVERecord, incoming: CVERecord): CVERecord {
    CVERecord(
      stored.cveID,
      Fill("", stored.title, incoming.title),
      Fill("", stored.description, incoming.description),
      Fill(UNKNOWN, stored.severity, incoming.severity),
      Fill(None, stored.cvssScore, incoming.cvssScore),
      Fill(None, stored.publishedAt, incoming.publishedAt),
      Fill(None, stored.modifiedAt, incoming.modifiedAt),
      incoming.rejected || stored.rejected,
      incoming.knownExploited || stored.knownExploited,
      Fill(None, stored.kevDueDate, incoming.kevDueDate),
      Fill("", stored.kevVendorProject, incoming.kevVendorProject),
      Fill("", stored.kevProduct, incoming.kevProduct),
      Fill("", stored.kevRequiredAction, incoming.kevRequiredAction),
      Fill("", stored.source, incoming.source),
      Fill(NO_METADATA, stored.metadata, incoming.metadata))
  }

  type Table = map<string, CVERecord>

  function Upsert(table: Table, record: CVERecord): Table {
    var row := RowOf(record);
    table[row.cveID := if row.cveID in table then Merge(table[row.cveID], row) else row]
  }

  function UpsertAll(table: Table, records: seq<CVERecord>): Table {
    if records == [] then table else Upsert(UpsertAll(table, records[..|records| - 1]), records[|records| - 1])
  }

  lemma {:induction false} UpsertAllAppends(table: Table, xs: seq<CVERecord>, ys: seq<CVERecord>)
    ensures UpsertAll(table, xs + ys) == UpsertAll(UpsertAll(table, xs), ys)
  {
    hide Upsert;
    if ys == [] {
      assert xs + ys == xs;
    } else {
      assert (xs + ys)[..|xs + ys| - 1] == xs + ys[..|ys| - 1];
      UpsertAllAppends(table, xs, ys[..|ys| - 1]);
    }
  }

  class CveStore {
    var records: Table

    constructor ()
      ensures records == map[]
    {
      records := map[];
    }

    /** Rows are written one statement at a time: when statement number `failAt` fails, the rows before it stay. */
    method UpsertCVERecords(batch: seq<CVERecord>, failAt: nat) returns (ok: bool)
      modifies this
      ensures ok <==> failAt >= |batch|
      ensures records == UpsertAll(old(records), if ok then batch else batch[..failAt])
    {
      for i := 0 to |batch|
        invariant i <= failAt
        invariant records == UpsertAll(old(records), batch[..i])
      {
        if i == failAt {
          return false;
        }
        assert batch[..i + 1][..i] == batch[..i];
        records := Upsert(records, batch[i]);
      }
      assert batch[..|batch|] == batch;
      return true;
    }
  }

  // ----- Algebra of the merge -----

  /** A row of column defaults. */
  function Defaults(id: string): CVERecord {
    CVERecord(id, "", "", UNKNOWN, None, None, None, false, false, None, "", "", "", "", NO_METADATA)
  }

  lemma InsertIsMergeIntoDefaults(record: CVERecord)
    ensures Merge(Defaults(record.cveID), RowOf(record)) == RowOf(record)
  {
  }

  lemma MergeIsAssociative(a: CVERecord, b: CVERecord, c: CVERecord)
    ensures Merge(Merge(a, b), c) == Merge(a, Merge(b, c))
  {
  }

  lemma MergeIsIdempotent(a: CVERecord)
    ensures Merge(a, a) == a
  {
  }

  // ----- What a batch does to one row -----

  function MergeOption(a: Option<CVERecord>, b: Option<CVERecord>): Option<CVERecord> {
    if a.None? then b else if b.None? then a else Some(Merge(a.value, b.value))
  }

  /** All records of a batch for one CVE, merged in order. */
  function Sum(id: string, records: seq<CVERecord>): Option<CVERecord> {
    if records == [] then None
    else
      var last := records[|records| - 1];
      MergeOption(Sum(id, records[..|records| - 1]), if last.cveID == id then Some(RowOf(last)) else None)
  }

  /** A batch changes each row as if all its records for that CVE had first been merged into one. */
  lemma {:induction false} BatchIsOneMerge(table: Table, records: seq<CVERecord>, id: string)
    ensures Get(UpsertAll(table, records), id) == MergeOption(Get(table, id), Sum(id, records))
  {
    hide Merge;
    if records != [] {
      var init, last := records[..|records| - 1], records[|records| - 1];
      BatchIsOneMerge(table, init, id);
      var one := if last.cveID == id then Some(RowOf(last)) else None;
      assert Get(UpsertAll(table, records), id) == MergeOption(Get(UpsertAll(table, init), id), one);
      MergeOptionAssociates(Get(table, id), Sum(id, init), one);
    }
  }

  lemma MergeOptionAssociates(a: Option<CVERecord>, b: Option<CVERecord>, c: Option<CVERecord>)
    ensures MergeOption(MergeOption(a, b), c) == MergeOption(a, MergeOption(b, c))
  {
    hide Merge;
    if a.Some? && b.Some? && c.Some? {
      MergeIsAssociative(a.value, b.value, c.value);
    }
  }

  /** Running a whole batch again changes nothing, even when a CVE occurs several times in it. */
  lemma RerunIsIdempotent(table: Table, records: seq<CVERecord>)
    ensures UpsertAll(UpsertAll(table, records), records) == UpsertAll(table, records)
  {
    hide Merge, UpsertAll, Sum;
    var once := UpsertAll(table, records);
    forall id
      ensures Get(UpsertAll(once, records), id) == Get(once, id)
    {
      var sum := Sum(id, records);
      BatchIsOneMerge(table, records, id);
      BatchIsOneMerge(once, records, id);
      MergeOptionAssociates(Get(table, id), sum, sum);
      if sum.Some? {
        MergeIsIdempotent(sum.value);
      }
    }
    MapsEqual(UpsertAll(once, records), once);
  }

  // ----- Nothing known is ever lost -----

  /** Flags stay raised and filled columns stay filled. */
  ghost predicate KnowsAtLeast(later: CVERecord, earlier: CVERecord) {
    && later.cveID == earlier.cveID
    && (earlier.title != "" ==> later.title != "")
    && (earlier.description != "" ==> later.description != "")
    && (earlier.severity != UNKNOWN ==> later.severity != UNKNOWN)
    && (earlier.cvssScore.Some? ==> later.cvssScore.Some?)
    && (earlier.publishedAt.Some? ==> later.publishedAt.Some?)
    && (earlier.modifiedAt.Some? ==> later.modifiedAt.Some?)
    && (earlier.rejected ==> later.rejected)
    && (earlier.knownExploited ==> later.knownExploited)
    && (earlier.kevDueDate.Some? ==> later.kevDueDate.Some?)
    && (earlier.kevVendorProject != "" ==> later.kevVendorProject != "")
    && (earlier.kevProduct != "" ==> later.kevProduct != "")
    && (earlier.kevRequiredAction != "" ==> later.kevRequiredAction != "")
    && (earlier.source != "" ==> later.source != "")
    && (earlier.metadata != NO_METADATA ==> later.metadata != NO_METADATA)
  }

  /** Over any run of upserts, from any feeds in any order. */
  lemma {:induction false} KnowledgeOnlyGrows(table: Table, records: seq<CVERecord>, id: string)
    requires id in table
    ensures id in UpsertAll(table, records)
    ensures KnowsAtLeast(UpsertAll(table, records)[id], table[id])
  {
    if records != [] {
      KnowledgeOnlyGrows(table, records[..|records| - 1], id);
    }
  }

  // ----- The last known value wins -----

  /** The last value other than "nothing known" that a batch carries for a column of a CVE, or `stored`. */
  function LastFilled<T(==)>(col: CVERecord -> T, nothing: T, stored: T, records: seq<CVERecord>, id: string): T {
    if records == [] then stored
    else
      var last := RowOf(records[|records| - 1]);
      if last.cveID == id && col(last) != nothing then col(last)
      else LastFilled(col, nothing, stored, records[..|records| - 1], id)
  }

  /** The stored row, or a row that knows nothing. */
  function RowOrDefaults(table: Table, id: string): CVERecord {
    if id in table then table[id] else Defaults(id)
  }

  lemma {:induction false} LastFilledWins<T>(col: CVERecord -> T, nothing: T, table: Table, records: seq<CVERecord>, id: string)
    requires forall a, b :: col(Merge(a, b)) == Fill(nothing, col(a), col(b))
    ensures col(RowOrDefaults(UpsertAll(table, records), id)) == LastFilled(col, nothing, col(RowOrDefaults(table, id)), records, id)
  {
    hide Merge, RowOf, Defaults;
    if records != [] {
      var init, last := records[..|records| - 1], records[|records| - 1];
      LastFilledWins(col, nothing, table, init, id);
      UpsertIsMerge(UpsertAll(table, init), last, id);
    }
  }

  lemma UpsertIsMerge(table: Table, record: CVERecord, id: string)
    ensures RowOrDefaults(Upsert(table, record), id) ==
      if record.cveID == id then Merge(RowOrDefaults(table, id), RowOf(record)) else RowOrDefaults(table, id)
    ensures RowOf(record).cveID == record.cveID
  {
    hide Merge, Defaults;
    InsertIsMergeIntoDefaults(record);
  }

  /** A CVE is stored at the end exactly if it was before or some record is for it. */
  lemma {:induction false} StoredIff(table: Table, records: seq<CVERecord>, id: string)
    ensures id in UpsertAll(table, records) <==> id in table || exists i :: 0 <= i < |records| && records[i].cveID == id
  {
    hide Merge;
    if records != [] {
      StoredIff(table, records[..|records| - 1], id);
    }
  }

  // Columns, as functions.
  function Title(r: CVERecord): string { r.title }
  function Description(r: CVERecord): string { r.description }
  function Severity(r: CVERecord): string { r.severity }
  function CVSSScore(r: CVERecord): Option<real> { r.cvssScore }
  function PublishedAt(r: CVERecord): Option<Time> { r.publishedAt }
  function ModifiedAt(r: CVERecord): Option<Time> { r.modifiedAt }
  function KEVDueDate(r: CVERecord): Option<Time> { r.kevDueDate }
  function KEVVendorProject(r: CVERecord): string { r.kevVendorProject }
  function KEVProduct(r: CVERecord): string { r.kevProduct }
  function KEVRequiredAction(r: CVERecord): string { r.kevRequiredAction }
  function RecordSource(r: CVERecord): string { r.source }
  function Metadata(r: CVERecord): string { r.metadata }

  /** Record i is for the CVE and fills the column. */
  predicate FillsColumn<T(!new)>(col: CVERecord -> T, known: T -> bool, r: CVERecord, id: string) {
    r.cveID == id && known(col(r))
  }

  /** `after` is the last value known for a column in the records for a CVE, as they came from the feeds, or else `before`. */
  ghost predicate LastKnown<T(!new)>(col: CVERecord -> T, known: T -> bool, before: T, after: T, records: seq<CVERecord>, id: string) {
    || (after == before && forall j :: 0 <= j < |records| ==> !FillsColumn(col, known, records[j], id))
    || exists i :: 0 <= i < |records| && LastReport(col, known, records, id, i) && after == col(records[i])
  }

  ghost predicate LastReport<T(!new)>(col: CVERecord -> T, known: T -> bool, records: seq<CVERecord>, id: string, i: nat)
    requires i < |records|
  {
    FillsColumn(col, known, records[i], id) && forall j :: i < j < |records| ==> !FillsColumn(col, known, records[j], id)
  }

  lemma OneMoreRecord<T(!new)>(col: CVERecord -> T, known: T -> bool, before: T, v: T, init: seq<CVERecord>, last: CVERecord, id: string)
    requires LastKnown(col, known, before, v, init, id)
    ensures LastKnown(col, known, before, if FillsColumn(col, known, last, id) then col(last) else v, init + [last], id)
  {
    hide FillsColumn;
    var records := init + [last];
    if FillsColumn(col, known, last, id) {
      assert LastReport(col, known, records, id, |init|);
    } else if i :| 0 <= i < |init| && LastReport(col, known, init, id, i) && v == col(init[i]) {
      assert LastReport(col, known, records, id, i) && records[i] == init[i];
    }
  }

  /** The recursive reading agrees with this one, where the inserted row has what the record has or "nothing known". */
  lemma {:induction false} LastFilledIsLastKnown<T(!new)>(col: CVERecord -> T, known: T -> bool, nothing: T, stored: T,
                                                    records: seq<CVERecord>, id: string)
    requires forall r :: if known(col(r)) then col(RowOf(r)) == col(r) && col(r) != nothing else col(RowOf(r)) == nothing
    ensures LastKnown(col, known, stored, LastFilled(col, nothing, stored, records, id), records, id)
  {
    hide RowOf, LastKnown;
    if records == [] {
      NothingKnownYet(col, known, stored, id);
    } else {
      var init, last := records[..|records| - 1], records[|records| - 1];
      RowKeepsID(last);
      LastFilledIsLastKnown(col, known, nothing, stored, init, id);
      OneMoreRecord(col, known, stored, LastFilled(col, nothing, stored, init, id), init, last, id);
      assert init + [last] == records;
    }
  }

  lemma NothingKnownYet<T(!new)>(col: CVERecord -> T, known: T -> bool, before: T, id: string)
    ensures LastKnown(col, known, before, before, [], id)
  {
  }

  lemma RowKeepsID(r: CVERecord)
    ensures RowOf(r).cveID == r.cveID
  {
  }

  predicate SomeText(s: string) { s != "" }
  predicate SomeSeverity(s: string) { s != "unknown" }
  predicate SomeScore(s: Option<real>) { s.Some? }
  predicate SomeTime(t: Option<Time>) { t.Some? }
  predicate SomeMetadata(s: string) { s != "" && s != "{}" }

  lemma ColumnKeepsLastKnown<T(!new)>(col: CVERecord -> T, known: T -> bool, nothing: T, table: Table, records: seq<CVERecord>, id: string)
    requires forall a, b :: col(Merge(a, b)) == Fill(nothing, col(a), col(b))
    requires forall r :: if known(col(r)) then col(RowOf(r)) == col(r) && col(r) != nothing else col(RowOf(r)) == nothing
    ensures LastKnown(col, known, col(RowOrDefaults(table, id)), col(RowOrDefaults(UpsertAll(table, records), id)), records, id)
  {
    hide Merge, RowOf, LastKnown, RowOrDefaults;
    LastFilledWins(col, nothing, table, records, id);
    LastFilledIsLastKnown(col, known, nothing, col(RowOrDefaults(table, id)), records, id);
  }

  /** Whatever is upserted in whatever order, every value column of a CVE ends up with the last known value that a feed has
      reported, whether the run finds the CVE stored or stores it itself.  Unknown are the empty text, the severity
      "unknown", an absent score or time, and empty metadata. */
  lemma {:induction false} EveryColumnKeepsLastFilled(table: Table, records: seq<CVERecord>, id: string)
    ensures var (before, after) := (RowOrDefaults(table, id), RowOrDefaults(UpsertAll(table, records), id));
      && LastKnown(Title, SomeText, before.title, after.title, records, id)
      && LastKnown(Description, SomeText, before.description, after.description, records, id)
      && LastKnown(Severity, SomeSeverity, before.severity, after.severity, records, id)
      && LastKnown(CVSSScore, SomeScore, before.cvssScore, after.cvssScore, records, id)
      && LastKnown(PublishedAt, SomeTime, before.publishedAt, after.publishedAt, records, id)
      && LastKnown(ModifiedAt, SomeTime, before.modifiedAt, after.modifiedAt, records, id)
      && LastKnown(KEVDueDate, SomeTime, before.kevDueDate, after.kevDueDate, records, id)
      && LastKnown(KEVVendorProject, SomeText, before.kevVendorProject, after.kevVendorProject, records, id)
      && LastKnown(KEVProduct, SomeText, before.kevProduct, after.kevProduct, records, id)
      && LastKnown(KEVRequiredAction, SomeText, before.kevRequiredAction, after.kevRequiredAction, records, id)
      && LastKnown(RecordSource, SomeText, before.source, after.source, records, id)
      && LastKnown(Metadata, SomeMetadata, before.metadata, after.metadata, records, id)
  {
    hide LastKnown, UpsertAll, RowOrDefaults;
    ColumnKeepsLastKnown(Title, SomeText, "", table, records, id);
    ColumnKeepsLastKnown(Description, SomeText, "", table, records, id);
    ColumnKeepsLastKnown(Severity, SomeSeverity, UNKNOWN, table, records, id);
    ColumnKeepsLastKnown(CVSSScore, SomeScore, None, table, records, id);
    ColumnKeepsLastKnown(PublishedAt, SomeTime, None, table, records, id);
    ColumnKeepsLastKnown(ModifiedAt, SomeTime, None, table, records, id);
    ColumnKeepsLastKnown(KEVDueDate, SomeTime, None, table, records, id);
    ColumnKeepsLastKnown(KEVVendorProject, SomeText, "", table, records, id);
    ColumnKeepsLastKnown(KEVProduct, SomeText, "", table, records, id);
    ColumnKeepsLastKnown(KEVRequiredAction, SomeText, "", table, records, id);
    ColumnKeepsLastKnown(RecordSource, SomeText, "", table, records, id);
    ColumnKeepsLastKnown(Metadata, SomeMetadata, NO_METADATA, table, records, id);
  }

  /** Where nothing is known the stored row says so: a CVE that no feed describes has the column defaults. */
  lemma UnknownRow(id: string)
    ensures var r := RowOrDefaults(map[], id);
      && r.cveID == id && r.title == r.description == r.kevVendorProject == r.kevProduct == r.kevRequiredAction == r.source == ""
      && r.severity == "unknown" && r.metadata == "{}" && !r.rejected && !r.knownExploited
      && r.cvssScore.None? && r.publishedAt.None? && r.modifiedAt.None? && r.kevDueDate.None?
  {
  }

  /** A flag is raised at the end exactly if it was raised before or by some record for the CVE. */
  lemma {:induction false} FlagsAccumulate(table: Table, records: seq<CVERecord>, id: string)
    ensures var (before, after) := (RowOrDefaults(table, id), RowOrDefaults(UpsertAll(table, records), id));
      && (after.rejected <==>
           before.rejected || exists i :: 0 <= i < |records| && records[i].cveID == id && records[i].rejected)
      && (after.knownExploited <==>
           before.knownExploited || exists i :: 0 <= i < |records| && records[i].cveID == id && records[i].knownExploited)
  {
    hide RowOrDefaults;
    if records != [] {
      var init, last := records[..|records| - 1], records[|records| - 1];
      FlagsAccumulate(table, init, id);
      UpsertIsMerge(UpsertAll(table, init), last, id);
    }
  }

  // ----- Feeds that fill different columns commute -----

  const SOURCE_NVD := "nvd"
  const SOURCE_CISA_KEV := "cisa-kev"

  /** What an NVD record can fill. */
  ghost predicate NVDShape(r: CVERecord) {
    && r.title == "" && !r.knownExploited && r.kevDueDate.None?
    && r.kevVendorProject == r.kevProduct == r.kevRequiredAction == "" && r.metadata in ["", NO_METADATA]
  }

  /** What a CISA KEV record can fill. */
  ghost predicate KEVShape(r: CVERecord) {
    && r.title == r.description == "" && r.severity == UNKNOWN && r.cvssScore.None?
    && r.publishedAt.None? && r.modifiedAt.None? && !r.rejected && r.metadata in ["", NO_METADATA]
  }

  function WithoutSource(r: Option<CVERecord>): Option<CVERecord> {
    if r.None? then None else Some(r.value.(source := ""))
  }

  /** Equal on every column but the source. */
  ghost predicate SameButSource(s: Table, t: Table) {
    forall id :: WithoutSource(Get(s, id)) == WithoutSource(Get(t, id))
  }

  /** `zs` is an interleaving of `xs` and `ys`. */
  ghost predicate Interleaves<T>(xs: seq<T>, ys: seq<T>, zs: seq<T>)
    decreases |zs|
  {
    if zs == [] then xs == [] && ys == []
    else
      var init, last := zs[..|zs| - 1], zs[|zs| - 1];
      || (xs != [] && last == xs[|xs| - 1] && Interleaves(xs[..|xs| - 1], ys, init))
      || (ys != [] && last == ys[|ys| - 1] && Interleaves(xs, ys[..|ys| - 1], init))
  }

  lemma {:induction false} OneAfterTheOtherInterleaves<T>(xs: seq<T>, ys: seq<T>)
    ensures Interleaves(xs, ys, xs + ys)
    decreases |xs| + |ys|
  {
    if ys != [] {
      assert (xs + ys)[..|xs + ys| - 1] == xs + ys[..|ys| - 1];
      OneAfterTheOtherInterleaves(xs, ys[..|ys| - 1]);
    } else if xs != [] {
      assert xs + ys == xs && xs[..|xs| - 1] + ys == xs[..|xs| - 1];
      OneAfterTheOtherInterleaves(xs[..|xs| - 1], ys);
    }
  }

  lemma WithoutSourceOfMerge(a: Option<CVERecord>, b: Option<CVERecord>)
    ensures WithoutSource(MergeOption(a, b)) == MergeOption(WithoutSource(a), WithoutSource(b))
  {
  }

  lemma ShapesCommute(nvd: CVERecord, kev: CVERecord)
    requires NVDShape(nvd) && KEVShape(kev) && nvd.cveID == kev.cveID
    requires nvd.metadata == kev.metadata == NO_METADATA
    ensures WithoutSource(Some(Merge(nvd, kev))) == WithoutSource(Some(Merge(kev, nvd)))
  {
  }

  lemma {:induction false} SumOfKEV(id: string, ys: seq<CVERecord>)
    requires forall y :: y in ys ==> KEVShape(y)
    ensures Sum(id, ys).Some? ==> Sum(id, ys).value.cveID == id
    ensures Sum(id, ys).Some? ==> KEVShape(Sum(id, ys).value) && Sum(id, ys).value.metadata == NO_METADATA
  {
    if ys != [] {
      assert KEVShape(ys[|ys| - 1]);
      SumOfKEV(id, ys[..|ys| - 1]);
    }
  }

  lemma {:induction false} SumOfInterleaving(id: string, xs: seq<CVERecord>, ys: seq<CVERecord>, zs: seq<CVERecord>)
    requires Interleaves(xs, ys, zs)
    requires forall x :: x in xs ==> NVDShape(x)
    requires forall y :: y in ys ==> KEVShape(y)
    ensures WithoutSource(Sum(id, zs)) == WithoutSource(MergeOption(Sum(id, xs), Sum(id, ys)))
    decreases |zs|
  {
    hide Merge, NVDShape, KEVShape, RowOf;
    if zs != [] {
      var init, last := zs[..|zs| - 1], zs[|zs| - 1];
      var one := if last.cveID == id then Some(RowOf(last)) else None;
      if xs != [] && last == xs[|xs| - 1] && Interleaves(xs[..|xs| - 1], ys, init) {
        var before := Sum(id, xs[..|xs| - 1]);
        SumOfInterleaving(id, xs[..|xs| - 1], ys, init);
        LateNVDRow(id, before, last, ys);
        WithoutSourceOfMerge(Sum(id, init), one);
        WithoutSourceOfMerge(MergeOption(before, Sum(id, ys)), one);
      } else {
        var before := Sum(id, ys[..|ys| - 1]);
        SumOfInterleaving(id, xs, ys[..|ys| - 1], init);
        MergeOptionAssociates(Sum(id, xs), before, one);
        WithoutSourceOfMerge(Sum(id, init), one);
        WithoutSourceOfMerge(MergeOption(Sum(id, xs), before), one);
      }
    }
  }

  /** An NVD row written after KEV rows can be moved in front of them. */
  lemma LateNVDRow(id: string, before: Option<CVERecord>, nvd: CVERecord, ys: seq<CVERecord>)
    requires NVDShape(nvd)
    requires forall y :: y in ys ==> KEVShape(y)
    ensures var one := if nvd.cveID == id then Some(RowOf(nvd)) else None;
      WithoutSource(MergeOption(MergeOption(before, Sum(id, ys)), one)) ==
      WithoutSource(MergeOption(MergeOption(before, one), Sum(id, ys)))
  {
    hide Merge, Sum;
    SumOfKEV(id, ys);
    var kev, one := Sum(id, ys), if nvd.cveID == id then Some(RowOf(nvd)) else None;
    if kev.Some? && one.Some? {
      ShapesCommute(one.value, kev.value);
      assert WithoutSource(MergeOption(kev, one)) == WithoutSource(MergeOption(one, kev));
      MergeOptionAssociates(before, kev, one);
      MergeOptionAssociates(before, one, kev);
      WithoutSourceOfMerge(before, MergeOption(kev, one));
      WithoutSourceOfMerge(before, MergeOption(one, kev));
    }
  }

  /** Any two interleavings of an NVD batch and a KEV batch leave the same table but for the source column. */
  lemma InterleavingsAgree(table: Table, xs: seq<CVERecord>, ys: seq<CVERecord>, zs: seq<CVERecord>, zs': seq<CVERecord>)
    requires Interleaves(xs, ys, zs) && Interleaves(xs, ys, zs')
    requires forall x :: x in xs ==> NVDShape(x)
    requires forall y :: y in ys ==> KEVShape(y)
    ensures SameButSource(UpsertAll(table, zs), UpsertAll(table, zs'))
  {
    hide Merge, NVDShape, KEVShape, Sum, UpsertAll, Interleaves, MergeOption;
    forall id
      ensures WithoutSource(Get(UpsertAll(table, zs), id)) == WithoutSource(Get(UpsertAll(table, zs'), id))
    {
      BatchIsOneMerge(table, zs, id);
      BatchIsOneMerge(table, zs', id);
      SumOfInterleaving(id, xs, ys, zs);
      SumOfInterleaving(id, xs, ys, zs');
      WithoutSourceOfMerge(Get(table, id), Sum(id, zs));
      WithoutSourceOfMerge(Get(table, id), Sum(id, zs'));
    }
  }

  /** The source column names the last feed that wrote the row, so there the order shows. */
  lemma SourceDependsOnOrder(nvd: CVERecord, kev: CVERecord)
    requires nvd.cveID == kev.cveID && nvd.source == SOURCE_NVD && kev.source == SOURCE_CISA_KEV
    ensures UpsertAll(map[], [nvd, kev])[nvd.cveID].source == SOURCE_CISA_KEV
    ensures UpsertAll(map[], [kev, nvd])[nvd.cveID].source == SOURCE_NVD
  {
    assert UpsertAll(map[], [nvd]) == Upsert(map[], nvd) && UpsertAll(map[], [kev]) == Upsert(map[], kev);
    assert [nvd, kev][..1] == [nvd] && [kev, nvd][..1] == [kev];
  }
}
