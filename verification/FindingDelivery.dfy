/** Posting findings back to CT Ops in batches. */
module FindingDelivery {
  import opened GoStrings
  import opened Numerals
  import opened CveCatalogue
  import opened CtOps

  const MAX_FINDINGS_PER_BATCH := 5000

  datatype Batch = Batch(orgID: string, batchID: string, findings: seq<Finding>)

  datatype Callback = Callback(baseURL: string, tokenID: string)

  /** What the outside answers for page n: the clock reading as text, whether the signed POST is built, sent and answered
      with 2xx, and whether the delivery is recorded in the database. */
  datatype World = World(clockText: nat -> string, post: nat -> bool, record: nat -> bool)

  function BatchID(compactTime: string, orgID: string, page: nat): string {
    "findings_" + compactTime + "_" + orgID + "_" + Itoa(page)
  }

  function BatchAt(world: World, orgID: string, findings: seq<Finding>, page: nat): Batch
    requires page * MAX_FINDINGS_PER_BATCH < |findings|
  {
    var start := page * MAX_FINDINGS_PER_BATCH;
    var end := if start + MAX_FINDINGS_PER_BATCH > |findings| then |findings| else start + MAX_FINDINGS_PER_BATCH;
    Batch(orgID, BatchID(world.clockText(page), orgID, page), findings[start..end])
  }

  function Pages(findings: seq<Finding>): nat {
    (|findings| + MAX_FINDINGS_PER_BATCH - 1) / MAX_FINDINGS_PER_BATCH
  }

  predicate Configured(callback: Callback) {
    callback.baseURL != "" && callback.tokenID != ""
  }

  predicate PageDelivered(world: World, page: nat) {
    world.post(page) && world.record(page)
  }

  /** Every page is posted and recorded. */
  predicate DeliverySucceeds(world: World, callback: Callback, findings: seq<Finding>) {
    Configured(callback) && forall p :: 0 <= p < Pages(findings) ==> PageDelivered(world, p)
  }

  /** The first page that fails is the last one tried; it counts as posted if only recording it failed. */
  ghost predicate StopsAtFirstFailure(world: World, findings: seq<Finding>, pages: nat) {
    exists f: nat ::
      && f < Pages(findings) && !PageDelivered(world, f)
      && (forall p :: 0 <= p < f ==> PageDelivered(world, p))
      && pages == if world.post(f) then f + 1 else f
  }

  /** The batches of the first `pages` pages. */
  function Batches(world: World, orgID: string, findings: seq<Finding>, pages: nat): (r: seq<Batch>)
    requires pages <= Pages(findings)
    ensures |r| == pages
  {
    if pages == 0 then [] else Batches(world, orgID, findings, pages - 1) + [BatchAt(world, orgID, findings, pages - 1)]
  }

  class Outbox {
    /** Batches answered with 2xx so far. */
    var posted: seq<Batch>

    constructor ()
      ensures posted == []
    {
      posted := [];
    }

    /** Stops at the first page that cannot be posted or recorded. */
    method DeliverFindings(orgID: string, callback: Callback, findings: seq<Finding>, world: World) returns (ok: bool, pages: nat)
      modifies this
      ensures pages <= Pages(findings)
      ensures posted == old(posted) + Batches(world, orgID, findings, pages)
      ensures ok <==> DeliverySucceeds(world, callback, findings)
      ensures ok <==>
        callback.baseURL != "" && callback.tokenID != "" && forall p: nat :: p < Pages(findings) ==> world.post(p) && world.record(p)
      ensures forall p: nat :: p < pages ==> world.post(p) && (p + 1 < pages ==> world.record(p))
      ensures !ok && callback.baseURL != "" && callback.tokenID != "" ==>
        (pages < Pages(findings) && !world.post(pages)) || (pages > 0 && !world.record(pages - 1))
      ensures ok ==> pages == Pages(findings)
      ensures !ok && Configured(callback) ==> StopsAtFirstFailure(world, findings, pages)
      ensures !Configured(callback) ==> pages == 0
    {
      hide Pages, BatchAt;
      pages := 0;
      if callback.baseURL == "" || callback.tokenID == "" {
        return false, 0;
      }
      var start := 0;
      PageInRange(findings, 0);
      while start < |findings|
        invariant start == pages * MAX_FINDINGS_PER_BATCH
        invariant start < |findings| <==> pages < Pages(findings)
        invariant pages <= Pages(findings)
        invariant posted == old(posted) + Batches(world, orgID, findings, pages)
        invariant forall p :: 0 <= p < pages ==> PageDelivered(world, p)
        invariant forall p: nat :: p < pages ==> world.post(p) && world.record(p)
        decreases Pages(findings) - pages
      {
        PageInRange(findings, pages);
        PageInRange(findings, pages + 1);
        var page := start / MAX_FINDINGS_PER_BATCH;
        var batch := BatchAt(world, orgID, findings, page);
        if !world.post(page) {
          assert !PageDelivered(world, page);
          return false, page;
        }
        posted := posted + [batch];
        pages := page + 1;
        if !world.record(page) {
          assert !PageDelivered(world, page);
          return false, pages;
        }
        start := start + MAX_FINDINGS_PER_BATCH;
      }
      return true, pages;
    }
  }

  lemma PageInRange(findings: seq<Finding>, page: nat)
    ensures page * MAX_FINDINGS_PER_BATCH < |findings| <==> page < Pages(findings)
    ensures page * MAX_FINDINGS_PER_BATCH / MAX_FINDINGS_PER_BATCH == page
  {
  }

  // ----- What has been posted is always a prefix -----

  function Concat(batches: seq<Batch>): seq<Finding> {
    if batches == [] then [] else Concat(batches[..|batches| - 1]) + batches[|batches| - 1].findings
  }

  lemma {:induction false} ConcatAppends(batches: seq<Batch>, last: Batch)
    ensures Concat(batches + [last]) == Concat(batches) + last.findings
  {
    assert (batches + [last])[..|batches|] == batches;
  }

  /** How many findings the first pages cover. */
  function Covered(findings: seq<Finding>, pages: nat): (n: nat)
    ensures n <= |findings|
    ensures pages == 0 ==> n == 0
  {
    var n := pages * MAX_FINDINGS_PER_BATCH;
    if n <= |findings| then n else |findings|
  }

  lemma BatchCovers(world: World, orgID: string, findings: seq<Finding>, page: nat)
    requires page < Pages(findings)
    ensures Covered(findings, page) <= Covered(findings, page + 1)
    ensures page * MAX_FINDINGS_PER_BATCH < |findings|
    ensures BatchAt(world, orgID, findings, page).findings == findings[Covered(findings, page)..Covered(findings, page + 1)]
    ensures page + 1 == Pages(findings) ==> Covered(findings, page + 1) == |findings|
  {
    hide BatchID;
  }

  /** The batches posted so far, put together, are a prefix of the findings: all of them after the last page. */
  lemma {:induction false} PostedIsPrefix(world: World, orgID: string, findings: seq<Finding>, pages: nat)
    requires pages <= Pages(findings)
    ensures Concat(Batches(world, orgID, findings, pages)) == findings[..Covered(findings, pages)]
    ensures pages == Pages(findings) ==> Concat(Batches(world, orgID, findings, pages)) == findings
  {
    hide Pages, BatchAt, Concat, Covered;
    NoFindingsNoPages(findings);
    if pages == 0 {
      assert Concat([]) == [] by {
        ConcatOfNone();
      }
    } else {
      BatchCovers(world, orgID, findings, pages - 1);
      var before, last := Batches(world, orgID, findings, pages - 1), BatchAt(world, orgID, findings, pages - 1);
      PostedIsPrefix(world, orgID, findings, pages - 1);
      ConcatAppends(before, last);
    }
  }

  lemma ConcatOfNone()
    ensures Concat([]) == []
  {
  }

  lemma NoFindingsNoPages(findings: seq<Finding>)
    ensures findings == [] <==> Pages(findings) == 0
  {
  }

  lemma {:induction false} BatchesByPage(world: World, orgID: string, findings: seq<Finding>, pages: nat, p: nat)
    requires p < pages <= Pages(findings)
    ensures Batches(world, orgID, findings, pages)[p] == BatchAt(world, orgID, findings, p)
  {
    if p < pages - 1 {
      BatchesByPage(world, orgID, findings, pages - 1, p);
    }
  }

  /** Every batch is of the organisation and has between 1 and 5000 findings; only the last one has fewer than 5000. */
  lemma BatchesAreBounded(world: World, orgID: string, findings: seq<Finding>, pages: nat, p: nat)
    requires p < pages <= Pages(findings)
    ensures var batch := Batches(world, orgID, findings, pages)[p];
      && batch.orgID == orgID && batch.batchID == BatchID(world.clockText(p), orgID, p)
      && 1 <= |batch.findings| <= 5000 && (p + 1 < Pages(findings) ==> |batch.findings| == 5000)
  {
    BatchesByPage(world, orgID, findings, pages, p);
  }

  /** No two batches of a delivery share an id, whatever the clock does. */
  lemma BatchesAreDistinct(world: World, orgID: string, findings: seq<Finding>, pages: nat, p: nat, q: nat)
    requires p < pages <= Pages(findings) && q < pages && p != q
    ensures Batches(world, orgID, findings, pages)[p].batchID != Batches(world, orgID, findings, pages)[q].batchID
  {
    BatchesByPage(world, orgID, findings, pages, p);
    BatchesByPage(world, orgID, findings, pages, q);
    if BatchID(world.clockText(p), orgID, p) == BatchID(world.clockText(q), orgID, q) {
      BatchIDNamesPage(world.clockText(p), world.clockText(q), orgID, orgID, p, q);
    }
  }

  /** The page number can be read off a batch id. */
  lemma BatchIDNamesPage(time1: string, time2: string, org1: string, org2: string, p: nat, q: nat)
    requires BatchID(time1, org1, p) == BatchID(time2, org2, q)
    ensures p == q && "findings_" + time1 + "_" + org1 == "findings_" + time2 + "_" + org2
  {
    hide Itoa;
    var left1, left2 := "findings_" + time1 + "_" + org1, "findings_" + time2 + "_" + org2;
    assert BatchID(time1, org1, p) == left1 + ['_'] + Itoa(p);
    assert BatchID(time2, org2, q) == left2 + ['_'] + Itoa(q);
    SplitLast(left1, left2, '_', Itoa(p), Itoa(q));
    ItoaInjective(p, q);
  }

  /** Length of a clock reading printed as 20060102_150405. */
  const CLOCK_TEXT_LENGTH := 15

  /** Across deliveries: two batch ids are equal exactly for the same second, organisation and page. */
  lemma BatchIDsEqualIff(time1: string, time2: string, org1: string, org2: string, p: nat, q: nat)
    requires |time1| == |time2| == CLOCK_TEXT_LENGTH
    ensures BatchID(time1, org1, p) == BatchID(time2, org2, q) <==> time1 == time2 && org1 == org2 && p == q
  {
    hide BatchID;
    if BatchID(time1, org1, p) == BatchID(time2, org2, q) {
      BatchIDNamesPage(time1, time2, org1, org2, p, q);
      var left1, left2 := "findings_" + time1 + "_" + org1, "findings_" + time2 + "_" + org2;
      assert left1[9..24] == time1 && left2[9..24] == time2;
      assert left1[25..] == org1 && left2[25..] == org2;
    }
  }
}
