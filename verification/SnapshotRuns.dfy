/** Serial runs of snapshots, with catalogue syncs and response updates in between. */
module SnapshotRuns {
  import opened GoStrings
  import opened CveCatalogue
  import opened CtOps
  import opened SnapshotTables
  import opened SnapshotTheorems
  import opened OneAdvisory
  import Vuln = Matcher

  datatype Event =
    | Snapshot(snapshot: InventorySnapshot, now: Time)  // ApplyInventorySnapshot that commits
    | Aborted                                           // ApplyInventorySnapshot that fails
    | Sync(cves: Table, affected: seq<Vuln.AffectedPackage>)  // a feed writes the catalogue
    | UpdateResponse(key: SnapshotKey, response: SnapshotResult)

  function Step(digest: Digest, db: Tables, e: Event): Tables {
    match e
    case Snapshot(snapshot, now) => if KeyOfSnapshot(snapshot) in db.snapshots then db else Applied(digest, db, snapshot, now)
    case Aborted => db
    case Sync(cves, affected) => db.(cves := cves, affected := affected)
    case UpdateResponse(key, response) => SetResponse(db, key, response)
  }

  /** Ids are storable, and syncs are as they can be. */
  predicate Admissible(db: Tables, e: Event) {
    match e
    case Snapshot(snapshot, _) => Storable(snapshot)
    case Sync(cves, affected) => Respects(db, cves, affected)
    case _ => true
  }

  function Clock(clock: Time, e: Event): Time {
    if e.Snapshot? then e.now else clock
  }

  predicate AdmissibleRun(digest: Digest, db: Tables, events: seq<Event>)
    decreases |events|
  {
    events == [] || (Admissible(db, events[0]) && AdmissibleRun(digest, Step(digest, db, events[0]), events[1..]))
  }

  /** Snapshot times never decrease. */
  predicate ClockRuns(clock: Time, events: seq<Event>)
    decreases |events|
  {
    events == [] || (clock <= Clock(clock, events[0]) && ClockRuns(Clock(clock, events[0]), events[1..]))
  }

  function Run(digest: Digest, db: Tables, events: seq<Event>): Tables
    decreases |events|
  {
    if events == [] then db else Run(digest, Step(digest, db, events[0]), events[1..])
  }

  lemma {:induction false} RunAppends(digest: Digest, db: Tables, events: seq<Event>, last: Event)
    ensures Run(digest, db, events + [last]) == Step(digest, Run(digest, db, events), last)
    decreases |events|
  {
    hide Step;
    var all := events + [last];
    assert all[0] == if events == [] then last else events[0];
    if events == [] {
      assert all[1..] == [];
    } else {
      assert all[1..] == events[1..] + [last];
      RunAppends(digest, Step(digest, db, events[0]), events[1..], last);
    }
  }

  function FinalClock(clock: Time, events: seq<Event>): Time
    decreases |events|
  {
    if events == [] then clock else FinalClock(Clock(clock, events[0]), events[1..])
  }

  /** first_seen_at <= last_seen_at, resolved_at is null or last_seen_at, the id is a function of the key. */
  predicate GoodRow(digest: Digest, clock: Time, key: FindingKey, row: FindingRow) {
    && row.firstSeenAt <= row.lastSeenAt <= clock
    && row.resolvedAt in [None, Some(row.lastSeenAt)]
    && row.findingID == StableFindingID(digest, key)
  }

  ghost predicate GoodHistory(digest: Digest, clock: Time, findings: Findings) {
    forall key :: key in findings ==> GoodRow(digest, clock, key, findings[key])
  }

  /** What a step may do to the row of one finding. */
  predicate RowKept(before: Findings, after: Findings, key: FindingKey) {
    key in before ==> && key in after && after[key].firstSeenAt == before[key].firstSeenAt
                      && after[key].findingID == before[key].findingID
                      && before[key].lastSeenAt <= after[key].lastSeenAt
  }

  lemma SnapshotKeepsRow(digest: Digest, db: Tables, snapshot: InventorySnapshot, clock: Time, now: Time, key: FindingKey)
    requires Valid(db) && Storable(snapshot) && clock <= now
    requires key in db.findings ==> GoodRow(digest, clock, key, db.findings[key])
    ensures var after := Applied(digest, db, snapshot, now).findings;
      RowKept(db.findings, after, key) && (key in after ==> GoodRow(digest, now, key, after[key]))
  {
    hide Applied, Matched, SnapshotMatches, Touched, StableFindingID;
    RowAfterSnapshot(digest, db, snapshot, now, key);
    MatchesAreFresh(digest, db, snapshot, now);
  }

  lemma StepKeepsValid(digest: Digest, db: Tables, e: Event)
    requires Valid(db) && Admissible(db, e)
    ensures Valid(Step(digest, db, e))
  {
    hide Applied, NULFree;
    if e.Snapshot? && KeyOfSnapshot(e.snapshot) !in db.snapshots {
      SnapshotKeepsValid(digest, db, e.snapshot, e.now);
    }
  }

  lemma StepKeepsHistory(digest: Digest, db: Tables, clock: Time, e: Event)
    requires Valid(db) && GoodHistory(digest, clock, db.findings)
    requires Admissible(db, e) && clock <= Clock(clock, e)
    ensures GoodHistory(digest, Clock(clock, e), Step(digest, db, e).findings)
    ensures forall key :: RowKept(db.findings, Step(digest, db, e).findings, key)
  {
    hide Applied, NULFree;
    if e.Snapshot? && KeyOfSnapshot(e.snapshot) !in db.snapshots {
      forall key
        ensures var after := Applied(digest, db, e.snapshot, e.now).findings;
          RowKept(db.findings, after, key) && (key in after ==> GoodRow(digest, e.now, key, after[key]))
      {
        SnapshotKeepsRow(digest, db, e.snapshot, clock, e.now, key);
      }
    }
  }

  /** Over any serial run with non-decreasing snapshot times the findings keep a good history, and a finding keeps its
      row, its id and its first_seen_at through any number of resolve/reopen cycles. */
  lemma {:induction false} RunKeepsHistory(digest: Digest, db: Tables, clock: Time, events: seq<Event>)
    requires Valid(db) && GoodHistory(digest, clock, db.findings)
    requires AdmissibleRun(digest, db, events) && ClockRuns(clock, events)
    ensures Valid(Run(digest, db, events))
    ensures GoodHistory(digest, FinalClock(clock, events), Run(digest, db, events).findings)
    ensures forall key :: RowKept(db.findings, Run(digest, db, events).findings, key)
    decreases |events|
  {
    hide Valid, GoodHistory, Admissible, Step;
    if events != [] {
      var next := Step(digest, db, events[0]);
      StepKeepsValid(digest, db, events[0]);
      StepKeepsHistory(digest, db, clock, events[0]);
      RunKeepsHistory(digest, next, Clock(clock, events[0]), events[1..]);
      forall key
        ensures RowKept(db.findings, Run(digest, db, events).findings, key)
      {
        assert RowKept(db.findings, next.findings, key);
        assert RowKept(next.findings, Run(digest, next, events[1..]).findings, key);
      }
    }
  }

  /** In every run that starts from empty tables. */
  lemma RunsFromEmpty(digest: Digest, db: Tables, clock: Time, events: seq<Event>)
    requires db.findings == map[] && db.affected == []
    requires AdmissibleRun(digest, db, events) && ClockRuns(clock, events)
    ensures GoodHistory(digest, FinalClock(clock, events), Run(digest, db, events).findings)
  {
    hide Run, FinalClock, AdmissibleRun, ClockRuns;
    RunKeepsHistory(digest, db, clock, events);
  }

  // ----- Without the clock -----

  /** Snapshots may commit in another order than their times.  The exact effect on one row: re-matching always leaves
      first_seen_at <= last_seen_at, resolving does so iff the row was not first seen later than `now`; first_seen_at is
      kept unless the row is re-matched at an earlier time. */
  lemma RowTimesAfterSnapshot(digest: Digest, db: Tables, snapshot: InventorySnapshot, now: Time, key: FindingKey)
    requires Valid(db) && Storable(snapshot) && key in db.findings
    ensures var (before, after) := (db.findings[key], Get(Applied(digest, db, snapshot, now).findings, key));
      var matched := Touched(snapshot, key) && Matched(db, snapshot, key);
      var resolved := Touched(snapshot, key) && !Matched(db, snapshot, key) && IsOpen(db.findings, key);
      && after.Some?
      && (after.value.firstSeenAt <= after.value.lastSeenAt <==>
           matched || before.firstSeenAt <= if resolved then now else before.lastSeenAt)
      && (after.value.firstSeenAt == before.firstSeenAt <==> matched ==> before.firstSeenAt <= now)
      && (resolved ==> after.value.resolvedAt == Some(now))
  {
    hide Applied, Matched, SnapshotMatches, Touched, StableFindingID;
    RowAfterSnapshot(digest, db, snapshot, now, key);
    MatchesAreFresh(digest, db, snapshot, now);
  }

  lemma RunOfTwo(digest: Digest, db: Tables, d: Event, e: Event)
    ensures Run(digest, db, [d, e]) == Step(digest, Step(digest, db, d), e)
  {
    RunAppends(digest, db, [], d);
    RunAppends(digest, db, [d], e);
    assert [] + [d] == [d] && [d] + [e] == [d, e];
  }

  /** A snapshot with an earlier time that commits second resolves a finding before it was first seen. */
  lemma LateCommitResolvesBeforeFirstSeen(digest: Digest, now: Time, earlier: Time)
    requires earlier < now
    ensures var row := Get(Run(digest, ONE_ADVISORY, [Snapshot(SOME_SNAPSHOT, now), Snapshot(UPGRADED, earlier)]).findings, SOME_KEY);
      row.Some? && row.value.firstSeenAt == now && row.value.lastSeenAt == earlier && row.value.resolvedAt == Some(earlier)
  {
    hide Applied, Matched, Touched, Storable, Run;
    RunOfTwo(digest, ONE_ADVISORY, Snapshot(SOME_SNAPSHOT, now), Snapshot(UPGRADED, earlier));
    OpenedThenResolved(digest, now, earlier);
    assert Applied(digest, ONE_ADVISORY, SOME_SNAPSHOT, now).snapshots.Keys == {KeyOfSnapshot(SOME_SNAPSHOT)} by {
      SnapshotKeysAfter(digest, ONE_ADVISORY, SOME_SNAPSHOT, now);
    }
  }

  lemma SnapshotKeysAfter(digest: Digest, db: Tables, snapshot: InventorySnapshot, now: Time)
    ensures Applied(digest, db, snapshot, now).snapshots.Keys == db.snapshots.Keys + {KeyOfSnapshot(snapshot)}
  {
  }

  lemma CatalogueAfter(digest: Digest, db: Tables, snapshot: InventorySnapshot, now: Time)
    ensures var after := Applied(digest, db, snapshot, now); after.affected == db.affected && after.cves == db.cves
  {
  }

  lemma OpenedThenResolved(digest: Digest, now: Time, earlier: Time)
    ensures var db := Applied(digest, ONE_ADVISORY, SOME_SNAPSHOT, now);
      var row := Get(Applied(digest, db, UPGRADED, earlier).findings, SOME_KEY);
      row.Some? && row.value.firstSeenAt == now && row.value.lastSeenAt == earlier && row.value.resolvedAt == Some(earlier)
  {
    hide Applied, Matched, Touched, Storable, SnapshotMatches, Valid, StableFindingID;
    var db := Applied(digest, ONE_ADVISORY, SOME_SNAPSHOT, now);
    assert ONE_ADVISORY == ONE_ADVISORY.(findings := map[]);
    IDsAreStorable();
    PackageIsAffected(ONE_ADVISORY);
    RowAfterSnapshot(digest, ONE_ADVISORY, SOME_SNAPSHOT, now, SOME_KEY);
    MatchesAreFresh(digest, ONE_ADVISORY, SOME_SNAPSHOT, now);
    SnapshotKeepsValid(digest, ONE_ADVISORY, SOME_SNAPSHOT, now);
    CatalogueAfter(digest, ONE_ADVISORY, SOME_SNAPSHOT, now);
    UpgradeIsNotAffected(db, SOME_KEY);
    RowAfterSnapshot(digest, db, UPGRADED, earlier, SOME_KEY);
  }

  // ----- Which findings are open at the end of a run -----

  /** The verdict of the last first-time snapshot that named the finding's package, against the catalogue of its time;
      `soFar` if there was none. */
  ghost predicate LastVerdict(digest: Digest, db: Tables, events: seq<Event>, key: FindingKey, soFar: bool)
    decreases |events|
  {
    if events == [] then soFar
    else
      var e := events[0];
      LastVerdict(digest, Step(digest, db, e), events[1..], key,
                  if e.Snapshot? && KeyOfSnapshot(e.snapshot) !in db.snapshots && Touched(e.snapshot, key)
                  then Matched(db, e.snapshot, key) else soFar)
  }

  lemma {:induction false} LastVerdictAppends(digest: Digest, db: Tables, events: seq<Event>, last: Event, key: FindingKey, soFar: bool)
    ensures LastVerdict(digest, db, events + [last], key, soFar) <==>
      var before := Run(digest, db, events);
      if last.Snapshot? && KeyOfSnapshot(last.snapshot) !in before.snapshots && Touched(last.snapshot, key)
      then Matched(before, last.snapshot, key) else LastVerdict(digest, db, events, key, soFar)
    decreases |events|
  {
    hide Step, Touched, Matched, KeyOfSnapshot;
    var all := events + [last];
    assert all[0] == if events == [] then last else events[0];
    if events == [] {
      assert all[1..] == [];
    } else {
      var e := events[0];
      assert all[1..] == events[1..] + [last];
      LastVerdictAppends(digest, Step(digest, db, e), events[1..], last, key,
                         if e.Snapshot? && KeyOfSnapshot(e.snapshot) !in db.snapshots && Touched(e.snapshot, key)
                         then Matched(db, e.snapshot, key) else soFar);
    }
  }

  /** At the end of any serial run, whatever the clock does, a finding is open exactly if the last snapshot naming its
      package matched it. */
  lemma {:induction false} OpenIffLastVerdict(digest: Digest, db: Tables, events: seq<Event>, key: FindingKey)
    requires Valid(db) && AdmissibleRun(digest, db, events)
    ensures IsOpen(Run(digest, db, events).findings, key) <==>
            LastVerdict(digest, db, events, key, IsOpen(db.findings, key))
    decreases |events|
  {
    hide Valid, Applied, Touched, Matched, Storable;
    if events != [] {
      var e := events[0];
      StepKeepsValid(digest, db, e);
      if e.Snapshot? && KeyOfSnapshot(e.snapshot) !in db.snapshots {
        OpenFindingsAfterSnapshot(digest, db, e.snapshot, e.now, key);
      }
      OpenIffLastVerdict(digest, Step(digest, db, e), events[1..], key);
    }
  }

  /** A snapshot id once answered stays answered: sending it again later changes nothing at all. */
  lemma {:induction false} ReplayChangesNothing(digest: Digest, db: Tables, events: seq<Event>, snapshot: InventorySnapshot, now: Time)
    requires KeyOfSnapshot(snapshot) in db.snapshots
    ensures KeyOfSnapshot(snapshot) in Run(digest, db, events).snapshots
    ensures Step(digest, Run(digest, db, events), Snapshot(snapshot, now)) == Run(digest, db, events)
    decreases |events|
  {
    hide UpsertHosts, UpsertPackages, ResolveAll;
    if events != [] {
      ReplayChangesNothing(digest, Step(digest, db, events[0]), events[1..], snapshot, now);
    }
  }

  // ----- Inventory rows -----

  function LastHost(rows: seq<InventoryHost>, hostID: string): Option<InventoryHost> {
    if rows == [] then None
    else if rows[|rows| - 1].hostID == hostID then Some(rows[|rows| - 1])
    else LastHost(rows[..|rows| - 1], hostID)
  }

  /** The host table holds the last row of the snapshot for each host, other hosts are as before. */
  lemma {:induction false} HostsAfterSnapshot(hosts: Hosts, orgID: string, rows: seq<InventoryHost>, key: HostKey)
    ensures var (after, last) := (UpsertHosts(hosts, orgID, rows), LastHost(rows, key.hostID));
      if key.orgID == orgID && last.Some? then key in after && after[key] == NormalStatus(last.value)
      else (key in after <==> key in hosts) && (key in hosts ==> after[key] == hosts[key])
  {
    hide NormalStatus;
    if rows != [] {
      HostsAfterSnapshot(hosts, orgID, rows[..|rows| - 1], key);
    }
  }

  function LastPackage(rows: seq<InventoryPackage>, packageID: string): Option<InventoryPackage> {
    if rows == [] then None
    else if rows[|rows| - 1].packageID == packageID then Some(rows[|rows| - 1])
    else LastPackage(rows[..|rows| - 1], packageID)
  }

  /** The earliest first_seen_at among the stored row and the snapshot's rows for the package. */
  ghost predicate Earliest(t: Time, packages: Packages, key: PackageKey, rows: seq<InventoryPackage>) {
    && (key in packages ==> t <= packages[key].firstSeenAt)
    && (forall p :: p in rows && p.packageID == key.packageID ==> t <= p.firstSeenAt)
    && ((key in packages && t == packages[key].firstSeenAt) ||
        exists p :: p in rows && p.packageID == key.packageID && t == p.firstSeenAt)
  }

  /** The package table holds the last row for each package, but with the earliest first_seen_at ever reported. */
  lemma {:induction false} PackagesAfterSnapshot(packages: Packages, orgID: string, rows: seq<InventoryPackage>, key: PackageKey)
    ensures var (after, last) := (UpsertPackages(packages, orgID, rows), LastPackage(rows, key.packageID));
      if key.orgID == orgID && last.Some? then
        && key in after && after[key] == last.value.(firstSeenAt := after[key].firstSeenAt)
        && Earliest(after[key].firstSeenAt, packages, key, rows)
      else (key in after <==> key in packages) && (key in packages ==> after[key] == packages[key])
  {
    if rows != [] {
      var init, last := rows[..|rows| - 1], rows[|rows| - 1];
      assert rows == init + [last];
      PackagesAfterSnapshot(packages, orgID, init, key);
      NoRowForPackage(init, key.packageID);
    }
  }

  lemma {:induction false} NoRowForPackage(rows: seq<InventoryPackage>, packageID: string)
    ensures LastPackage(rows, packageID).None? ==> forall p :: p in rows ==> p.packageID != packageID
  {
    if rows != [] {
      assert rows == rows[..|rows| - 1] + [rows[|rows| - 1]];
      NoRowForPackage(rows[..|rows| - 1], packageID);
    }
  }
}
