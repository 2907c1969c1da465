/** Every interleaving of snapshot transactions leaves the tables of a serial run in commit order.

    The rows a transaction has written are locked until it ends, and it writes all its package rows before it looks at
    findings.  So nobody else can change a row that it has read, and at its commit it has done to the committed tables
    what it would have done alone.
 */
module SerialOrder {
  import opened GoStrings
  import opened CveCatalogue
  import opened CtOps
  import opened SnapshotTables
  import opened SnapshotTransactions
  import opened CtOpsView
  import Theorems = SnapshotTheorems
  import Store = SnapshotStore
  import Runs = SnapshotRuns

  predicate Running(tx: Tx) {
    match tx.phase
    case UpsertingHosts(_) | UpsertingPackages(_) | Opening(_) | Resolving(_, _) | Inserted | Ready => true
    case _ => false
  }

  /** The candidates are selected; so all packages are written. */
  predicate Reading(tx: Tx) {
    Running(tx) && !tx.phase.UpsertingHosts? && !tx.phase.UpsertingPackages?
  }

  // ----- How far a transaction has come -----

  function Prefix<T>(rows: seq<T>, n: nat): seq<T> {
    if n <= |rows| then rows[..n] else rows
  }

  function HostsDone(tx: Tx): seq<InventoryHost> {
    if tx.phase.UpsertingHosts? then Prefix(tx.snapshot.hosts, tx.phase.n) else tx.snapshot.hosts
  }

  function PackagesDone(tx: Tx): seq<InventoryPackage> {
    match tx.phase
    case UpsertingHosts(_) => []
    case UpsertingPackages(n) => Prefix(tx.snapshot.packages, n)
    case _ => tx.snapshot.packages
  }

  ghost predicate HostsOK(hosts: Hosts, tx: Tx) {
    && (tx.phase.UpsertingHosts? ==> tx.phase.n <= |tx.snapshot.hosts|)
    && hosts + tx.delta.hosts == UpsertHosts(hosts, tx.snapshot.orgID, HostsDone(tx))
    && forall id :: Runs.LastHost(HostsDone(tx), id).Some? ==> HostKey(tx.snapshot.orgID, id) in tx.delta.hosts
  }

  ghost predicate PackagesOK(packages: Packages, tx: Tx) {
    && (tx.phase.UpsertingPackages? ==> tx.phase.n <= |tx.snapshot.packages|)
    && packages + tx.delta.packages == UpsertPackages(packages, tx.snapshot.orgID, PackagesDone(tx))
    && forall id :: Runs.LastPackage(PackagesDone(tx), id).Some? ==> PackageKey(tx.snapshot.orgID, id) in tx.delta.packages
  }

  ghost predicate StatusOK(status: map<string, StatusRow>, tx: Tx) {
    && tx.delta.status.Keys == (if tx.phase.Ready? then {tx.snapshot.orgID} else {})
    && status + tx.delta.status == if tx.phase.Ready? then TouchInventoryStatus(status, tx.snapshot.orgID, tx.now) else status
  }

  /** The rows to resolve, if `findings` is what others have committed. */
  function Stale(digest: Digest, findings: Findings, tx: Tx): set<FindingKey> {
    StaleKeys(OpenAll(findings, tx.snapshot.orgID, Found(digest, tx)), tx.seen.cves, tx.snapshot.orgID,
              PackageIDs(tx.snapshot.packages), KeyTexts(tx.snapshot.orgID, Found(digest, tx)))
  }

  function FirstKeys(keys: seq<FindingKey>, n: nat): set<FindingKey> {
    set k | 0 <= k < n && k < |keys| :: keys[k]
  }

  ghost function FindingsDone(digest: Digest, findings: Findings, tx: Tx): Findings {
    match tx.phase
    case Opening(n) => OpenAll(findings, tx.snapshot.orgID, Prefix(Found(digest, tx), n))
    case Resolving(keys, n) =>
      ResolveAll(OpenAll(findings, tx.snapshot.orgID, Found(digest, tx)), FirstKeys(keys, n), tx.now)
    case Inserted | Ready =>
      ResolveAll(OpenAll(findings, tx.snapshot.orgID, Found(digest, tx)), Stale(digest, findings, tx), tx.now)
    case _ => findings
  }

  /** The transaction has locked the package of a finding. */
  predicate Guards(tx: Tx, key: FindingKey) {
    PackageKey(key.orgID, key.packageID) in tx.delta.packages
  }

  ghost predicate FindingsOK(digest: Digest, findings: Findings, tx: Tx) {
    && (tx.phase.Opening? ==> tx.phase.n <= |Found(digest, tx)|)
    && (tx.phase.Resolving? ==> tx.phase.n <= |tx.phase.keys| && Lists(tx.phase.keys, Stale(digest, findings, tx)))
    && findings + tx.delta.findings == FindingsDone(digest, findings, tx)
    && forall key :: key in tx.delta.findings ==> Guards(tx, key)
  }

  /** The report: what was found, then one resolved finding or more for exactly the rows to resolve. */
  ghost predicate ReportOK(digest: Digest, findings: Findings, tx: Tx) {
    tx.phase.Resolving? || tx.phase.Inserted? || tx.phase.Ready? ==>
      && Found(digest, tx) <= tx.report
      && Resolves(tx.report[|Found(digest, tx)|..], tx.snapshot.orgID, Stale(digest, findings, tx))
  }

  ghost predicate Resolves(resolved: seq<Finding>, orgID: string, stale: set<FindingKey>) {
    && (forall f :: f in resolved ==> f.status.Resolved? && KeyOf(orgID, f) in stale)
    && (forall key :: key in stale ==> ReportedIn(resolved, orgID, key))
  }

  /** Foreign keys, as of the catalogue the transaction has selected from. */
  ghost predicate CatalogueOK(db: Tables, tx: Tx) {
    Reading(tx) ==>
      && tx.seen.cves.Keys <= db.cves.Keys
      && forall key :: key in db.findings && Guards(tx, key) ==> key.cveID in tx.seen.cves
  }

  /** Seen from inside, the committed tables plus its own rows are what the transaction would have made of the committed
      tables alone. */
  ghost predicate OnTrack(digest: Digest, db: Tables, tx: Tx) {
    if Running(tx) then
      && HostsOK(db.hosts, tx) && PackagesOK(db.packages, tx) && StatusOK(db.status, tx)
      && FindingsOK(digest, db.findings, tx) && CatalogueOK(db, tx) && ReportOK(digest, db.findings, tx)
    else tx.delta == NOTHING
  }

  ghost predicate ForeignKeys(db: Tables) {
    forall key :: key in db.findings ==> key.cveID in db.cves
  }

  // ----- The transaction's own statements -----

  lemma Merge<K, V>(m: map<K, V>, d: map<K, V>, k: K, v: V)
    ensures m + d[k := v] == (m + d)[k := v]
  {
  }

  lemma WriteHostKeeps(db: Tables, tx: Tx)
    requires tx.phase.UpsertingHosts? && tx.phase.n < |tx.snapshot.hosts| && HostsOK(db.hosts, tx)
    ensures HostsOK(db.hosts, tx.(phase := UpsertingHosts(tx.phase.n + 1), delta := WriteHost(db, tx, tx.snapshot.hosts[tx.phase.n])))
  {
    hide NormalStatus;
    var (n, rows, org) := (tx.phase.n, tx.snapshot.hosts, tx.snapshot.orgID);
    var key := HostKey(org, rows[n].hostID);
    assert rows[..n + 1][..n] == rows[..n];
    Merge(db.hosts, tx.delta.hosts, key, NormalStatus(rows[n]));
  }

  lemma WritePackageKeeps(db: Tables, tx: Tx)
    requires tx.phase.UpsertingPackages? && tx.phase.n < |tx.snapshot.packages| && PackagesOK(db.packages, tx)
    ensures PackagesOK(db.packages,
      tx.(phase := UpsertingPackages(tx.phase.n + 1), delta := WritePackage(db, tx, tx.snapshot.packages[tx.phase.n])))
  {
    var (n, rows, org) := (tx.phase.n, tx.snapshot.packages, tx.snapshot.orgID);
    var key := PackageKey(org, rows[n].packageID);
    assert rows[..n + 1][..n] == rows[..n];
    Merge(db.packages, tx.delta.packages, key, UpsertPackage(Overlay(db, tx.delta).packages, org, rows[n])[key]);
  }

  lemma WriteStatusKeeps(db: Tables, tx: Tx)
    requires tx.phase.Inserted? && StatusOK(db.status, tx)
    ensures StatusOK(db.status, tx.(phase := Ready, delta := WriteStatus(db, tx)))
  {
    assert db.status + tx.delta.status == db.status;
  }

  lemma FoundIsSnapshotMatches(digest: Digest, db: Tables, tx: Tx)
    ensures Found(digest, tx) == SnapshotMatches(digest, With(db, tx.seen), tx.snapshot, tx.now)
  {
    hide Matches, SelectByName, Names;
  }

  lemma FoundFacts(digest: Digest, tx: Tx, f: Finding)
    requires f in Found(digest, tx)
    ensures f.firstSeenAt == tx.now && f.cveID in tx.seen.cves && f.packageID in PackageIDs(tx.snapshot.packages)
  {
    hide Found, SnapshotMatches, PackageIDs, Theorems.Matched, StableFindingID;
    var db := Tables(map[], map[], map[], map[], map[], tx.seen.cves, tx.seen.affected);
    FoundIsSnapshotMatches(digest, db, tx);
    Theorems.MatchesAreFresh(digest, With(db, tx.seen), tx.snapshot, tx.now);
  }

  /** Once it reads findings, a transaction has locked every package it names. */
  lemma NamedPackagesAreLocked(packages: Packages, tx: Tx, id: string)
    requires Reading(tx) && PackagesOK(packages, tx) && id in PackageIDs(tx.snapshot.packages)
    ensures PackageKey(tx.snapshot.orgID, id) in tx.delta.packages
  {
    hide UpsertPackages, Runs.LastPackage;
    Runs.NoRowForPackage(tx.snapshot.packages, id);
  }

  lemma WriteOpenKeeps(digest: Digest, db: Tables, tx: Tx)
    requires tx.phase.Opening? && tx.phase.n < |Found(digest, tx)| && FindingsOK(digest, db.findings, tx) && PackagesOK(db.packages, tx)
    ensures FindingsOK(digest, db.findings,
      tx.(phase := Opening(tx.phase.n + 1), delta := WriteOpen(db, tx, Found(digest, tx)[tx.phase.n])))
  {
    hide Found, OpenRow, PackagesOK, PackageIDs;
    var (n, found, org) := (tx.phase.n, Found(digest, tx), tx.snapshot.orgID);
    var key := KeyOf(org, found[n]);
    var tx' := tx.(phase := Opening(n + 1), delta := WriteOpen(db, tx, found[n]));
    SameFound(digest, tx, tx');
    assert found[..n + 1][..n] == found[..n];
    Merge(db.findings, tx.delta.findings, key, UpsertOpenFinding(Overlay(db, tx.delta).findings, org, found[n])[key]);
    FoundFacts(digest, tx, found[n]);
    NamedPackagesAreLocked(db.packages, tx, found[n].packageID);
  }

  /** What is found depends on the snapshot, its time and the catalogue. */
  lemma SameFound(digest: Digest, tx: Tx, tx': Tx)
    requires tx'.snapshot == tx.snapshot && tx'.now == tx.now && tx'.seen == tx.seen
    ensures Found(digest, tx') == Found(digest, tx)
  {
  }

  /** The rows selected against the current catalogue are those of the catalogue selected from. */
  lemma StaleNowIsStale(digest: Digest, db: Tables, tx: Tx)
    requires tx.phase == Opening(|Found(digest, tx)|) && FindingsOK(digest, db.findings, tx)
    requires CatalogueOK(db, tx) && PackagesOK(db.packages, tx)
    ensures StaleNow(digest, db, tx) == Stale(digest, db.findings, tx)
  {
    hide Found, PackagesOK, KeyText, KeyTexts, PackageIDs, OpenAll;
    var (found, org) := (Found(digest, tx), tx.snapshot.orgID);
    var after := OpenAll(db.findings, org, found);
    assert found[..|found|] == found;
    assert Overlay(db, tx.delta).findings == after;
    forall key | key in after && key.orgID == org && key.packageID in PackageIDs(tx.snapshot.packages)
      ensures key.cveID in tx.seen.cves && key.cveID in db.cves
    {
      NamedPackagesAreLocked(db.packages, tx, key.packageID);
      OpenedKey(digest, db.findings, tx, key);
    }
  }

  lemma OpenedKey(digest: Digest, findings: Findings, tx: Tx, key: FindingKey)
    requires key in OpenAll(findings, tx.snapshot.orgID, Found(digest, tx))
    ensures key in findings || key.cveID in tx.seen.cves
  {
    hide Found, OpenAll, OpenRow, PackageIDs, Theorems.LastFor;
    forall f | f in Found(digest, tx)
      ensures f.firstSeenAt == tx.now && f.cveID in tx.seen.cves
    {
      FoundFacts(digest, tx, f);
    }
    Theorems.OpenAllRow(findings, tx.snapshot.orgID, Found(digest, tx), tx.now, key);
    Theorems.LastForIsInList(tx.snapshot.orgID, Found(digest, tx), key);
  }

  lemma WriteResolvedKeeps(digest: Digest, db: Tables, tx: Tx)
    requires tx.phase.Resolving? && tx.phase.n < |tx.phase.keys| && FindingsOK(digest, db.findings, tx) && PackagesOK(db.packages, tx)
    ensures FindingsOK(digest, db.findings,
      tx.(phase := Resolving(tx.phase.keys, tx.phase.n + 1), delta := WriteResolved(db, tx, tx.phase.keys[tx.phase.n])))
  {
    hide Found, ResolvedRow, PackagesOK, OpenAll, ResolveAll, Stale, FirstKeys, PackageIDs, KeyText, KeyTexts, UpsertPackages;
    var (keys, n) := (tx.phase.keys, tx.phase.n);
    var after := OpenAll(db.findings, tx.snapshot.orgID, Found(digest, tx));
    var tx' := tx.(phase := Resolving(keys, n + 1), delta := WriteResolved(db, tx, keys[n]));
    SameFound(digest, tx, tx');
    SameStale(digest, db.findings, tx, tx');
    assert keys[n] in keys;
    StaleKeysAreOpen(digest, db.findings, tx, keys[n]);
    ResolveOne(db.findings, tx.delta.findings, after, keys, n, tx.now);
    NamedPackagesAreLocked(db.packages, tx, keys[n].packageID);
  }

  lemma StaleKeysAreOpen(digest: Digest, findings: Findings, tx: Tx, key: FindingKey)
    requires key in Stale(digest, findings, tx)
    ensures key in OpenAll(findings, tx.snapshot.orgID, Found(digest, tx))
    ensures key.orgID == tx.snapshot.orgID && key.packageID in PackageIDs(tx.snapshot.packages)
  {
    hide Found, OpenAll, PackageIDs, KeyText, KeyTexts;
  }

  lemma ResolveOne(findings: Findings, d: Findings, after: Findings, keys: seq<FindingKey>, n: nat, now: Time)
    requires findings + d == ResolveAll(after, FirstKeys(keys, n), now)
    requires n < |keys| && keys[n] in after && forall k :: 0 <= k < n ==> keys[k] != keys[n]
    ensures keys[n] in findings + d
    ensures findings + d[keys[n] := ResolvedRow((findings + d)[keys[n]], now)] == ResolveAll(after, FirstKeys(keys, n + 1), now)
  {
    hide ResolveAll, ResolvedRow, FirstKeys;
    OneMoreKey(after, keys, n, now);
    Merge(findings, d, keys[n], ResolvedRow((findings + d)[keys[n]], now));
  }

  lemma OneMoreKey(findings: Findings, keys: seq<FindingKey>, n: nat, now: Time)
    requires n < |keys| && keys[n] in findings && forall k :: 0 <= k < n ==> keys[k] != keys[n]
    ensures var table := ResolveAll(findings, FirstKeys(keys, n), now);
      && keys[n] in table
      && table[keys[n] := ResolvedRow(table[keys[n]], now)] == ResolveAll(findings, FirstKeys(keys, n + 1), now)
  {
    hide ResolveAll, ResolvedRow;
    assert FirstKeys(keys, n) == (set k | 0 <= k < n :: keys[k]);
    assert FirstKeys(keys, n + 1) == (set k | 0 <= k < n + 1 :: keys[k]);
    Store.OneMoreResolved(findings, keys, n, now);
  }

  /** The parts of the state of a transaction that a statement leaves alone. */
  lemma HostsStay(hosts: Hosts, tx: Tx, tx': Tx)
    requires HostsOK(hosts, tx) && tx'.snapshot == tx.snapshot && tx'.delta.hosts == tx.delta.hosts
    requires HostsDone(tx') == HostsDone(tx) && !tx'.phase.UpsertingHosts?
    ensures HostsOK(hosts, tx')
  {
  }

  lemma PackagesStay(packages: Packages, tx: Tx, tx': Tx)
    requires PackagesOK(packages, tx) && tx'.snapshot == tx.snapshot && tx'.delta.packages == tx.delta.packages
    requires PackagesDone(tx') == PackagesDone(tx) && (tx'.phase.UpsertingPackages? ==> tx'.phase.n == 0)
    ensures PackagesOK(packages, tx')
  {
  }

  lemma FindingsStay(digest: Digest, findings: Findings, tx: Tx, tx': Tx)
    requires FindingsOK(digest, findings, tx) && !Reading(tx)
    requires tx'.delta.findings == tx.delta.findings && tx.delta.packages.Keys <= tx'.delta.packages.Keys
    requires !Reading(tx') || tx'.phase == Opening(0)
    requires Running(tx) && Running(tx')
    ensures FindingsOK(digest, findings, tx')
  {
    hide Found;
    assert Found(digest, tx')[..0] == [];
  }

  lemma FindingsEnd(digest: Digest, findings: Findings, tx: Tx, tx': Tx)
    requires FindingsOK(digest, findings, tx)
    requires (tx.phase.Resolving? && tx.phase.n == |tx.phase.keys|) || tx.phase.Inserted?
    requires tx'.phase.Inserted? || tx'.phase.Ready?
    requires tx'.snapshot == tx.snapshot && tx'.now == tx.now && tx'.seen == tx.seen
    requires tx'.delta.findings == tx.delta.findings && tx'.delta.packages == tx.delta.packages
    ensures FindingsOK(digest, findings, tx')
  {
    hide Found, ResolveAll, KeyText, KeyTexts, OpenAll, PackageIDs;
    SameFound(digest, tx, tx');
    if tx.phase.Resolving? {
      assert FirstKeys(tx.phase.keys, tx.phase.n) == Stale(digest, findings, tx);
    }
  }

  lemma InventoryStatementKeeps(digest: Digest, db: Tables, tx: Tx)
    requires OnTrack(digest, db, tx) && ForeignKeys(db) && (tx.phase.UpsertingHosts? || tx.phase.UpsertingPackages?)
    ensures OnTrack(digest, db, Statement(digest, db, tx))
  {
    hide Found, HostsOK, PackagesOK, FindingsOK, UpsertHost, UpsertPackage, Overlay;
    var tx' := Statement(digest, db, tx);
    if tx.phase.UpsertingHosts? {
      if tx.phase.n < |tx.snapshot.hosts| {
        WriteHostKeeps(db, tx);
      } else {
        HostsAllDone(db.hosts, tx);
        HostsStay(db.hosts, tx, tx');
      }
      PackagesStay(db.packages, tx, tx');
    } else {
      HostsStay(db.hosts, tx, tx');
      if tx.phase.n < |tx.snapshot.packages| {
        WritePackageKeeps(db, tx);
      } else {
        PackagesAllDone(db.packages, tx);
        PackagesStay(db.packages, tx, tx');
      }
    }
    FindingsStay(digest, db.findings, tx, tx');
  }

  /** A statement on findings or status rows. */
  lemma FindingStatementKeeps(digest: Digest, db: Tables, tx: Tx)
    requires OnTrack(digest, db, tx) && Executing(digest, tx) && Reading(tx)
    ensures OnTrack(digest, db, Statement(digest, db, tx))
  {
    hide Found, HostsOK, PackagesOK, FindingsOK, StatusOK, CatalogueOK, ReportOK, WriteOpen, WriteResolved, WriteStatus, Key, Row;
    var tx' := Statement(digest, db, tx);
    if Running(tx') {
      StatementTouches(digest, db, tx);
      HostsStay(db.hosts, tx, tx');
      PackagesStay(db.packages, tx, tx');
      CatalogueStays(db, tx, tx');
      ReportStays(digest, db.findings, tx, tx');
      match tx.phase
      case Opening(n) =>
        WriteOpenKeeps(digest, db, tx);
        StatusStays(db.status, tx, tx');
      case Resolving(keys, n) =>
        StatusStays(db.status, tx, tx');
        if n < |keys| {
          WriteResolvedKeeps(digest, db, tx);
        } else {
          KeysAllDone(digest, db.findings, tx);
          FindingsEnd(digest, db.findings, tx, tx');
        }
      case Inserted =>
        FindingsEnd(digest, db.findings, tx, tx');
        WriteStatusKeeps(db, tx);
    }
  }

  /** Once it reads findings, a transaction writes no more host or package rows. */
  lemma StatementTouches(digest: Digest, db: Tables, tx: Tx)
    requires Executing(digest, tx) && Reading(tx) && Running(Statement(digest, db, tx))
    ensures var tx' := Statement(digest, db, tx);
      && Reading(tx') && tx' == tx.(phase := tx'.phase, delta := tx'.delta)
      && tx'.delta.hosts == tx.delta.hosts && tx'.delta.packages == tx.delta.packages
      && (!tx.phase.Inserted? ==> tx'.delta.status == tx.delta.status)
      && (tx.phase.Opening? ==> tx'.phase.Opening?)
      && (!tx.phase.Opening? && !(tx.phase.Resolving? && tx.phase.n < |tx.phase.keys|) ==> tx'.delta.findings == tx.delta.findings)
  {
    hide Found, Overlay, UpsertOpenFinding, ResolvedRow, TouchInventoryStatus, Key, Row;
  }

  lemma ReportStays(digest: Digest, findings: Findings, tx: Tx, tx': Tx)
    requires ReportOK(digest, findings, tx) && tx' == tx.(phase := tx'.phase, delta := tx'.delta)
    requires tx.phase.Opening? ==> tx'.phase.Opening?
    requires Reading(tx) && Reading(tx')
    ensures ReportOK(digest, findings, tx')
  {
    hide Found, Stale, Resolves;
    SameFound(digest, tx, tx');
    SameStale(digest, findings, tx, tx');
  }

  lemma CatalogueStays(db: Tables, tx: Tx, tx': Tx)
    requires CatalogueOK(db, tx) && Reading(tx) && tx'.seen == tx.seen && tx'.delta.packages == tx.delta.packages
    ensures CatalogueOK(db, tx')
  {
  }

  lemma StatusStays(status: map<string, StatusRow>, tx: Tx, tx': Tx)
    requires StatusOK(status, tx) && !tx.phase.Ready? && !tx'.phase.Ready? && tx'.delta.status == tx.delta.status
    ensures StatusOK(status, tx')
  {
  }

  lemma SelectStaleKeeps(digest: Digest, db: Tables, tx: Tx, keys: seq<FindingKey>)
    requires OnTrack(digest, db, tx)
    requires tx.phase == Opening(|Found(digest, tx)|) && Lists(keys, StaleNow(digest, db, tx))
    ensures OnTrack(digest, db, tx.(phase := Resolving(keys, 0), report := Found(digest, tx) + ResolvedReports(db, tx, keys)))
  {
    hide Found, HostsOK, PackagesOK, Lists, KeyText, KeyTexts, OpenAll, StaleNow, Stale, Resolves, ResolvedReports, Overlay;
    StaleRowsExist(digest, db, tx, keys);
    var tx' := tx.(phase := Resolving(keys, 0), report := Found(digest, tx) + ResolvedReports(db, tx, keys));
    HostsStay(db.hosts, tx, tx');
    PackagesStay(db.packages, tx, tx');
    StaleNowIsStale(digest, db, tx);
    SameFound(digest, tx, tx');
    SameStale(digest, db.findings, tx, tx');
    assert Found(digest, tx)[..|Found(digest, tx)|] == Found(digest, tx);
    Store.NothingStale(OpenAll(db.findings, tx.snapshot.orgID, Found(digest, tx)), tx.now);
    assert FirstKeys(keys, 0) == {};
    ResolvedReportsResolve(digest, db, tx, keys);
    assert tx'.report[|Found(digest, tx)|..] == ResolvedReports(db, tx, keys);
  }

  lemma StaleRowsExist(digest: Digest, db: Tables, tx: Tx, keys: seq<FindingKey>)
    requires Lists(keys, StaleNow(digest, db, tx))
    ensures forall key :: key in keys ==> key in Overlay(db, tx.delta).findings && key.cveID in db.cves
  {
    hide Found, KeyText, KeyTexts, PackageIDs, Overlay;
  }

  lemma ResolvedReportsResolve(digest: Digest, db: Tables, tx: Tx, keys: seq<FindingKey>)
    requires Lists(keys, StaleNow(digest, db, tx))
    ensures Resolves(ResolvedReports(db, tx, keys), tx.snapshot.orgID, StaleNow(digest, db, tx))
  {
    hide ResolvedReports, Found, KeyText, KeyTexts, PackageIDs;
    var (org, reports) := (tx.snapshot.orgID, ResolvedReports(db, tx, keys));
    assert forall i :: 0 <= i < |keys| ==> keys[i] in keys;
    forall i | 0 <= i < |reports|
      ensures KeyOf(org, reports[i]) == keys[i]
    {
      assert keys[i] in StaleNow(digest, db, tx);
    }
    forall key | key in StaleNow(digest, db, tx)
      ensures ReportedIn(reports, org, key)
    {
      var i :| 0 <= i < |keys| && keys[i] == key;
      assert reports[i] in reports;
    }
  }

  lemma SameStale(digest: Digest, findings: Findings, tx: Tx, tx': Tx)
    requires tx'.snapshot == tx.snapshot && tx'.now == tx.now && tx'.seen == tx.seen
    ensures Stale(digest, findings, tx') == Stale(digest, findings, tx)
  {
    hide Found, KeyTexts, OpenAll, PackageIDs;
    SameFound(digest, tx, tx');
  }

  lemma HostsAllDone(hosts: Hosts, tx: Tx)
    requires HostsOK(hosts, tx) && tx.phase.UpsertingHosts? && tx.phase.n >= |tx.snapshot.hosts|
    ensures HostsDone(tx) == tx.snapshot.hosts
  {
  }

  lemma PackagesAllDone(packages: Packages, tx: Tx)
    requires PackagesOK(packages, tx) && tx.phase.UpsertingPackages? && tx.phase.n >= |tx.snapshot.packages|
    ensures PackagesDone(tx) == tx.snapshot.packages
  {
  }

  lemma KeysAllDone(digest: Digest, findings: Findings, tx: Tx)
    requires FindingsOK(digest, findings, tx) && tx.phase.Resolving? && tx.phase.n >= |tx.phase.keys|
    ensures tx.phase.n == |tx.phase.keys|
  {
  }

  // ----- Commits of others -----

  lemma OverlayAt<K, V>(m: map<K, V>, d: map<K, V>, k: K)
    ensures Get(m + d, k) == if k in d then Some(d[k]) else Get(m, k)
  {
  }

  lemma HostsFrame(hosts: Hosts, d: Hosts, tx: Tx)
    requires HostsOK(hosts, tx) && d.Keys !! tx.delta.hosts.Keys
    ensures HostsOK(hosts + d, tx)
  {
    hide UpsertHosts, HostsDone, Runs.LastHost;
    var (org, rows) := (tx.snapshot.orgID, HostsDone(tx));
    forall k
      ensures Get(hosts + d + tx.delta.hosts, k) == Get(UpsertHosts(hosts + d, org, rows), k)
    {
      Runs.HostsAfterSnapshot(hosts, org, rows, k);
      Runs.HostsAfterSnapshot(hosts + d, org, rows, k);
      OverlayAt(hosts, tx.delta.hosts, k);
      OverlayAt(hosts + d, tx.delta.hosts, k);
    }
    MapsEqual(hosts + d + tx.delta.hosts, UpsertHosts(hosts + d, org, rows));
  }

  lemma {:induction false} PackagesLocal(p: Packages, q: Packages, orgID: string, rows: seq<InventoryPackage>, key: PackageKey)
    requires Get(p, key) == Get(q, key)
    ensures Get(UpsertPackages(p, orgID, rows), key) == Get(UpsertPackages(q, orgID, rows), key)
  {
    if rows != [] {
      PackagesLocal(p, q, orgID, rows[..|rows| - 1], key);
    }
  }

  lemma PackagesFrame(packages: Packages, d: Packages, tx: Tx)
    requires PackagesOK(packages, tx) && d.Keys !! tx.delta.packages.Keys
    ensures PackagesOK(packages + d, tx)
  {
    hide UpsertPackages, PackagesDone, Runs.LastPackage, Runs.Earliest;
    var (org, rows) := (tx.snapshot.orgID, PackagesDone(tx));
    forall k
      ensures Get(packages + d + tx.delta.packages, k) == Get(UpsertPackages(packages + d, org, rows), k)
    {
      OverlayAt(packages, d, k);
      OverlayAt(packages, tx.delta.packages, k);
      OverlayAt(packages + d, tx.delta.packages, k);
      if k in tx.delta.packages {
        PackagesLocal(packages, packages + d, org, rows, k);
      } else {
        Runs.PackagesAfterSnapshot(packages + d, org, rows, k);
      }
    }
    MapsEqual(packages + d + tx.delta.packages, UpsertPackages(packages + d, org, rows));
  }

  lemma StatusFrame(status: map<string, StatusRow>, d: map<string, StatusRow>, tx: Tx)
    requires StatusOK(status, tx) && d.Keys !! tx.delta.status.Keys
    ensures StatusOK(status + d, tx)
  {
    var org := tx.snapshot.orgID;
    if tx.phase.Ready? {
      assert org in tx.delta.status && org !in d;
      assert (status + tx.delta.status)[org] == tx.delta.status[org];
      assert status + d + tx.delta.status == TouchInventoryStatus(status + d, org, tx.now);
    } else {
      assert status + d + tx.delta.status == status + d;
    }
  }

  /** The two tables agree on every finding whose package the transaction has locked. */
  ghost predicate SameWhereGuarded(f: Findings, g: Findings, tx: Tx) {
    forall key :: Guards(tx, key) ==> Get(f, key) == Get(g, key)
  }

  lemma OpenedLocal(digest: Digest, f: Findings, g: Findings, tx: Tx, n: nat, key: FindingKey)
    ensures var (f', g') := (OpenAll(f, tx.snapshot.orgID, Prefix(Found(digest, tx), n)), OpenAll(g, tx.snapshot.orgID, Prefix(Found(digest, tx), n)));
      && (Get(f, key) == Get(g, key) ==> Get(f', key) == Get(g', key))
      && (key.orgID != tx.snapshot.orgID || key.packageID !in PackageIDs(tx.snapshot.packages) ==> Get(f', key) == Get(f, key))
  {
    hide Found, OpenAll, OpenRow, PackageIDs, Theorems.LastFor;
    var (org, some) := (tx.snapshot.orgID, Prefix(Found(digest, tx), n));
    forall x | x in some
      ensures x.firstSeenAt == tx.now && x.packageID in PackageIDs(tx.snapshot.packages)
    {
      FoundFacts(digest, tx, x);
    }
    Theorems.OpenAllRow(f, org, some, tx.now, key);
    Theorems.OpenAllRow(g, org, some, tx.now, key);
    Theorems.LastForIsInList(org, some, key);
  }

  lemma StaleLocal(digest: Digest, packages: Packages, f: Findings, g: Findings, tx: Tx)
    requires SameWhereGuarded(f, g, tx) && Reading(tx) && PackagesOK(packages, tx)
    ensures Stale(digest, f, tx) == Stale(digest, g, tx)
  {
    hide Found, OpenAll, PackageIDs, KeyText, KeyTexts, PackagesOK, Prefix;
    var (org, found) := (tx.snapshot.orgID, Found(digest, tx));
    forall key: FindingKey | key.orgID == org && key.packageID in PackageIDs(tx.snapshot.packages)
      ensures Get(OpenAll(f, org, found), key) == Get(OpenAll(g, org, found), key)
    {
      NamedPackagesAreLocked(packages, tx, key.packageID);
      PrefixOfAll(found);
      OpenedLocal(digest, f, g, tx, |found|, key);
    }
  }

  lemma PrefixOfAll<T>(rows: seq<T>)
    ensures Prefix(rows, |rows|) == rows
  {
  }

  lemma ResolvedAt(f: Findings, stale: set<FindingKey>, now: Time, key: FindingKey)
    ensures Get(ResolveAll(f, stale, now), key) ==
      if key !in f then None else Some(if key in stale then ResolvedRow(f[key], now) else f[key])
  {
  }

  lemma DoneLocal(digest: Digest, f: Findings, g: Findings, tx: Tx, key: FindingKey)
    requires Reading(tx) && Stale(digest, f, tx) == Stale(digest, g, tx)
    requires FindingsOK(digest, f, tx)
    ensures Get(f, key) == Get(g, key) ==> Get(FindingsDone(digest, f, tx), key) == Get(FindingsDone(digest, g, tx), key)
    ensures key.orgID != tx.snapshot.orgID || key.packageID !in PackageIDs(tx.snapshot.packages) ==>
      Get(FindingsDone(digest, g, tx), key) == Get(g, key)
  {
    hide Found, OpenAll, ResolveAll, ResolvedRow, PackageIDs, KeyText, KeyTexts, Prefix;
    var (org, found) := (tx.snapshot.orgID, Found(digest, tx));
    PrefixOfAll(found);
    var n := if tx.phase.Opening? then tx.phase.n else |found|;
    OpenedLocal(digest, f, g, tx, n, key);
    OpenedLocal(digest, g, f, tx, n, key);
    var resolved := if tx.phase.Resolving? then FirstKeys(tx.phase.keys, tx.phase.n) else Stale(digest, f, tx);
    assert key in resolved ==> key in Stale(digest, f, tx);
    ResolvedAt(OpenAll(f, org, found), resolved, tx.now, key);
    ResolvedAt(OpenAll(g, org, found), resolved, tx.now, key);
  }

  lemma FindingsFrame(digest: Digest, packages: Packages, findings: Findings, d: Findings, tx: Tx)
    requires FindingsOK(digest, findings, tx) && PackagesOK(packages, tx) && Running(tx)
    requires d.Keys !! tx.delta.findings.Keys && SameWhereGuarded(findings, findings + d, tx)
    ensures FindingsOK(digest, findings + d, tx)
  {
    hide Found, Stale, PackagesOK, Lists, PackageIDs;
    var g := findings + d;
    if Reading(tx) {
      StaleLocal(digest, packages, findings, g, tx);
    }
    forall key
      ensures Get(g + tx.delta.findings, key) == Get(FindingsDone(digest, g, tx), key)
    {
      OverlayAt(findings, tx.delta.findings, key);
      OverlayAt(findings, d, key);
      OverlayAt(g, tx.delta.findings, key);
      if Reading(tx) {
        hide FindingsDone;
        DoneLocal(digest, findings, g, tx, key);
        if !Guards(tx, key) && key.orgID == tx.snapshot.orgID && key.packageID in PackageIDs(tx.snapshot.packages) {
          NamedPackagesAreLocked(packages, tx, key.packageID);
        }
      }
    }
    MapsEqual(g + tx.delta.findings, FindingsDone(digest, g, tx));
  }

  lemma ReportFrame(digest: Digest, packages: Packages, f: Findings, g: Findings, tx: Tx)
    requires ReportOK(digest, f, tx) && PackagesOK(packages, tx) && SameWhereGuarded(f, g, tx)
    ensures ReportOK(digest, g, tx)
  {
    hide Found, Stale, PackagesOK, Resolves;
    if Reading(tx) {
      StaleLocal(digest, packages, f, g, tx);
    }
  }

  /** The commit of another transaction does not disturb a transaction. */
  lemma OthersCommit(digest: Digest, db: Tables, tx: Tx, other: Tx)
    requires OnTrack(digest, db, tx) && OnTrack(digest, db, other) && Disjoint(tx.delta, other.delta)
    ensures OnTrack(digest, Overlay(db, other.delta), tx)
  {
    hide HostsOK, PackagesOK, StatusOK, ReportOK, FindingsDone, Found, Stale, Lists;
    if Running(tx) {
      forall key | Guards(tx, key)
        ensures key !in other.delta.findings
      {
        assert key in other.delta.findings ==> Guards(other, key);
      }
      assert SameWhereGuarded(db.findings, db.findings + other.delta.findings, tx);
      hide FindingsOK;
      HostsFrame(db.hosts, other.delta.hosts, tx);
      PackagesFrame(db.packages, other.delta.packages, tx);
      StatusFrame(db.status, other.delta.status, tx);
      FindingsFrame(digest, db.packages, db.findings, other.delta.findings, tx);
      ReportFrame(digest, db.packages, db.findings, db.findings + other.delta.findings, tx);
    }
  }

  // ----- The commit -----

  /** What a transaction commits is what it would have done alone, at this moment, with the catalogue it has selected
      from. */
  lemma CommitIsAtomic(digest: Digest, db: Tables, tx: Tx)
    requires OnTrack(digest, db, tx) && HoldsKey(tx) && tx.phase.Ready?
    ensures Overlay(db, tx.delta) == With(Applied(digest, With(db, tx.seen), tx.snapshot, tx.now), CatalogueOf(db))
  {
    hide Found, UpsertHosts, UpsertPackages, OpenAll, StaleKeys, KeyTexts, PackageIDs, ResolveAll, TouchInventoryStatus, SnapshotMatches;
    FoundIsSnapshotMatches(digest, db, tx);
    var base := With(db, tx.seen);
    assert FindingsOpened(digest, base, tx.snapshot, tx.now) == OpenAll(db.findings, tx.snapshot.orgID, Found(digest, tx));
    assert SnapshotStale(digest, base, tx.snapshot, tx.now) == Stale(digest, db.findings, tx);
    assert db.snapshots + tx.delta.snapshots == db.snapshots[Key(tx) := Row(tx)];
  }

  lemma RunOfOne(digest: Digest, db: Tables, e: Runs.Event)
    ensures Runs.Run(digest, db, [e]) == Runs.Step(digest, db, e)
  {
    Runs.RunAppends(digest, db, [], e);
    assert [] + [e] == [e];
  }

  lemma {:induction false} RunConcat(digest: Digest, db: Tables, xs: seq<Runs.Event>, ys: seq<Runs.Event>)
    ensures Runs.Run(digest, db, xs + ys) == Runs.Run(digest, Runs.Run(digest, db, xs), ys)
    decreases |ys|
  {
    hide Runs.Step;
    if ys == [] {
      assert xs + ys == xs;
    } else {
      assert xs + ys == (xs + [ys[0]]) + ys[1..];
      RunConcat(digest, db, xs + [ys[0]], ys[1..]);
      Runs.RunAppends(digest, db, xs, ys[0]);
    }
  }

  /** A commit is the serial steps recorded for it. */
  lemma CommitIsSerial(digest: Digest, db: Tables, tx: Tx)
    requires OnTrack(digest, db, tx) && HoldsKey(tx) && tx.phase.Ready? && Key(tx) !in db.snapshots
    ensures Overlay(db, tx.delta) == Runs.Run(digest, db, CommitEvents(db, tx))
  {
    hide OnTrack, HoldsKey, Overlay, Applied, KeyOfSnapshot, Runs.Run;
    CommitIsAtomic(digest, db, tx);
    var applied := Runs.Snapshot(tx.snapshot, tx.now);
    if tx.seen == CatalogueOf(db) {
      RunOfOne(digest, db, applied);
      assert With(db, tx.seen) == db;
      AppliedKeepsCatalogue(digest, db, tx);
    } else {
      var back, forth := Runs.Sync(tx.seen.cves, tx.seen.affected), Runs.Sync(db.cves, db.affected);
      Runs.RunOfTwo(digest, db, back, applied);
      Runs.RunAppends(digest, db, [back, applied], forth);
      assert CommitEvents(db, tx) == [back, applied] + [forth];
    }
  }

  lemma AppliedKeepsCatalogue(digest: Digest, db: Tables, tx: Tx)
    ensures With(Applied(digest, db, tx.snapshot, tx.now), CatalogueOf(db)) == Applied(digest, db, tx.snapshot, tx.now)
  {
  }

  lemma CommitKeepsForeignKeys(digest: Digest, db: Tables, tx: Tx)
    requires OnTrack(digest, db, tx) && tx.phase.Ready? && ForeignKeys(db)
    ensures ForeignKeys(Overlay(db, tx.delta))
  {
    hide Found, HostsOK, PackagesOK, StatusOK, OpenAll, Stale, Guards;
    var db' := Overlay(db, tx.delta);
    forall key | key in db'.findings
      ensures key.cveID in db'.cves
    {
      assert key in OpenAll(db.findings, tx.snapshot.orgID, Found(digest, tx));
      OpenedKey(digest, db.findings, tx, key);
    }
  }

  // ----- Over every run -----

  ghost predicate AllOnTrack(digest: Digest, s: State) {
    ForeignKeys(s.db) && forall t :: t in s.txs ==> OnTrack(digest, s.db, s.txs[t])
  }

  lemma BeginsOnTrack(digest: Digest, db: Tables, tx: Tx)
    requires tx.phase == UpsertingHosts(0) && tx.delta == NOTHING
    ensures OnTrack(digest, db, tx)
  {
  }

  lemma MoveKeepsOnTrack(digest: Digest, s: State, a: Action)
    requires AllOnTrack(digest, s) && Enabled(digest, s, a) && Moves(a)
    ensures OnTrack(digest, s.db, Moved(digest, s, a))
  {
    hide Statement, StaleNow, Lists, Found, Key, HostsOK, PackagesOK, FindingsOK, StatusOK, CatalogueOK, ReportOK, ResolvedReports, Storable, Unlocked, ForeignKeys;
    match a
    case Start(_, _, _) | Fail(_) =>
    case Lookup(t) =>
      if Moved(digest, s, a).phase.UpsertingHosts? {
        BeginsOnTrack(digest, s.db, Moved(digest, s, a));
      }
    case Execute(t) =>
      hide OnTrack;
      if Reading(s.txs[t]) {
        FindingStatementKeeps(digest, s.db, s.txs[t]);
      } else {
        InventoryStatementKeeps(digest, s.db, s.txs[t]);
      }
    case SelectStale(t, keys) =>
      hide OnTrack;
      SelectStaleKeeps(digest, s.db, s.txs[t], keys);
  }

  /** A sync and a changed response do not disturb a transaction. */
  lemma TablesKeepOnTrack(digest: Digest, db: Tables, db': Tables, tx: Tx)
    requires OnTrack(digest, db, tx)
    requires db'.hosts == db.hosts && db'.packages == db.packages && db'.findings == db.findings && db'.status == db.status
    requires db.cves.Keys <= db'.cves.Keys
    ensures OnTrack(digest, db', tx)
  {
    hide HostsOK, PackagesOK, FindingsOK, StatusOK, ReportOK;
  }

  /** Delivery and the answer do not concern the tables a transaction works on. */
  lemma CommittedOnTrack(digest: Digest, db: Tables, tx: Tx, tx': Tx)
    requires OnTrack(digest, db, tx) && tx.phase.Committed? && tx'.phase.Committed? && tx'.delta == tx.delta
    ensures OnTrack(digest, db, tx')
  {
  }

  lemma SameTablesOnTrack(digest: Digest, s: State, s': State)
    requires AllOnTrack(digest, s)
    requires s'.db == s.db.(snapshots := s'.db.snapshots, cves := s'.db.cves, affected := s'.db.affected)
    requires s.db.cves.Keys <= s'.db.cves.Keys && s'.txs.Keys == s.txs.Keys
    requires forall t :: t in s.txs ==>
      s'.txs[t] == s.txs[t] || (s.txs[t].phase.Committed? && s'.txs[t].phase.Committed? && s'.txs[t].delta == s.txs[t].delta)
    ensures AllOnTrack(digest, s')
  {
    hide OnTrack;
    forall t | t in s'.txs
      ensures OnTrack(digest, s'.db, s'.txs[t])
    {
      TablesKeepOnTrack(digest, s.db, s'.db, s.txs[t]);
      if s'.txs[t] != s.txs[t] {
        CommittedOnTrack(digest, s'.db, s.txs[t], s'.txs[t]);
      }
    }
  }

  lemma CommitKeepsOnTrack(digest: Digest, s: State, t: TxID)
    requires AllOnTrack(digest, s) && Locks(s) && Enabled(digest, s, CommitTx(t))
    ensures AllOnTrack(digest, Next(digest, s, CommitTx(t)))
  {
    hide OnTrack, CommitEvents, Disjoint, Overlay, Key, ForeignKeys;
    var s' := Next(digest, s, CommitTx(t));
    CommitKeepsForeignKeys(digest, s.db, s.txs[t]);
    forall u | u in s'.txs
      ensures OnTrack(digest, s'.db, s'.txs[u])
    {
      if u == t {
        EndsOnTrack(digest, s'.db, s.txs[t]);
      } else {
        OthersCommit(digest, s.db, s.txs[u], s.txs[t]);
      }
    }
  }

  lemma EndsOnTrack(digest: Digest, db: Tables, tx: Tx)
    ensures OnTrack(digest, db, End(tx, Committed))
  {
  }

  lemma MovesKeepOnTrack(digest: Digest, s: State, a: Action)
    requires AllOnTrack(digest, s) && Enabled(digest, s, a) && Moves(a)
    ensures AllOnTrack(digest, Next(digest, s, a))
  {
    hide OnTrack, ForeignKeys, Enabled, Moved;
    MoveKeepsOnTrack(digest, s, a);
  }

  lemma StepKeepsOnTrack(digest: Digest, s: State, a: Action)
    requires AllOnTrack(digest, s) && Locks(s) && Enabled(digest, s, a)
    ensures AllOnTrack(digest, Next(digest, s, a))
  {
    hide AllOnTrack, Locks, Moved, CommitEvents, Overlay, Key, Executing, Lists, StaleNow, Storable, Statement, AnswerOf;
    match a
    case CommitTx(t) => CommitKeepsOnTrack(digest, s, t);
    case Deliver(_) | Answer(_, _, _) | Sync(_, _) => SameTablesOnTrack(digest, s, Next(digest, s, a));
    case _ => MovesKeepOnTrack(digest, s, a);
  }

  lemma StepKeepsHistory(digest: Digest, start: Tables, s: State, a: Action)
    requires AllOnTrack(digest, s) && HeldInv(s) && Enabled(digest, s, a)
    requires s.db == Runs.Run(digest, start, s.history)
    ensures Next(digest, s, a).db == Runs.Run(digest, start, Next(digest, s, a).history)
  {
    hide OnTrack, Moved, CommitEvents, Overlay, Key, Row, Executing, Lists, StaleNow, Storable, Statement, Runs.Run, ForeignKeys, Unlocked, AnswerOf;
    match a
    case CommitTx(t) =>
      var tx := s.txs[t];
      assert HoldsKey(tx) && Key(tx) in tx.delta.snapshots;
      CommitIsSerial(digest, s.db, tx);
      RunConcat(digest, start, s.history, CommitEvents(s.db, tx));
    case Answer(t, delivered, stored) =>
      Runs.RunAppends(digest, start, s.history, Runs.UpdateResponse(Key(s.txs[t]), AnswerOf(s.txs[t], delivered)));
    case Sync(cves, affected) =>
      Runs.RunAppends(digest, start, s.history, Runs.Sync(cves, affected));
    case _ =>
  }

  // ----- Which snapshots the serial run applies -----

  /** The snapshots of a run, in order. */
  function Snapshots(events: seq<Runs.Event>): seq<Runs.Event> {
    if events == [] then []
    else
      var last := events[|events| - 1];
      Snapshots(events[..|events| - 1]) + if last.Snapshot? then [last] else []
  }

  lemma {:induction false} SnapshotsOfTwo(xs: seq<Runs.Event>, ys: seq<Runs.Event>)
    ensures Snapshots(xs + ys) == Snapshots(xs) + Snapshots(ys)
  {
    if ys == [] {
      assert xs + ys == xs;
    } else {
      assert (xs + ys)[..|xs + ys| - 1] == xs + ys[..|ys| - 1];
      SnapshotsOfTwo(xs, ys[..|ys| - 1]);
    }
  }

  lemma SnapshotsOfOne(e: Runs.Event)
    ensures Snapshots([e]) == if e.Snapshot? then [e] else []
  {
    assert [e][..0] == [];
  }

  lemma SnapshotsOfCommit(db: Tables, tx: Tx)
    ensures Snapshots(CommitEvents(db, tx)) == [Runs.Snapshot(tx.snapshot, tx.now)]
  {
    hide Snapshots;
    var applied := Runs.Snapshot(tx.snapshot, tx.now);
    var back, forth := Runs.Sync(tx.seen.cves, tx.seen.affected), Runs.Sync(db.cves, db.affected);
    SnapshotsOfOne(back);
    SnapshotsOfOne(applied);
    SnapshotsOfOne(forth);
    SnapshotsOfTwo([back], [applied]);
    SnapshotsOfTwo([back] + [applied], [forth]);
    assert [back] + [applied] + [forth] == [back, applied, forth];
  }

  /** The serial run applies exactly the snapshots that have committed, in commit order. */
  ghost predicate ListsCommits(s: State) {
    && |Snapshots(s.history)| == |s.commits|
    && forall i :: 0 <= i < |s.commits| ==> CommittedAs(s, s.commits[i], Snapshots(s.history)[i])
  }

  predicate CommittedAs(s: State, t: TxID, e: Runs.Event) {
    t in s.txs && e == Runs.Snapshot(s.txs[t].snapshot, s.txs[t].now)
  }

  /** Steps that apply no snapshot. */
  lemma OthersListCommits(s: State, s': State, events: seq<Runs.Event>)
    requires ListsCommits(s) && s'.commits == s.commits && s'.history == s.history + events && Snapshots(events) == []
    requires forall t :: t in s.commits ==>
      t in s.txs && t in s'.txs && s'.txs[t].snapshot == s.txs[t].snapshot && s'.txs[t].now == s.txs[t].now
    ensures ListsCommits(s')
  {
    hide Snapshots;
    SnapshotsOfTwo(s.history, events);
  }

  lemma CommitListsCommits(s: State, s': State, t: TxID)
    requires ListsCommits(s) && CommitsInv(s) && InPhase(s, t, Ready)
    requires s'.txs == s.txs[t := End(s.txs[t], Committed)] && s'.commits == s.commits + [t]
    requires s'.history == s.history + CommitEvents(s.db, s.txs[t])
    ensures ListsCommits(s')
  {
    hide Snapshots, CommitEvents;
    SnapshotsOfTwo(s.history, CommitEvents(s.db, s.txs[t]));
    SnapshotsOfCommit(s.db, s.txs[t]);
    forall i | 0 <= i < |s'.commits|
      ensures CommittedAs(s', s'.commits[i], Snapshots(s'.history)[i])
    {
      if i < |s.commits| {
        assert CommittedAs(s, s.commits[i], Snapshots(s.history)[i]);
        assert s.commits[i] in s.commits;
      }
    }
  }

  lemma StepListsCommits(digest: Digest, s: State, a: Action)
    requires ListsCommits(s) && Locks(s) && HeldInv(s) && CommitsInv(s) && Enabled(digest, s, a)
    ensures ListsCommits(Next(digest, s, a))
  {
    hide Moved, Unlocked, HoldsKey, Locks, HeldInv, Overlay, Key, Executing, Lists, StaleNow, Storable, Statement, CommitEvents;
    hide ListsCommits, AnswerOf, Snapshots, Found;
    var s' := Next(digest, s, a);
    assert Snapshots([]) == [] by {
      NoSnapshots();
    }
    match a
    case CommitTx(t) => CommitListsCommits(s, s', t);
    case Answer(t, delivered, stored) =>
      var e := Runs.UpdateResponse(Key(s.txs[t]), AnswerOf(s.txs[t], delivered));
      SnapshotsOfOne(e);
      assert s.history + [] == s.history;
      OthersListCommits(s, s', if stored then [e] else []);
    case Sync(cves, affected) =>
      SnapshotsOfOne(Runs.Sync(cves, affected));
      OthersListCommits(s, s', [Runs.Sync(cves, affected)]);
    case Deliver(_) =>
      assert s.history + [] == s.history;
      OthersListCommits(s, s', []);
    case _ =>
      MoveFacts(digest, s, a);
      assert s.history + [] == s.history;
      OthersListCommits(s, s', []);
  }

  lemma NoSnapshots()
    ensures Snapshots([]) == []
  {
  }

  // ----- The main result -----

  ghost predicate SerialInv(digest: Digest, start: Tables, s: State) {
    KeysInv(start, s) && AllOnTrack(digest, s) && ListsCommits(s) && s.db == Runs.Run(digest, start, s.history)
  }

  lemma {:induction false} RunKeepsSerial(digest: Digest, start: Tables, s: State, actions: seq<Action>)
    requires SerialInv(digest, start, s) && IsRun(digest, s, actions)
    ensures SerialInv(digest, start, Final(digest, s, actions))
    decreases |actions|
  {
    hide SerialInv, Next, Enabled;
    if actions != [] {
      StepKeepsSerial(digest, start, s, actions[0]);
      RunKeepsSerial(digest, start, Next(digest, s, actions[0]), actions[1..]);
    }
  }

  lemma StepKeepsSerial(digest: Digest, start: Tables, s: State, a: Action)
    requires SerialInv(digest, start, s) && Enabled(digest, s, a)
    ensures SerialInv(digest, start, Next(digest, s, a))
  {
    hide AllOnTrack, Next, Enabled, Runs.Run, Locks, HeldInv, CommittedInv, PostsInv, CommitsInv, ListsCommits;
    StepListsCommits(digest, s, a);
    StepKeepsKeys(digest, start, s, a);
    StepKeepsOnTrack(digest, s, a);
    StepKeepsHistory(digest, start, s, a);
  }

  /** However the statements of snapshot transactions interleave with each other, with syncs and with changed responses,
      the committed tables are those of the serial run of `history`: each committed snapshot as a whole, in commit order,
      matched against the catalogue its transaction has selected from, and no other snapshot. */
  lemma EveryInterleavingIsSerial(digest: Digest, db: Tables, actions: seq<Action>)
    requires ForeignKeys(db) && IsRun(digest, Initial(db), actions)
    ensures var s := Final(digest, Initial(db), actions);
      s.db == Runs.Run(digest, db, s.history) && ListsCommits(s)
  {
    hide Final, IsRun, Runs.Run;
    EmptyRun(digest, db);
    InitialKeys(db);
    RunKeepsSerial(digest, db, Initial(db), actions);
  }

  lemma EmptyRun(digest: Digest, db: Tables)
    ensures Runs.Run(digest, db, []) == db
  {
  }
}
