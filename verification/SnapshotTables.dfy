/** The tables a snapshot transaction reads and writes, and what each of its statements does to them. */
module SnapshotTables {
  import opened GoStrings
  import opened CveCatalogue
  import opened CtOps
  import Vuln = Matcher

  datatype HostKey = HostKey(orgID: string, hostID: string)
  datatype PackageKey = PackageKey(orgID: string, packageID: string)
  datatype FindingKey = FindingKey(orgID: string, hostID: string, packageID: string, cveID: string)
  datatype SnapshotKey = SnapshotKey(orgID: string, snapshotID: string)

  datatype FindingRow = FindingRow(
    findingID: string, confidence: string, reason: string, firstSeenAt: Time, lastSeenAt: Time,
    resolvedAt: Option<Time>, packageName: string, installedVersion: string, fixedVersion: string,
    source: string, severity: string, cvssScore: Option<real>, knownExploited: bool)

  datatype SnapshotRow = SnapshotRow(
    contractVersion: string, snapshotType: string, generatedAt: Time, cursor: Option<string>,
    hostsAccepted: nat, packagesAccepted: nat, rowsRejected: nat, response: SnapshotResult)

  datatype StatusRow = StatusRow(
    configured: bool, enabled: bool, lastInventoryPushAt: Option<Time>, lastFindingIngestAt: Option<Time>,
    lastErrorCode: string, lastErrorAt: Option<Time>)

  type Hosts = map<HostKey, InventoryHost>
  type Packages = map<PackageKey, InventoryPackage>
  type Findings = map<FindingKey, FindingRow>

  datatype Tables = Tables(
    hosts: Hosts, packages: Packages, findings: Findings, snapshots: map<SnapshotKey, SnapshotRow>,
    status: map<string, StatusRow>, cves: Table, affected: seq<Vuln.AffectedPackage>)

  /** Stands for the first 24 hexadecimal digits of SHA-256. */
  type Digest = string -> string

  const NUL: string := [0 as char]

  predicate NULFree(s: string) {
    (0 as char) !in s
  }

  // ----- Inventory -----

  function NormalStatus(host: InventoryHost): InventoryHost {
    var status := TrimSpace(host.status);
    host.(status := if status == "" then "unknown" else status)
  }

  function UpsertHost(hosts: Hosts, orgID: string, host: InventoryHost): Hosts {
    hosts[HostKey(orgID, host.hostID) := NormalStatus(host)]
  }

  function UpsertHosts(hosts: Hosts, orgID: string, rows: seq<InventoryHost>): Hosts {
    if rows == [] then hosts else UpsertHost(UpsertHosts(hosts, orgID, rows[..|rows| - 1]), orgID, rows[|rows| - 1])
  }

  function Least(a: Time, b: Time): Time {
    if a <= b then a else b
  }

  function UpsertPackage(packages: Packages, orgID: string, pkg: InventoryPackage): Packages {
    var key := PackageKey(orgID, pkg.packageID);
    packages[key := if key in packages then pkg.(firstSeenAt := Least(packages[key].firstSeenAt, pkg.firstSeenAt)) else pkg]
  }

  function UpsertPackages(packages: Packages, orgID: string, rows: seq<InventoryPackage>): Packages {
    if rows == [] then packages
    else UpsertPackage(UpsertPackages(packages, orgID, rows[..|rows| - 1]), orgID, rows[|rows| - 1])
  }

  // ----- Candidates -----

  /** A catalogue row joined with its CVE. */
  datatype Candidate = Candidate(affected: Vuln.AffectedPackage, cve: CVERecord)

  /** The non-empty binary and source package names of a snapshot. */
  function Names(packages: seq<InventoryPackage>): set<string> {
    if packages == [] then {}
    else
      var last := packages[|packages| - 1];
      Names(packages[..|packages| - 1]) + ({last.name, OrEmpty(last.sourceName)} - {""})
  }

  function Joined(cves: Table, row: Vuln.AffectedPackage): seq<Candidate> {
    if row.cveID in cves then [Candidate(row, cves[row.cveID])] else []
  }

  /** affected_packages JOIN cve_records WHERE package_name = ANY(names) OR source_package_name = ANY(names). */
  function SelectByName(affected: seq<Vuln.AffectedPackage>, cves: Table, names: set<string>): seq<Candidate> {
    if affected == [] then []
    else
      var last := affected[|affected| - 1];
      SelectByName(affected[..|affected| - 1], cves, names) +
      if last.packageName in names || last.sourcePackageName in names then Joined(cves, last) else []
  }

  /** The same join over the whole catalogue. */
  function FullScan(affected: seq<Vuln.AffectedPackage>, cves: Table): seq<Candidate> {
    if affected == [] then []
    else FullScan(affected[..|affected| - 1], cves) + Joined(cves, affected[|affected| - 1])
  }

  // ----- Matches -----

  function Inventory(orgID: string, pkg: InventoryPackage): Vuln.InventoryPackage {
    Vuln.InventoryPackage(
      pkg.packageID, orgID, pkg.hostID, pkg.name, pkg.version, pkg.source, OrEmpty(pkg.distroID), pkg.distroIDLike,
      OrEmpty(pkg.distroVersionID), OrEmpty(pkg.distroCodename), OrEmpty(pkg.sourceName), OrEmpty(pkg.sourceVersion),
      OrEmpty(pkg.repository))
  }

  /** What the last row for this host in the snapshot says; hosts not in the snapshot are not deleted. */
  predicate HostDeleted(hosts: seq<InventoryHost>, hostID: string) {
    hosts != [] &&
    var last := hosts[|hosts| - 1];
    if last.hostID == hostID then last.deletedAt.Some? else HostDeleted(hosts[..|hosts| - 1], hostID)
  }

  predicate Active(hosts: seq<InventoryHost>, pkg: InventoryPackage) {
    pkg.removedAt.None? && pkg.deletedAt.None? && !HostDeleted(hosts, pkg.hostID)
  }

  function StableFindingID(digest: Digest, key: FindingKey): string {
    "ctcve_find_" + digest(Join([key.orgID, key.hostID, key.packageID, key.cveID], NUL))
  }

  function FindingFromMatch(digest: Digest, orgID: string, pkg: InventoryPackage, candidate: Candidate, reason: string, now: Time): Finding {
    var row := candidate.affected;
    Finding(
      StableFindingID(digest, FindingKey(orgID, pkg.hostID, pkg.packageID, row.cveID)),
      pkg.hostID, pkg.packageID, row.cveID, Open, pkg.name, pkg.version, row.fixedVersion, row.source,
      if row.severity == "" then "unknown" else row.severity,
      candidate.cve.cvssScore, candidate.cve.knownExploited, "confirmed", reason, now, now, None, Summary(candidate.cve))
  }

  function PackageMatches(digest: Digest, orgID: string, pkg: InventoryPackage, candidates: seq<Candidate>, now: Time): seq<Finding> {
    if candidates == [] then []
    else
      var last := candidates[|candidates| - 1];
      var (matched, reason) := Vuln.MatchPackage(Inventory(orgID, pkg), last.affected);
      PackageMatches(digest, orgID, pkg, candidates[..|candidates| - 1], now) +
      if matched then [FindingFromMatch(digest, orgID, pkg, last, reason, now)] else []
  }

  /** A finding for every active package and every candidate that matches it, in the order of the loops. */
  function Matches(digest: Digest, orgID: string, hosts: seq<InventoryHost>, packages: seq<InventoryPackage>,
                   candidates: seq<Candidate>, now: Time): seq<Finding> {
    if packages == [] then []
    else
      var last := packages[|packages| - 1];
      Matches(digest, orgID, hosts, packages[..|packages| - 1], candidates, now) +
      if Active(hosts, last) then PackageMatches(digest, orgID, last, candidates, now) else []
  }

  // ----- Findings -----

  function KeyOf(orgID: string, f: Finding): FindingKey {
    FindingKey(orgID, f.hostID, f.packageID, f.cveID)
  }

  function OpenRow(f: Finding, firstSeenAt: Time): FindingRow {
    FindingRow(f.findingID, f.confidence, f.matchReason, firstSeenAt, f.lastSeenAt, None, f.packageName,
               f.installedVersion, f.fixedVersion, f.source, f.severity, f.cvssScore, f.knownExploited)
  }

  function UpsertOpenFinding(findings: Findings, orgID: string, f: Finding): Findings {
    var key := KeyOf(orgID, f);
    findings[key := OpenRow(f, if key in findings then Least(findings[key].firstSeenAt, f.firstSeenAt) else f.firstSeenAt)]
  }

  function OpenAll(findings: Findings, orgID: string, matches: seq<Finding>): (r: Findings)
    ensures matches == [] ==> r == findings
  {
    if matches == [] then findings
    else UpsertOpenFinding(OpenAll(findings, orgID, matches[..|matches| - 1]), orgID, matches[|matches| - 1])
  }

  /** `findingKey`: the text under which a match is remembered. */
  function KeyText(key: FindingKey): string {
    key.hostID + NUL + key.packageID + NUL + key.cveID
  }

  function KeyTexts(orgID: string, matches: seq<Finding>): set<string> {
    set f | f in matches :: KeyText(KeyOf(orgID, f))
  }

  function PackageIDs(packages: seq<InventoryPackage>): set<string> {
    set p | p in packages :: p.packageID
  }

  /** Open findings of the touched packages that were not matched again. */
  function StaleKeys(findings: Findings, cves: Table, orgID: string, packageIDs: set<string>, matched: set<string>): set<FindingKey> {
    set key | key in findings && key.orgID == orgID && key.packageID in packageIDs && findings[key].resolvedAt.None?
              && key.cveID in cves && KeyText(key) !in matched
  }

  function ResolvedRow(row: FindingRow, now: Time): FindingRow {
    row.(resolvedAt := Some(now), lastSeenAt := now)
  }

  function ResolveAll(findings: Findings, stale: set<FindingKey>, now: Time): Findings {
    map key | key in findings :: if key in stale then ResolvedRow(findings[key], now) else findings[key]
  }

  function ResolvedFinding(key: FindingKey, row: FindingRow, cve: CVERecord, now: Time): Finding {
    Finding(row.findingID, key.hostID, key.packageID, key.cveID, Resolved, row.packageName, row.installedVersion,
            row.fixedVersion, row.source, row.severity, row.cvssScore, row.knownExploited, row.confidence, row.reason,
            row.firstSeenAt, now, Some(now), Summary(cve))
  }

  // ----- The whole transaction -----

  function FreshResponse(snapshot: InventorySnapshot): SnapshotResult {
    SnapshotResult(true, snapshot.snapshotID, |snapshot.hosts|, |snapshot.packages|, 0, "none")
  }

  function NewSnapshotRow(snapshot: InventorySnapshot, response: SnapshotResult): SnapshotRow {
    SnapshotRow(snapshot.contractVersion, snapshot.snapshotType, snapshot.generatedAt, snapshot.cursor,
                response.hostsAccepted, response.packagesAccepted, response.rowsRejected, response)
  }

  function TouchInventoryStatus(status: map<string, StatusRow>, orgID: string, now: Time): map<string, StatusRow> {
    status[orgID :=
      if orgID in status then status[orgID].(configured := true, enabled := true, lastInventoryPushAt := Some(now))
      else StatusRow(true, true, Some(now), None, "", None)]
  }

  function SnapshotMatches(digest: Digest, db: Tables, snapshot: InventorySnapshot, now: Time): seq<Finding> {
    Matches(digest, snapshot.orgID, snapshot.hosts, snapshot.packages,
            SelectByName(db.affected, db.cves, Names(snapshot.packages)), now)
  }

  function FindingsOpened(digest: Digest, db: Tables, snapshot: InventorySnapshot, now: Time): Findings {
    OpenAll(db.findings, snapshot.orgID, SnapshotMatches(digest, db, snapshot, now))
  }

  function SnapshotStale(digest: Digest, db: Tables, snapshot: InventorySnapshot, now: Time): set<FindingKey> {
    StaleKeys(FindingsOpened(digest, db, snapshot, now), db.cves, snapshot.orgID, PackageIDs(snapshot.packages),
              KeyTexts(snapshot.orgID, SnapshotMatches(digest, db, snapshot, now)))
  }

  /** The tables after a first-time snapshot has committed. */
  function Applied(digest: Digest, db: Tables, snapshot: InventorySnapshot, now: Time): Tables {
    db.(
      hosts := UpsertHosts(db.hosts, snapshot.orgID, snapshot.hosts),
      packages := UpsertPackages(db.packages, snapshot.orgID, snapshot.packages),
      findings := ResolveAll(FindingsOpened(digest, db, snapshot, now), SnapshotStale(digest, db, snapshot, now), now),
      snapshots := db.snapshots[KeyOfSnapshot(snapshot) := NewSnapshotRow(snapshot, FreshResponse(snapshot))],
      status := TouchInventoryStatus(db.status, snapshot.orgID, now))
  }

  /** UPDATE ct_ops_inventory_snapshots SET response_json: nothing happens if there is no such row. */
  function SetResponse(db: Tables, key: SnapshotKey, response: SnapshotResult): Tables {
    if key in db.snapshots then db.(snapshots := db.snapshots[key := db.snapshots[key].(response := response)]) else db
  }

  function KeyOfSnapshot(snapshot: InventorySnapshot): SnapshotKey {
    SnapshotKey(snapshot.orgID, snapshot.snapshotID)
  }

  /** Text columns cannot hold the NUL character. */
  predicate Storable(snapshot: InventorySnapshot) {
    && NULFree(snapshot.orgID) && NULFree(snapshot.snapshotID)
    && (forall h :: h in snapshot.hosts ==> NULFree(h.hostID))
    && (forall p :: p in snapshot.packages ==> NULFree(p.hostID) && NULFree(p.packageID))
  }

  /** A sync deletes no CVE and respects the foreign key. */
  predicate Respects(db: Tables, cves: Table, affected: seq<Vuln.AffectedPackage>) {
    db.cves.Keys <= cves.Keys && forall row :: row in affected ==> row.cveID in cves
  }

  /** What the schema guarantees: foreign keys to cve_records, no NUL in text. */
  predicate Valid(db: Tables) {
    && (forall row :: row in db.affected ==> row.cveID in db.cves)
    && (forall key :: key in db.findings ==> key.cveID in db.cves && NULFree(key.hostID) && NULFree(key.packageID))
  }
}
