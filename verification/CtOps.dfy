/** The contract with CT Ops: inventory snapshots in, findings out. */
module CtOps {
  import opened GoStrings
  import opened CveCatalogue

  datatype InventoryHost = InventoryHost(
    hostID: string, agentID: Option<string>, hostname: string, displayName: Option<string>, os: Option<string>,
    osVersion: Option<string>, arch: Option<string>, ipAddresses: seq<string>, status: string,
    lastSeenAt: Option<Time>, deletedAt: Option<Time>)

  datatype InventoryPackage = InventoryPackage(
    packageID: string, hostID: string, name: string, version: string, architecture: Option<string>, source: string,
    fingerprint: string, distroID: Option<string>, distroVersionID: Option<string>, distroCodename: Option<string>,
    distroIDLike: seq<string>, sourceName: Option<string>, sourceVersion: Option<string>,
    packageEpoch: Option<string>, packageRelease: Option<string>, repository: Option<string>, origin: Option<string>,
    installDate: Option<Time>, firstSeenAt: Time, lastSeenAt: Time, removedAt: Option<Time>, deletedAt: Option<Time>)

  datatype InventorySnapshot = InventorySnapshot(
    contractVersion: string, orgID: string, snapshotID: string, snapshotType: string, generatedAt: Time,
    cursor: Option<string>, hosts: seq<InventoryHost>, packages: seq<InventoryPackage>)

  datatype SnapshotResult = SnapshotResult(
    accepted: bool, snapshotID: string, hostsAccepted: nat, packagesAccepted: nat, rowsRejected: nat, nextAction: string)

  datatype Status = Open | Resolved

  datatype Finding = Finding(
    findingID: string, hostID: string, packageID: string, cveID: string, status: Status, packageName: string,
    installedVersion: string, fixedVersion: string, source: string, severity: string, cvssScore: Option<real>,
    knownExploited: bool, confidence: string, matchReason: string, firstSeenAt: Time, lastSeenAt: Time,
    resolvedAt: Option<Time>, cve: CVESummary)

  datatype CVESummary = CVESummary(
    title: string, description: string, publishedAt: Option<Time>, modifiedAt: Option<Time>, rejected: bool,
    kevDueDate: Option<Time>, kevVendorProject: string, kevProduct: string, kevRequiredAction: string)

  datatype ApplyResult = ApplyResult(response: SnapshotResult, findings: seq<Finding>, replayed: bool)

  function Summary(cve: CVERecord): CVESummary {
    CVESummary(cve.title, cve.description, cve.publishedAt, cve.modifiedAt, cve.rejected,
               cve.kevDueDate, cve.kevVendorProject, cve.kevProduct, cve.kevRequiredAction)
  }

  function OrEmpty(s: Option<string>): string {
    if s.None? then "" else s.value
  }
}
