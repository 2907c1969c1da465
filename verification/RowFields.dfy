/** Which field goes where: rows, matches, reports and answers, field by field. */
module RowFields {
  import opened GoStrings
  import opened CveCatalogue
  import opened CtOps
  import opened SnapshotTables
  import Vuln = Matcher

  /** The package as the matcher sees it. */
  lemma MatcherInput(orgID: string, pkg: InventoryPackage)
    ensures var v := Inventory(orgID, pkg);
      && v.id == pkg.packageID && v.orgID == orgID && v.hostID == pkg.hostID
      && v.name == pkg.name && v.version == pkg.version && v.source == pkg.source && v.distroIDLike == pkg.distroIDLike
      && v.distroID == OrEmpty(pkg.distroID) && v.distroVersionID == OrEmpty(pkg.distroVersionID)
      && v.distroCodename == OrEmpty(pkg.distroCodename) && v.repository == OrEmpty(pkg.repository)
      && v.sourceName == OrEmpty(pkg.sourceName) && v.sourceVersion == OrEmpty(pkg.sourceVersion)
    ensures forall s: string :: OrEmpty(Some(s)) == s
    ensures OrEmpty(None) == ""
  {
  }

  /** A host is stored as it was sent, but for its status: without space around, and "unknown" if blank. */
  lemma HostRow(host: InventoryHost)
    ensures NormalStatus(host) == host.(status := if TrimSpace(host.status) == "" then "unknown" else TrimSpace(host.status))
  {
  }

  /** A match is stored with its own values, open, under the earlier of the first times. */
  lemma FindingRowOf(f: Finding, firstSeenAt: Time)
    ensures var row := OpenRow(f, firstSeenAt);
      && row.findingID == f.findingID && row.confidence == f.confidence && row.reason == f.matchReason
      && row.firstSeenAt == firstSeenAt && row.lastSeenAt == f.lastSeenAt && row.resolvedAt == None
      && row.packageName == f.packageName && row.installedVersion == f.installedVersion && row.fixedVersion == f.fixedVersion
      && row.source == f.source && row.severity == f.severity && row.cvssScore == f.cvssScore
      && row.knownExploited == f.knownExploited
  {
  }

  /** The id of a finding is printed from the four ids that make its key. */
  lemma FindingIDOf(digest: Digest, key: FindingKey)
    ensures StableFindingID(digest, key) ==
      "ctcve_find_" + digest(key.orgID + NUL + (key.hostID + NUL + (key.packageID + NUL + key.cveID)))
  {
    var four := [key.orgID, key.hostID, key.packageID, key.cveID];
    JoinUnfolds(key.packageID, [key.cveID], NUL);
    JoinUnfolds(key.hostID, [key.packageID, key.cveID], NUL);
    JoinUnfolds(key.orgID, [key.hostID, key.packageID, key.cveID], NUL);
    assert four == [key.orgID] + [key.hostID, key.packageID, key.cveID];
  }

  lemma JoinUnfolds(first: string, rest: seq<string>, sep: string)
    requires rest != []
    ensures Join([first] + rest, sep) == first + sep + Join(rest, sep)
    ensures Join([first], sep) == first
  {
    assert ([first] + rest)[1..] == rest;
  }

  /** What a report says about its CVE. */
  lemma SummaryOf(cve: CVERecord)
    ensures var s := Summary(cve);
      && s.title == cve.title && s.description == cve.description && s.rejected == cve.rejected
      && s.publishedAt == cve.publishedAt && s.modifiedAt == cve.modifiedAt && s.kevDueDate == cve.kevDueDate
      && s.kevVendorProject == cve.kevVendorProject && s.kevProduct == cve.kevProduct
      && s.kevRequiredAction == cve.kevRequiredAction
  {
  }

  /** The answer to a first-time snapshot, and the row under which it is stored. */
  lemma SnapshotRowOf(digest: Digest, db: Tables, snapshot: InventorySnapshot, now: Time)
    ensures var key := SnapshotKey(snapshot.orgID, snapshot.snapshotID);
      var answer := FreshResponse(snapshot);
      && answer.accepted && answer.snapshotID == snapshot.snapshotID && answer.nextAction == "none"
      && answer.hostsAccepted == |snapshot.hosts| && answer.packagesAccepted == |snapshot.packages| && answer.rowsRejected == 0
      && key in Applied(digest, db, snapshot, now).snapshots
      && var row := Applied(digest, db, snapshot, now).snapshots[key];
      && row.contractVersion == snapshot.contractVersion && row.snapshotType == snapshot.snapshotType
      && row.generatedAt == snapshot.generatedAt && row.cursor == snapshot.cursor && row.response == answer
      && row.hostsAccepted == |snapshot.hosts| && row.packagesAccepted == |snapshot.packages| && row.rowsRejected == 0
  {
    hide FindingsOpened, SnapshotStale, ResolveAll, UpsertHosts, UpsertPackages, TouchInventoryStatus;
  }

  /** The connection of the organisation is marked as used; the rest of its row and the other rows stay. */
  lemma StatusRowAfter(digest: Digest, db: Tables, snapshot: InventorySnapshot, now: Time, orgID: string)
    ensures var (before, after) := (Get(db.status, orgID), Get(Applied(digest, db, snapshot, now).status, orgID));
      if orgID != snapshot.orgID then after == before
      else
        && after.Some? && after.value.configured && after.value.enabled && after.value.lastInventoryPushAt == Some(now)
        && (before.Some? ==>
             && after.value.lastFindingIngestAt == before.value.lastFindingIngestAt
             && after.value.lastErrorCode == before.value.lastErrorCode && after.value.lastErrorAt == before.value.lastErrorAt)
        && (before.None? ==> after.value.lastFindingIngestAt == None && after.value.lastErrorCode == "" && after.value.lastErrorAt == None)
  {
    hide FindingsOpened, SnapshotStale, ResolveAll, UpsertHosts, UpsertPackages;
  }

  /** A changed answer replaces the stored one and nothing else, and is lost if there is no row. */
  lemma ResponseChanged(db: Tables, key: SnapshotKey, response: SnapshotResult, other: SnapshotKey)
    ensures var after := SetResponse(db, key, response);
      && after == db.(snapshots := after.snapshots)
      && (other != key || key !in db.snapshots ==> Get(after.snapshots, other) == Get(db.snapshots, other))
      && (key in db.snapshots ==> Get(after.snapshots, key) == Some(db.snapshots[key].(response := response)))
  {
  }

  /** The ids that must not hold a NUL: of the organisation, the snapshot, every host, and every package and its host. */
  lemma StorableExactly(snapshot: InventorySnapshot)
    ensures Storable(snapshot) <==>
      && (forall i :: 0 <= i < |snapshot.orgID| ==> snapshot.orgID[i] as int != 0)
      && (forall i :: 0 <= i < |snapshot.snapshotID| ==> snapshot.snapshotID[i] as int != 0)
      && (forall h, i :: h in snapshot.hosts && 0 <= i < |h.hostID| ==> h.hostID[i] as int != 0)
      && (forall p, i :: p in snapshot.packages && 0 <= i < |p.hostID| ==> p.hostID[i] as int != 0)
      && (forall p, i :: p in snapshot.packages && 0 <= i < |p.packageID| ==> p.packageID[i] as int != 0)
  {
    hide NULFree;
    forall s: string
      ensures NULFree(s) <==> forall i :: 0 <= i < |s| ==> s[i] as int != 0
    {
      NULFreeExactly(s);
    }
  }

  lemma NULFreeExactly(s: string)
    ensures NULFree(s) <==> forall i :: 0 <= i < |s| ==> s[i] as int != 0
  {
    assert forall i :: 0 <= i < |s| ==> (s[i] as int == 0 <==> s[i] == 0 as char);
  }
}
