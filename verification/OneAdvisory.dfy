/** The smallest catalogue with something to find, for the lemmas that need a concrete input. */
module OneAdvisory {
  import opened GoStrings
  import opened CveCatalogue
  import opened CtOps
  import opened SnapshotTables
  import opened SnapshotTheorems
  import Vuln = Matcher

  const SOME_KEY := FindingKey("o", "h", "p", "c")
  const SOME_CVE := CVERecord("c", "", "", "", None, None, None, false, false, None, "", "", "", "", "")
  const SOME_ROW := Vuln.AffectedPackage("c", "", "", "", "", "x", "", "", ["1"], "", "", "")
  const ONE_ADVISORY := Tables(map[], map[], map[], map[], map[], map["c" := SOME_CVE], [SOME_ROW])

  const SOME_PACKAGE := InventoryPackage(
    "p", "h", "x", "1", None, "dpkg", "", None, None, None, [], None, None, None, None, None, None, None, 1, 1, None, None)
  const SOME_SNAPSHOT := InventorySnapshot("2026-04-30", "o", "s", "full", 1, None, [], [SOME_PACKAGE])
  const UPGRADED := SOME_SNAPSHOT.(snapshotID := "t", packages := [SOME_PACKAGE.(version := "2")])

  /** The host is gone, and nothing is said about its packages. */
  const HOST_DELETED := SOME_SNAPSHOT.(snapshotID := "u", packages := [],
    hosts := [InventoryHost("h", None, "h", None, None, None, None, [], "", None, Some(1))])

  lemma PackageIsAffected(db: Tables)
    requires db.affected == [SOME_ROW]
    ensures Matched(db, SOME_SNAPSHOT, SOME_KEY) && Touched(SOME_SNAPSHOT, SOME_KEY)
  {
    assert SOME_PACKAGE in SOME_SNAPSHOT.packages && SOME_ROW in db.affected;
    assert Active([], SOME_PACKAGE);
    assert Witness(SOME_SNAPSHOT, SOME_PACKAGE, SOME_ROW, SOME_KEY);
  }

  lemma UpgradeIsNotAffected(db: Tables, key: FindingKey)
    requires db.affected == [SOME_ROW]
    ensures !Matched(db, UPGRADED, key) && Touched(UPGRADED, SOME_KEY)
  {
    assert !Hit("o", UPGRADED.packages[0], SOME_ROW);
    assert SOME_PACKAGE.(version := "2") in UPGRADED.packages;
  }

  lemma IDsAreStorable()
    ensures Storable(SOME_SNAPSHOT) && Storable(UPGRADED) && Storable(HOST_DELETED) && NULFree(SOME_KEY.hostID) && NULFree(SOME_KEY.packageID)
    ensures forall findings: Findings :: findings.Keys <= {SOME_KEY} ==> Valid(ONE_ADVISORY.(findings := findings))
  {
  }

  /** A deleted host can keep an open finding. */
  lemma DeletedHostCanKeepFinding(digest: Digest, row: FindingRow, now: Time)
    requires row.resolvedAt.None?
    ensures var db := ONE_ADVISORY.(findings := map[SOME_KEY := row]);
      && Valid(db) && Storable(HOST_DELETED) && MarkedDeleted(HOST_DELETED.hosts, SOME_KEY.hostID)
      && IsOpen(Applied(digest, db, HOST_DELETED, now).findings, SOME_KEY)
  {
    hide Applied, Valid, Storable;
    IDsAreStorable();
    assert LastRowFor(HOST_DELETED.hosts, SOME_KEY.hostID, 0);
    DeletedHostFindings(digest, ONE_ADVISORY.(findings := map[SOME_KEY := row]), HOST_DELETED, now, SOME_KEY);
  }
}
