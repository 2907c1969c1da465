/** What a committed snapshot means: which findings are open afterwards, and what the name prefilter may skip. */
module SnapshotTheorems {
  import opened GoStrings
  import opened CveCatalogue
  import opened CtOps
  import opened SnapshotTables
  import Vuln = Matcher

  // ----- The name prefilter loses nothing -----

  predicate Hit(orgID: string, pkg: InventoryPackage, row: Vuln.AffectedPackage) {
    Vuln.MatchPackage(Inventory(orgID, pkg), row).0
  }

  /** The names are exactly the non-empty binary and source package names of the snapshot. */
  lemma {:induction false} NamesExactly(packages: seq<InventoryPackage>, name: string)
    ensures name in Names(packages) <==>
      name != "" && exists p :: p in packages && (p.name == name || p.sourceName == Some(name))
  {
    if packages != [] {
      var init, last := packages[..|packages| - 1], packages[|packages| - 1];
      NamesExactly(init, name);
      assert packages == init + [last];
    }
  }

  /** The candidates are exactly the catalogue rows with one of the names, joined with their CVE. */
  lemma {:induction false} CandidatesExactly(affected: seq<Vuln.AffectedPackage>, cves: Table, names: set<string>, c: Candidate)
    ensures c in SelectByName(affected, cves, names) <==>
      && c.affected in affected && (c.affected.packageName in names || c.affected.sourcePackageName in names)
      && c.affected.cveID in cves && c.cve == cves[c.affected.cveID]
  {
    if affected != [] {
      var init, last := affected[..|affected| - 1], affected[|affected| - 1];
      CandidatesExactly(init, cves, names, c);
      assert affected == init + [last];
    }
  }

  lemma {:induction false} NamesOfPackage(packages: seq<InventoryPackage>, pkg: InventoryPackage)
    requires pkg in packages
    ensures {pkg.name, OrEmpty(pkg.sourceName)} - {""} <= Names(packages)
  {
    var init, last := packages[..|packages| - 1], packages[|packages| - 1];
    if pkg != last {
      assert packages == init + [last];
      NamesOfPackage(init, pkg);
    }
  }

  /** A row that matches some package of the snapshot is found by one of the names, including through its source package. */
  lemma HitIsFoundByName(orgID: string, packages: seq<InventoryPackage>, pkg: InventoryPackage, row: Vuln.AffectedPackage)
    requires pkg in packages && Hit(orgID, pkg, row)
    ensures row.packageName in Names(packages) || row.sourcePackageName in Names(packages)
  {
    hide Names;
    NamesOfPackage(packages, pkg);
    assert Vuln.PackageNameMatches(Inventory(orgID, pkg), row);
  }

  lemma {:induction false} PackageMatchesAppends(digest: Digest, orgID: string, pkg: InventoryPackage,
                                                 xs: seq<Candidate>, ys: seq<Candidate>, now: Time)
    ensures PackageMatches(digest, orgID, pkg, xs + ys, now) ==
            PackageMatches(digest, orgID, pkg, xs, now) + PackageMatches(digest, orgID, pkg, ys, now)
  {
    hide Vuln.MatchPackage, FindingFromMatch, Inventory;
    if ys == [] {
      assert xs + ys == xs;
    } else {
      assert (xs + ys)[..|xs + ys| - 1] == xs + ys[..|ys| - 1];
      PackageMatchesAppends(digest, orgID, pkg, xs, ys[..|ys| - 1], now);
    }
  }

  lemma {:induction false} PackagePrefilter(digest: Digest, orgID: string, packages: seq<InventoryPackage>, pkg: InventoryPackage,
                                            affected: seq<Vuln.AffectedPackage>, cves: Table, now: Time)
    requires pkg in packages
    ensures PackageMatches(digest, orgID, pkg, SelectByName(affected, cves, Names(packages)), now) ==
            PackageMatches(digest, orgID, pkg, FullScan(affected, cves), now)
  {
    hide Vuln.MatchPackage, FindingFromMatch, Inventory, Names;
    if affected != [] {
      var init, last := affected[..|affected| - 1], affected[|affected| - 1];
      PackagePrefilter(digest, orgID, packages, pkg, init, cves, now);
      PackageMatchesAppends(digest, orgID, pkg, FullScan(init, cves), Joined(cves, last), now);
      if last.packageName in Names(packages) || last.sourcePackageName in Names(packages) {
        PackageMatchesAppends(digest, orgID, pkg, SelectByName(init, cves, Names(packages)), Joined(cves, last), now);
      } else {
        if Hit(orgID, pkg, last) {
          HitIsFoundByName(orgID, packages, pkg, last);
        }
        assert PackageMatches(digest, orgID, pkg, Joined(cves, last), now) == [];
        assert SelectByName(affected, cves, Names(packages)) == SelectByName(init, cves, Names(packages));
      }
    }
  }

  /** The findings computed from the prefiltered candidates are, one by one, those of a scan of the whole catalogue. */
  lemma PrefilterLosesNothing(digest: Digest, db: Tables, snapshot: InventorySnapshot, now: Time)
    ensures SnapshotMatches(digest, db, snapshot, now) ==
            Matches(digest, snapshot.orgID, snapshot.hosts, snapshot.packages, FullScan(db.affected, db.cves), now)
  {
    PrefilterOnPrefix(digest, db, snapshot, |snapshot.packages|, now);
    assert snapshot.packages[..|snapshot.packages|] == snapshot.packages;
  }

  lemma {:induction false} PrefilterOnPrefix(digest: Digest, db: Tables, snapshot: InventorySnapshot, n: nat, now: Time)
    requires n <= |snapshot.packages|
    ensures var packages := snapshot.packages[..n];
      Matches(digest, snapshot.orgID, snapshot.hosts, packages, SelectByName(db.affected, db.cves, Names(snapshot.packages)), now) ==
      Matches(digest, snapshot.orgID, snapshot.hosts, packages, FullScan(db.affected, db.cves), now)
  {
    hide SelectByName, FullScan, PackageMatches, Names, Active;
    if n > 0 {
      assert snapshot.packages[..n][..n - 1] == snapshot.packages[..n - 1];
      PrefilterOnPrefix(digest, db, snapshot, n - 1, now);
      PackagePrefilter(digest, snapshot.orgID, snapshot.packages, snapshot.packages[n - 1], db.affected, db.cves, now);
    }
  }

  // ----- Which keys are matched -----

  /** Some active row of the snapshot matches some row of the catalogue. */
  ghost predicate Matched(db: Tables, snapshot: InventorySnapshot, key: FindingKey) {
    && key.orgID == snapshot.orgID
    && exists pkg, row :: pkg in snapshot.packages && row in db.affected && Witness(snapshot, pkg, row, key)
  }

  predicate Witness(snapshot: InventorySnapshot, pkg: InventoryPackage, row: Vuln.AffectedPackage, key: FindingKey) {
    && Active(snapshot.hosts, pkg) && Hit(snapshot.orgID, pkg, row)
    && key == FindingKey(snapshot.orgID, pkg.hostID, pkg.packageID, row.cveID)
  }

  /** The last finding for a key in a list of matches. */
  function LastFor(orgID: string, matches: seq<Finding>, key: FindingKey): Option<Finding> {
    if matches == [] then None
    else
      var last := matches[|matches| - 1];
      if KeyOf(orgID, last) == key then Some(last) else LastFor(orgID, matches[..|matches| - 1], key)
  }

  lemma {:induction false} LastForIsInList(orgID: string, matches: seq<Finding>, key: FindingKey)
    ensures LastFor(orgID, matches, key).Some? ==>
      LastFor(orgID, matches, key).value in matches && KeyOf(orgID, LastFor(orgID, matches, key).value) == key
    ensures LastFor(orgID, matches, key).Some? <==> exists f :: f in matches && KeyOf(orgID, f) == key
  {
    if matches != [] {
      var init, last := matches[..|matches| - 1], matches[|matches| - 1];
      LastForIsInList(orgID, init, key);
      assert matches == init + [last];
    }
  }

  lemma {:induction false} InFullScan(affected: seq<Vuln.AffectedPackage>, cves: Table, c: Candidate)
    ensures c in FullScan(affected, cves) <==>
      c.affected in affected && c.affected.cveID in cves && c.cve == cves[c.affected.cveID]
  {
    if affected != [] {
      var init, last := affected[..|affected| - 1], affected[|affected| - 1];
      assert affected == init + [last];
      InFullScan(init, cves, c);
    }
  }

  lemma {:induction false} InPackageMatches(digest: Digest, orgID: string, pkg: InventoryPackage, candidates: seq<Candidate>, now: Time, f: Finding)
    ensures f in PackageMatches(digest, orgID, pkg, candidates, now) <==> exists c :: c in candidates && Finds(digest, orgID, pkg, c, now, f)
  {
    hide Finds;
    if candidates != [] {
      var init, last := candidates[..|candidates| - 1], candidates[|candidates| - 1];
      assert candidates == init + [last];
      InPackageMatches(digest, orgID, pkg, init, now, f);
      FindsLast(digest, orgID, pkg, init, last, now, f);
    }
  }

  lemma FindsLast(digest: Digest, orgID: string, pkg: InventoryPackage, init: seq<Candidate>, last: Candidate, now: Time, f: Finding)
    ensures f in PackageMatches(digest, orgID, pkg, init + [last], now) <==>
      f in PackageMatches(digest, orgID, pkg, init, now) || Finds(digest, orgID, pkg, last, now, f)
  {
    hide Vuln.MatchPackage, FindingFromMatch, Inventory;
    assert (init + [last])[..|init|] == init;
  }

  predicate Finds(digest: Digest, orgID: string, pkg: InventoryPackage, c: Candidate, now: Time, f: Finding) {
    var (matched, reason) := Vuln.MatchPackage(Inventory(orgID, pkg), c.affected);
    matched && f == FindingFromMatch(digest, orgID, pkg, c, reason, now)
  }

  lemma {:induction false} InMatches(digest: Digest, orgID: string, hosts: seq<InventoryHost>, packages: seq<InventoryPackage>,
                                     candidates: seq<Candidate>, now: Time, f: Finding)
    ensures f in Matches(digest, orgID, hosts, packages, candidates, now) <==>
      exists p :: p in packages && Active(hosts, p) && f in PackageMatches(digest, orgID, p, candidates, now)
  {
    hide PackageMatches, Active;
    if packages != [] {
      var init, last := packages[..|packages| - 1], packages[|packages| - 1];
      assert packages == init + [last];
      InMatches(digest, orgID, hosts, init, candidates, now, f);
    }
  }

  /** Every match is a fresh open finding whose id is the function of its key. */
  ghost predicate FreshMatch(digest: Digest, orgID: string, now: Time, f: Finding) {
    && f.status == Open && f.resolvedAt.None? && f.firstSeenAt == f.lastSeenAt == now
    && f.findingID == StableFindingID(digest, KeyOf(orgID, f))
  }

  lemma MatchOrigin(digest: Digest, db: Tables, snapshot: InventorySnapshot, now: Time, f: Finding)
      returns (pkg: InventoryPackage, c: Candidate)
    requires f in SnapshotMatches(digest, db, snapshot, now)
    ensures pkg in snapshot.packages && Active(snapshot.hosts, pkg)
    ensures c.affected in db.affected && c.affected.cveID in db.cves && c.cve == db.cves[c.affected.cveID]
    ensures Finds(digest, snapshot.orgID, pkg, c, now, f)
  {
    hide SnapshotMatches, Finds, PackageMatches, Matches, FullScan, Active;
    PrefilterLosesNothing(digest, db, snapshot, now);
    var scan := FullScan(db.affected, db.cves);
    InMatches(digest, snapshot.orgID, snapshot.hosts, snapshot.packages, scan, now, f);
    pkg :| pkg in snapshot.packages && Active(snapshot.hosts, pkg) && f in PackageMatches(digest, snapshot.orgID, pkg, scan, now);
    InPackageMatches(digest, snapshot.orgID, pkg, scan, now, f);
    c :| c in scan && Finds(digest, snapshot.orgID, pkg, c, now, f);
    InFullScan(db.affected, db.cves, c);
  }

  lemma MatchesAreFresh(digest: Digest, db: Tables, snapshot: InventorySnapshot, now: Time)
    ensures forall f :: f in SnapshotMatches(digest, db, snapshot, now) ==>
      && FreshMatch(digest, snapshot.orgID, now, f) && f.cveID in db.cves
      && f.packageID in PackageIDs(snapshot.packages)
      && Matched(db, snapshot, KeyOf(snapshot.orgID, f))
  {
    hide SnapshotMatches, Vuln.MatchPackage, Active;
    forall f | f in SnapshotMatches(digest, db, snapshot, now)
      ensures FreshMatch(digest, snapshot.orgID, now, f) && f.cveID in db.cves
      ensures f.packageID in PackageIDs(snapshot.packages)
      ensures Matched(db, snapshot, KeyOf(snapshot.orgID, f))
    {
      var pkg, c := MatchOrigin(digest, db, snapshot, now, f);
      assert Witness(snapshot, pkg, c.affected, KeyOf(snapshot.orgID, f));
    }
  }

  /** What a reported match says about the package and the advisory it comes from. */
  ghost predicate Describes(f: Finding, pkg: InventoryPackage, row: Vuln.AffectedPackage, cve: CVERecord) {
    && f.hostID == pkg.hostID && f.packageID == pkg.packageID && f.cveID == row.cveID
    && f.packageName == pkg.name && f.installedVersion == pkg.version
    && f.fixedVersion == row.fixedVersion && f.source == row.source && f.severity != ""
    && (row.severity != "" ==> f.severity == row.severity)
    && f.cvssScore == cve.cvssScore && f.knownExploited == cve.knownExploited && f.cve == Summary(cve)
    && (row.severity == "" ==> f.severity == "unknown") && f.confidence == "confirmed"
  }

  /** Every finding reported as open describes an active package of the snapshot and a catalogue row that matches it. */
  lemma MatchesDescribeTheirOrigin(digest: Digest, db: Tables, snapshot: InventorySnapshot, now: Time, f: Finding)
    requires f in SnapshotMatches(digest, db, snapshot, now)
    ensures exists pkg, row ::
      && pkg in snapshot.packages && row in db.affected && row.cveID in db.cves
      && Witness(snapshot, pkg, row, KeyOf(snapshot.orgID, f)) && Describes(f, pkg, row, db.cves[row.cveID])
      && f.status == Open && f.resolvedAt == None && f.firstSeenAt == now && f.lastSeenAt == now
      && f.matchReason == Vuln.MatchPackage(Inventory(snapshot.orgID, pkg), row).1
  {
    hide SnapshotMatches, Vuln.MatchPackage, Active;
    var pkg, c := MatchOrigin(digest, db, snapshot, now, f);
    assert Witness(snapshot, pkg, c.affected, KeyOf(snapshot.orgID, f)) && Describes(f, pkg, c.affected, c.cve);
  }

  /** When the row that a match has opened is resolved later, the report repeats the match but for its status, its times
      and the current CVE summary. */
  lemma ResolvedReportMirrorsMatch(f: Finding, orgID: string, firstSeenAt: Time, cve: CVERecord, now: Time)
    ensures ResolvedFinding(KeyOf(orgID, f), OpenRow(f, firstSeenAt), cve, now) ==
      f.(status := Resolved, firstSeenAt := firstSeenAt, lastSeenAt := now, resolvedAt := Some(now), cve := Summary(cve))
  {
  }

  /** The keys found through the candidates are exactly those of the full cross product. */
  lemma MatchedIffFound(digest: Digest, db: Tables, snapshot: InventorySnapshot, now: Time, key: FindingKey)
    requires Valid(db)
    ensures Matched(db, snapshot, key) <==> LastFor(snapshot.orgID, SnapshotMatches(digest, db, snapshot, now), key).Some?
  {
    hide SnapshotMatches, LastFor, Matches, PackageMatches, FullScan;
    var matches := SnapshotMatches(digest, db, snapshot, now);
    LastForIsInList(snapshot.orgID, matches, key);
    MatchesAreFresh(digest, db, snapshot, now);
    if Matched(db, snapshot, key) {
      var pkg, row :| pkg in snapshot.packages && row in db.affected && Witness(snapshot, pkg, row, key);
      FoundByScan(digest, db, snapshot, now, pkg, row, key);
    }
  }

  lemma FoundByScan(digest: Digest, db: Tables, snapshot: InventorySnapshot, now: Time,
                    pkg: InventoryPackage, row: Vuln.AffectedPackage, key: FindingKey)
    requires pkg in snapshot.packages && row in db.affected && row.cveID in db.cves && Witness(snapshot, pkg, row, key)
    ensures exists f :: f in SnapshotMatches(digest, db, snapshot, now) && KeyOf(snapshot.orgID, f) == key
  {
    hide SnapshotMatches, Matches, PackageMatches, FullScan, Active, Vuln.MatchPackage;
    var scan, c := FullScan(db.affected, db.cves), Candidate(row, db.cves[row.cveID]);
    var f := FindingFromMatch(digest, snapshot.orgID, pkg, c, Vuln.MatchPackage(Inventory(snapshot.orgID, pkg), row).1, now);
    PrefilterLosesNothing(digest, db, snapshot, now);
    InFullScan(db.affected, db.cves, c);
    assert Finds(digest, snapshot.orgID, pkg, c, now, f);
    InPackageMatches(digest, snapshot.orgID, pkg, scan, now, f);
    InMatches(digest, snapshot.orgID, snapshot.hosts, snapshot.packages, scan, now, f);
    assert KeyOf(snapshot.orgID, f) == key;
  }

  // ----- The text of a key -----

  /** On NUL-free host and package ids the joined text identifies the key within an organisation. */
  lemma KeyTextIsInjective(k: FindingKey, l: FindingKey)
    requires NULFree(k.hostID) && NULFree(k.packageID) && NULFree(l.hostID) && NULFree(l.packageID)
    requires KeyText(k) == KeyText(l)
    ensures k.hostID == l.hostID && k.packageID == l.packageID && k.cveID == l.cveID
  {
    assert KeyText(k) == k.hostID + [0 as char] + (k.packageID + [0 as char] + k.cveID);
    assert KeyText(l) == l.hostID + [0 as char] + (l.packageID + [0 as char] + l.cveID);
    SplitFirst(k.hostID, l.hostID, 0 as char, k.packageID + [0 as char] + k.cveID, l.packageID + [0 as char] + l.cveID);
    SplitFirst(k.packageID, l.packageID, 0 as char, k.cveID, l.cveID);
  }

  /** With a NUL inside an id, two keys can share a text. */
  lemma KeyTextNeedsNULFreeIDs(a: string, b: string, c: string, cve: string)
    ensures KeyText(FindingKey("org", a + NUL + b, c, cve)) == KeyText(FindingKey("org", a, b + NUL + c, cve))
  {
  }

  /** A finding key of the organisation was matched exactly when its text was remembered. */
  lemma RememberedIffMatched(digest: Digest, db: Tables, snapshot: InventorySnapshot, now: Time, key: FindingKey)
    requires Valid(db) && Storable(snapshot)
    requires key.orgID == snapshot.orgID && NULFree(key.hostID) && NULFree(key.packageID)
    ensures KeyText(key) in KeyTexts(snapshot.orgID, SnapshotMatches(digest, db, snapshot, now)) <==> Matched(db, snapshot, key)
  {
    hide SnapshotMatches, KeyText, LastFor, Witness;
    var matches := SnapshotMatches(digest, db, snapshot, now);
    MatchedIffFound(digest, db, snapshot, now, key);
    LastForIsInList(snapshot.orgID, matches, key);
    if KeyText(key) in KeyTexts(snapshot.orgID, matches) {
      var f :| f in matches && KeyText(KeyOf(snapshot.orgID, f)) == KeyText(key);
      MatchIsStorable(digest, db, snapshot, now, f);
      KeyTextIsInjective(key, KeyOf(snapshot.orgID, f));
    }
  }

  lemma MatchIsStorable(digest: Digest, db: Tables, snapshot: InventorySnapshot, now: Time, f: Finding)
    requires Storable(snapshot) && f in SnapshotMatches(digest, db, snapshot, now)
    ensures NULFree(f.hostID) && NULFree(f.packageID)
  {
    hide SnapshotMatches, Vuln.MatchPackage, NULFree;
    var pkg, c := MatchOrigin(digest, db, snapshot, now, f);
  }

  // ----- Rows after the upserts -----

  function FirstSeen(before: Option<FindingRow>, now: Time): Time {
    if before.Some? then Least(before.value.firstSeenAt, now) else now
  }

  lemma {:induction false} OpenAllRow(findings: Findings, orgID: string, matches: seq<Finding>, now: Time, key: FindingKey)
    requires forall f :: f in matches ==> f.firstSeenAt == now
    ensures var (before, found) := (Get(findings, key), LastFor(orgID, matches, key));
      Get(OpenAll(findings, orgID, matches), key) ==
      if found.None? then before else Some(OpenRow(found.value, FirstSeen(before, now)))
  {
    if matches != [] {
      var init, last := matches[..|matches| - 1], matches[|matches| - 1];
      assert last in matches;
      OpenAllRow(findings, orgID, init, now, key);
    }
  }

  // ----- The main result -----

  predicate IsOpen(findings: Findings, key: FindingKey) {
    key in findings && findings[key].resolvedAt.None?
  }

  /** The keys a snapshot speaks about. */
  predicate Touched(snapshot: InventorySnapshot, key: FindingKey) {
    key.orgID == snapshot.orgID && key.packageID in PackageIDs(snapshot.packages)
  }

  /** Every row of the findings table after a first-time snapshot. */
  lemma RowAfterSnapshot(digest: Digest, db: Tables, snapshot: InventorySnapshot, now: Time, key: FindingKey)
    requires Valid(db) && Storable(snapshot)
    ensures var (before, after) := (Get(db.findings, key), Get(Applied(digest, db, snapshot, now).findings, key));
      && (!Touched(snapshot, key) ==> after == before)
      && (Touched(snapshot, key) && !Matched(db, snapshot, key) ==>
           after == if IsOpen(db.findings, key) then Some(ResolvedRow(before.value, now)) else before)
      && (Touched(snapshot, key) && Matched(db, snapshot, key) ==>
           exists f :: f in SnapshotMatches(digest, db, snapshot, now) && KeyOf(snapshot.orgID, f) == key
                       && after == Some(OpenRow(f, FirstSeen(before, now))))
  {
    hide SnapshotMatches, LastFor, OpenAll, Matched, KeyText;
    var matches := SnapshotMatches(digest, db, snapshot, now);
    MatchesAreFresh(digest, db, snapshot, now);
    OpenAllRow(db.findings, snapshot.orgID, matches, now, key);
    LastForIsInList(snapshot.orgID, matches, key);
    MatchedIffFound(digest, db, snapshot, now, key);
    if Touched(snapshot, key) && key in db.findings {
      RememberedIffMatched(digest, db, snapshot, now, key);
    }
    if Touched(snapshot, key) && Matched(db, snapshot, key) {
      var f := LastFor(snapshot.orgID, matches, key).value;
      assert KeyText(key) in KeyTexts(snapshot.orgID, matches) by {
        assert KeyText(KeyOf(snapshot.orgID, f)) == KeyText(key);
      }
    }
  }

  /** After a first-time snapshot commits, the open findings for the packages it names are exactly the matched keys;
      those of other organisations and of other packages are as before. */
  lemma OpenFindingsAfterSnapshot(digest: Digest, db: Tables, snapshot: InventorySnapshot, now: Time, key: FindingKey)
    requires Valid(db) && Storable(snapshot)
    ensures IsOpen(Applied(digest, db, snapshot, now).findings, key) <==>
      if Touched(snapshot, key) then Matched(db, snapshot, key) else IsOpen(db.findings, key)
  {
    hide Applied, Matched, SnapshotMatches, Touched;
    RowAfterSnapshot(digest, db, snapshot, now, key);
  }

  // ----- Which rows count -----

  /** The snapshot has a row for the host with a deletion time, and no later row for it. */
  ghost predicate MarkedDeleted(hosts: seq<InventoryHost>, hostID: string) {
    exists i :: 0 <= i < |hosts| && LastRowFor(hosts, hostID, i) && hosts[i].deletedAt.Some?
  }

  ghost predicate LastRowFor(hosts: seq<InventoryHost>, hostID: string, i: nat)
    requires i < |hosts|
  {
    hosts[i].hostID == hostID && forall j :: i < j < |hosts| ==> hosts[j].hostID != hostID
  }

  lemma {:induction false} DeletedIffMarked(hosts: seq<InventoryHost>, hostID: string)
    ensures HostDeleted(hosts, hostID) <==> MarkedDeleted(hosts, hostID)
  {
    if hosts != [] {
      var init, last := hosts[..|hosts| - 1], hosts[|hosts| - 1];
      if last.hostID == hostID {
        assert LastRowFor(hosts, hostID, |hosts| - 1);
      } else {
        DeletedIffMarked(init, hostID);
        assert forall i :: 0 <= i < |init| ==> (LastRowFor(init, hostID, i) <==> LastRowFor(hosts, hostID, i));
        assert forall i :: 0 <= i < |init| ==> init[i] == hosts[i];
        assert !LastRowFor(hosts, hostID, |hosts| - 1);
      }
    }
  }

  /** The snapshot row is neither removed nor deleted, its host is not marked deleted, and the advisory matches it. */
  ghost predicate CountsFor(snapshot: InventorySnapshot, pkg: InventoryPackage, row: Vuln.AffectedPackage, key: FindingKey) {
    && pkg.removedAt == None && pkg.deletedAt == None && !MarkedDeleted(snapshot.hosts, pkg.hostID)
    && Vuln.MatchPackage(Inventory(snapshot.orgID, pkg), row).0
    && key.orgID == snapshot.orgID && key.hostID == pkg.hostID && key.packageID == pkg.packageID && key.cveID == row.cveID
  }

  /** A finding is matched exactly if such a row of the snapshot and a row of the catalogue exist. */
  lemma MatchedExactly(db: Tables, snapshot: InventorySnapshot, key: FindingKey)
    ensures Matched(db, snapshot, key) <==>
      exists pkg, row :: pkg in snapshot.packages && row in db.affected && CountsFor(snapshot, pkg, row, key)
  {
    hide Inventory, Vuln.MatchPackage, HostDeleted, MarkedDeleted;
    forall pkg: InventoryPackage, row: Vuln.AffectedPackage
      ensures Witness(snapshot, pkg, row, key) <==> CountsFor(snapshot, pkg, row, key)
    {
      DeletedIffMarked(snapshot.hosts, pkg.hostID);
    }
  }

  /** A package that the snapshot names, but only in rows that are removed or deleted or of deleted hosts, has no open
      finding afterwards. */
  lemma GonePackageHasNoOpenFinding(digest: Digest, db: Tables, snapshot: InventorySnapshot, now: Time, key: FindingKey)
    requires Valid(db) && Storable(snapshot)
    requires key.orgID == snapshot.orgID && exists pkg :: pkg in snapshot.packages && pkg.packageID == key.packageID
    requires forall pkg :: pkg in snapshot.packages && pkg.packageID == key.packageID ==>
      pkg.removedAt.Some? || pkg.deletedAt.Some? || MarkedDeleted(snapshot.hosts, pkg.hostID)
    ensures !IsOpen(Applied(digest, db, snapshot, now).findings, key)
  {
    hide Applied, Matched, IsOpen, Inventory, Vuln.MatchPackage, MarkedDeleted;
    OpenFindingsAfterSnapshot(digest, db, snapshot, now, key);
    MatchedExactly(db, snapshot, key);
  }

  /** A snapshot that marks a host deleted leaves a finding of that host open exactly if it was open and the snapshot does
      not name its package. */
  lemma DeletedHostFindings(digest: Digest, db: Tables, snapshot: InventorySnapshot, now: Time, key: FindingKey)
    requires Valid(db) && Storable(snapshot)
    requires key.orgID == snapshot.orgID && MarkedDeleted(snapshot.hosts, key.hostID)
    ensures IsOpen(Applied(digest, db, snapshot, now).findings, key) <==>
      IsOpen(db.findings, key) && key.packageID !in PackageIDs(snapshot.packages)
  {
    hide Applied, IsOpen, PackageIDs, Matched, MarkedDeleted, Inventory, Vuln.MatchPackage;
    OpenFindingsAfterSnapshot(digest, db, snapshot, now, key);
    MatchedExactly(db, snapshot, key);
  }

  /** The rows to resolve are exactly the open findings of named packages that were not matched again. */
  lemma StaleIff(digest: Digest, db: Tables, snapshot: InventorySnapshot, now: Time, key: FindingKey)
    requires Valid(db) && Storable(snapshot)
    ensures key in SnapshotStale(digest, db, snapshot, now) <==>
      Touched(snapshot, key) && IsOpen(db.findings, key) && !Matched(db, snapshot, key)
  {
    hide SnapshotMatches, LastFor, OpenAll, Matched, KeyText;
    var matches := SnapshotMatches(digest, db, snapshot, now);
    MatchesAreFresh(digest, db, snapshot, now);
    OpenAllRow(db.findings, snapshot.orgID, matches, now, key);
    LastForIsInList(snapshot.orgID, matches, key);
    MatchedIffFound(digest, db, snapshot, now, key);
    if Matched(db, snapshot, key) {
      var f := LastFor(snapshot.orgID, matches, key).value;
      assert KeyText(KeyOf(snapshot.orgID, f)) == KeyText(key);
    } else if key in db.findings && key.orgID == snapshot.orgID {
      RememberedIffMatched(digest, db, snapshot, now, key);
    }
  }

  /** The schema's guarantees are kept. */
  lemma SnapshotKeepsValid(digest: Digest, db: Tables, snapshot: InventorySnapshot, now: Time)
    requires Valid(db) && Storable(snapshot)
    ensures Valid(Applied(digest, db, snapshot, now))
  {
    hide SnapshotMatches, Matched, NULFree;
    var after := Applied(digest, db, snapshot, now).findings;
    forall key | key in after
      ensures key.cveID in db.cves && NULFree(key.hostID) && NULFree(key.packageID)
    {
      RowAfterSnapshot(digest, db, snapshot, now, key);
      if key !in db.findings {
        var f :| f in SnapshotMatches(digest, db, snapshot, now) && KeyOf(snapshot.orgID, f) == key;
        MatchesAreFresh(digest, db, snapshot, now);
        MatchIsStorable(digest, db, snapshot, now, f);
      }
    }
  }
}
