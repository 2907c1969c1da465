/** Applying an inventory snapshot in one database transaction. */
module SnapshotStore {
  import opened GoStrings
  import opened CveCatalogue
  import opened CtOps
  import opened SnapshotTables
  import Vuln = Matcher

  datatype Result<+T> = Ok(value: T) | Err

  /** `fault(n)` says whether the n-th statement of a transaction is refused by the database. */
  type Faults = nat -> bool

  ghost predicate Faulty(fault: Faults) {
    exists n :: fault(n)
  }

  class PostgresStore {
    var db: Tables
    const digest: Digest

    constructor (digest: Digest, db: Tables)
      ensures this.digest == digest && this.db == db
    {
      this.digest := digest;
      this.db := db;
    }

    /** A snapshot id seen before is answered from the stored response and changes nothing.  A new one changes the
        tables as `Applied` says, or fails and changes nothing; it fails only on a refused statement or a NUL in an id. */
    method ApplyInventorySnapshot(snapshot: InventorySnapshot, now: Time, fault: Faults) returns (r: Result<ApplyResult>)
      modifies this
      ensures r.Err? ==> db == old(db)
      ensures r.Err? ==> Faulty(fault) || !Storable(snapshot)
      ensures r.Ok? && KeyOfSnapshot(snapshot) in old(db.snapshots) ==>
        db == old(db) && r.value == ApplyResult(old(db.snapshots[KeyOfSnapshot(snapshot)]).response, [], true)
      ensures r.Ok? && KeyOfSnapshot(snapshot) !in old(db.snapshots) ==>
        && Storable(snapshot)
        && db == Applied(digest, old(db), snapshot, now)
        && r.value.response == FreshResponse(snapshot) && !r.value.replayed
        && Reports(r.value.findings, digest, old(db), snapshot, now)
    {
      hide UpsertHosts, UpsertPackages, NULFree, Reports, SnapshotMatches, FindingsOpened, SnapshotStale, ResolveAll;
      hide FreshResponse, NewSnapshotRow, TouchInventoryStatus;
      var tx := db;
      if fault(0) || fault(1) || !NULFree(snapshot.orgID) || !NULFree(snapshot.snapshotID) {
        return Err;
      }
      if KeyOfSnapshot(snapshot) in tx.snapshots {
        if fault(2) {
          return Err;
        }
        return Ok(ApplyResult(tx.snapshots[KeyOfSnapshot(snapshot)].response, [], true));
      }
      var inventory, step := UpsertInventory(tx, snapshot, fault, 2);
      if inventory.Err? {
        return Err;
      }
      tx := tx.(hosts := inventory.value.0, packages := inventory.value.1);
      OnlyInventoryDiffers(digest, db, tx, snapshot, now);
      var matched, step' := MatchSnapshotFindings(tx, snapshot, now, fault, step);
      if matched.Err? || fault(step') || fault(step' + 1) || fault(step' + 2) {
        return Err;
      }
      var response := FreshResponse(snapshot);
      tx := tx.(findings := matched.value.0);
      tx := tx.(snapshots := tx.snapshots[KeyOfSnapshot(snapshot) := NewSnapshotRow(snapshot, response)]);
      tx := tx.(status := TouchInventoryStatus(tx.status, snapshot.orgID, now));
      db := tx;
      return Ok(ApplyResult(response, matched.value.1, false));
    }

    method UpsertInventory(tx: Tables, snapshot: InventorySnapshot, fault: Faults, step0: nat)
      returns (r: Result<(Hosts, Packages)>, step: nat)
      requires NULFree(snapshot.orgID) && NULFree(snapshot.snapshotID)
      ensures r.Err? ==> Faulty(fault) || !Storable(snapshot)
      ensures r.Ok? ==> Storable(snapshot)
      ensures r.Ok? ==> r.value == (UpsertHosts(tx.hosts, snapshot.orgID, snapshot.hosts),
                                    UpsertPackages(tx.packages, snapshot.orgID, snapshot.packages))
    {
      hide UpsertHost, UpsertPackage, NULFree;
      var hosts, packages := tx.hosts, tx.packages;
      step := step0;
      for i := 0 to |snapshot.hosts|
        invariant forall h :: h in snapshot.hosts[..i] ==> NULFree(h.hostID)
        invariant hosts == UpsertHosts(tx.hosts, snapshot.orgID, snapshot.hosts[..i])
      {
        assert snapshot.hosts[..i + 1][..i] == snapshot.hosts[..i];
        if fault(step) || !NULFree(snapshot.hosts[i].hostID) {
          return Err, step;
        }
        step := step + 1;
        hosts := UpsertHost(hosts, snapshot.orgID, snapshot.hosts[i]);
      }
      assert snapshot.hosts[..|snapshot.hosts|] == snapshot.hosts;
      for i := 0 to |snapshot.packages|
        invariant forall p :: p in snapshot.packages[..i] ==> NULFree(p.hostID) && NULFree(p.packageID)
        invariant packages == UpsertPackages(tx.packages, snapshot.orgID, snapshot.packages[..i])
      {
        assert snapshot.packages[..i + 1][..i] == snapshot.packages[..i];
        if fault(step) || !NULFree(snapshot.packages[i].hostID) || !NULFree(snapshot.packages[i].packageID) {
          return Err, step;
        }
        step := step + 1;
        packages := UpsertPackage(packages, snapshot.orgID, snapshot.packages[i]);
      }
      assert snapshot.packages[..|snapshot.packages|] == snapshot.packages;
      return Ok((hosts, packages)), step;
    }

    method MatchSnapshotFindings(tx: Tables, snapshot: InventorySnapshot, now: Time, fault: Faults, step0: nat)
      returns (r: Result<(Findings, seq<Finding>)>, step: nat)
      ensures r.Err? ==> Faulty(fault)
      ensures r.Ok? ==> r.value.0 == Applied(digest, tx, snapshot, now).findings
      ensures r.Ok? ==> Reports(r.value.1, digest, tx, snapshot, now)
    {
      hide Names, SelectByName, PackageMatches, KeyOf, KeyText, StaleKeys, ResolveAll, ListsResolved, OpenAll, HostDeleted;
      step := step0;
      if fault(step) {
        return Err, step;
      }
      step := step + 1;
      var candidates := AffectedCandidates(tx, snapshot.packages);
      var hostDeleted := DeletedHosts(snapshot.hosts);
      var org := snapshot.orgID;
      var packageIDs: set<string> := {};
      var matchedKeys: set<string> := {};
      var findings: seq<Finding> := [];
      var table := tx.findings;
      for i := 0 to |snapshot.packages|
        invariant packageIDs == PackageIDs(snapshot.packages[..i])
        invariant findings == Matches(digest, org, snapshot.hosts, snapshot.packages[..i], candidates, now)
        invariant matchedKeys == KeyTexts(org, findings)
        invariant table == OpenAll(tx.findings, org, findings)
      {
        var pkg := snapshot.packages[i];
        assert snapshot.packages[..i + 1] == snapshot.packages[..i] + [pkg];
        packageIDs := packageIDs + {pkg.packageID};
        if pkg.removedAt.Some? || pkg.deletedAt.Some? || (pkg.hostID in hostDeleted && hostDeleted[pkg.hostID]) {
          continue;
        }
        var found;
        found, step := OpenPackageFindings(org, pkg, candidates, table, now, fault, step);
        if found.Err? {
          return Err, step;
        }
        OpenAllAppends(tx.findings, org, findings, found.value.1);
        table := found.value.0;
        findings := findings + found.value.1;
        matchedKeys := matchedKeys + KeyTexts(org, found.value.1);
      }
      assert snapshot.packages[..|snapshot.packages|] == snapshot.packages;
      var resolved;
      resolved, step := ResolveStaleFindings(table, tx.cves, org, packageIDs, matchedKeys, now, fault, step);
      if resolved.Err? {
        return Err, step;
      }
      return Ok((resolved.value.0, findings + resolved.value.1)), step;
    }

    method DeletedHosts(hosts: seq<InventoryHost>) returns (hostDeleted: map<string, bool>)
      ensures forall id :: (id in hostDeleted && hostDeleted[id]) == HostDeleted(hosts, id)
    {
      hostDeleted := map[];
      for i := 0 to |hosts|
        invariant forall id :: (id in hostDeleted && hostDeleted[id]) == HostDeleted(hosts[..i], id)
      {
        assert hosts[..i + 1][..i] == hosts[..i];
        hostDeleted := hostDeleted[hosts[i].hostID := hosts[i].deletedAt.Some?];
      }
      assert hosts[..|hosts|] == hosts;
    }

    /** The inner loop: one package against every candidate. */
    method OpenPackageFindings(org: string, pkg: InventoryPackage, candidates: seq<Candidate>, findings: Findings, now: Time,
                               fault: Faults, step0: nat)
      returns (r: Result<(Findings, seq<Finding>)>, step: nat)
      ensures r.Err? ==> Faulty(fault)
      ensures r.Ok? ==> r.value.1 == PackageMatches(digest, org, pkg, candidates, now)
      ensures r.Ok? ==> r.value.0 == OpenAll(findings, org, r.value.1)
    {
      hide Inventory, Vuln.MatchPackage, FindingFromMatch, UpsertOpenFinding;
      step := step0;
      var inventory := Inventory(org, pkg);
      var found: seq<Finding> := [];
      var table := findings;
      for j := 0 to |candidates|
        invariant found == PackageMatches(digest, org, pkg, candidates[..j], now)
        invariant table == OpenAll(findings, org, found)
      {
        assert candidates[..j + 1][..j] == candidates[..j];
        var (matched, reason) := Vuln.MatchPackage(inventory, candidates[j].affected);
        if !matched {
          continue;
        }
        var finding := FindingFromMatch(digest, org, pkg, candidates[j], reason, now);
        if fault(step) {
          return Err, step;
        }
        step := step + 1;
        table := UpsertOpenFinding(table, org, finding);
        assert (found + [finding])[..|found|] == found;
        found := found + [finding];
      }
      assert candidates[..|candidates|] == candidates;
      return Ok((table, found)), step;
    }

    method AffectedCandidates(tx: Tables, packages: seq<InventoryPackage>) returns (candidates: seq<Candidate>)
      ensures candidates == SelectByName(tx.affected, tx.cves, Names(packages))
    {
      var names: set<string> := {};
      for i := 0 to |packages|
        invariant names == Names(packages[..i])
      {
        assert packages[..i + 1][..i] == packages[..i];
        var name, sourceName := packages[i].name, OrEmpty(packages[i].sourceName);
        if name != "" {
          names := names + {name};
        }
        if sourceName != "" {
          names := names + {sourceName};
        }
      }
      assert packages[..|packages|] == packages;
      candidates := SelectByName(tx.affected, tx.cves, names);
    }

    /** Reads the stale rows in any order, then resolves them one by one. */
    method ResolveStaleFindings(findings: Findings, cves: Table, orgID: string, packageIDs: set<string>, matchedKeys: set<string>,
                                now: Time, fault: Faults, step0: nat)
      returns (r: Result<(Findings, seq<Finding>)>, step: nat)
      ensures r.Err? ==> Faulty(fault)
      ensures r.Ok? ==>
        var stale := StaleKeys(findings, cves, orgID, packageIDs, matchedKeys);
        && r.value.0 == ResolveAll(findings, stale, now)
        && ListsResolved(r.value.1, findings, cves, stale, now)
    {
      hide KeyText, ResolvedFinding, ResolvedRow;
      step := step0;
      if packageIDs == {} {
        assert StaleKeys(findings, cves, orgID, packageIDs, matchedKeys) == {};
        NothingStale(findings, now);
        assert ListsResolvedBy([], [], findings, cves, {}, now);
        return Ok((findings, [])), step;
      }
      if fault(step) {
        return Err, step;
      }
      step := step + 1;
      var keys, resolved := ReadStaleRows(findings, cves, orgID, packageIDs, matchedKeys, now);
      var table := findings;
      for i := 0 to |keys|
        invariant table == ResolveAll(findings, set k | 0 <= k < i :: keys[k], now)
      {
        if fault(step) {
          return Err, step;
        }
        step := step + 1;
        OneMoreResolved(findings, keys, i, now);
        table := table[keys[i] := ResolvedRow(table[keys[i]], now)];
      }
      assert (set k | 0 <= k < |keys| :: keys[k]) == StaleKeys(findings, cves, orgID, packageIDs, matchedKeys);
      return Ok((table, resolved)), step;
    }

    method ReadStaleRows(findings: Findings, cves: Table, orgID: string, packageIDs: set<string>, matchedKeys: set<string>, now: Time)
      returns (keys: seq<FindingKey>, resolved: seq<Finding>)
      ensures ListsResolvedBy(keys, resolved, findings, cves, StaleKeys(findings, cves, orgID, packageIDs, matchedKeys), now)
    {
      hide KeyText, ResolvedFinding, ListsResolvedBy;
      ghost var stale := StaleKeys(findings, cves, orgID, packageIDs, matchedKeys);
      var rows := set key | key in findings && key.orgID == orgID && key.packageID in packageIDs
                            && findings[key].resolvedAt.None? && key.cveID in cves;
      keys, resolved := [], [];
      NoneResolved(findings, cves, now);
      assert stale - rows == {};
      while rows != {}
        invariant forall key :: key in rows ==> key in findings && key.cveID in cves
        invariant forall key :: key in rows ==> (key in stale <==> KeyText(key) !in matchedKeys)
        invariant ListsResolvedBy(keys, resolved, findings, cves, stale - rows, now)
        decreases |rows|
      {
        var key :| key in rows;
        ghost var before := rows;
        rows := rows - {key};
        if KeyText(key) in matchedKeys {
          assert stale - rows == stale - before;
          continue;
        }
        assert stale - rows == stale - before + {key};
        OneMoreListed(keys, resolved, findings, cves, stale - before, key, now);
        keys := keys + [key];
        resolved := resolved + [ResolvedFinding(key, findings[key], cves[key.cveID], now)];
      }
      assert stale - {} == stale;
    }
  }

  lemma NoneResolved(findings: Findings, cves: Table, now: Time)
    ensures ListsResolvedBy([], [], findings, cves, {}, now)
  {
  }

  lemma OneMoreListed(keys: seq<FindingKey>, resolved: seq<Finding>, findings: Findings, cves: Table,
                      listed: set<FindingKey>, key: FindingKey, now: Time)
    requires ListsResolvedBy(keys, resolved, findings, cves, listed, now)
    requires key !in listed && key in findings && key.cveID in cves
    ensures ListsResolvedBy(keys + [key], resolved + [ResolvedFinding(key, findings[key], cves[key.cveID], now)],
                            findings, cves, listed + {key}, now)
  {
    hide ResolvedFinding;
  }

  lemma OneMoreResolved(findings: Findings, keys: seq<FindingKey>, i: nat, now: Time)
    requires i < |keys| && keys[i] in findings
    requires forall k :: 0 <= k < i ==> keys[k] != keys[i]
    ensures var table := ResolveAll(findings, set k | 0 <= k < i :: keys[k], now);
      && keys[i] in table && table[keys[i]] == findings[keys[i]]
      && table[keys[i] := ResolvedRow(table[keys[i]], now)] == ResolveAll(findings, set k | 0 <= k < i + 1 :: keys[k], now)
  {
    hide ResolvedRow;
    var done := set k | 0 <= k < i :: keys[k];
    assert (set k | 0 <= k < i + 1 :: keys[k]) == done + {keys[i]};
  }

  lemma {:induction false} OpenAllAppends(findings: Findings, orgID: string, xs: seq<Finding>, ys: seq<Finding>)
    ensures OpenAll(findings, orgID, xs + ys) == OpenAll(OpenAll(findings, orgID, xs), orgID, ys)
  {
    hide UpsertOpenFinding;
    if ys == [] {
      assert xs + ys == xs;
    } else {
      assert (xs + ys)[..|xs + ys| - 1] == xs + ys[..|ys| - 1];
      OpenAllAppends(findings, orgID, xs, ys[..|ys| - 1]);
    }
  }

  lemma OnlyInventoryDiffers(digest: Digest, db: Tables, tx: Tables, snapshot: InventorySnapshot, now: Time)
    requires tx == db.(hosts := tx.hosts, packages := tx.packages)
    ensures SnapshotMatches(digest, tx, snapshot, now) == SnapshotMatches(digest, db, snapshot, now)
    ensures FindingsOpened(digest, tx, snapshot, now) == FindingsOpened(digest, db, snapshot, now)
    ensures SnapshotStale(digest, tx, snapshot, now) == SnapshotStale(digest, db, snapshot, now)
    ensures forall fs :: Reports(fs, digest, tx, snapshot, now) == Reports(fs, digest, db, snapshot, now)
  {
    hide Matches, SelectByName, Names, OpenAll, StaleKeys;
  }

  lemma NothingStale(findings: Findings, now: Time)
    ensures ResolveAll(findings, {}, now) == findings
  {
  }

  /** `resolved` reports exactly the stale rows, each once, in the order of `keys`. */
  ghost predicate ListsResolvedBy(keys: seq<FindingKey>, resolved: seq<Finding>, findings: Findings, cves: Table,
                                  stale: set<FindingKey>, now: Time)
  {
    && (forall key :: key in keys <==> key in stale)
    && (forall i, j :: 0 <= i < j < |keys| ==> keys[i] != keys[j])
    && |resolved| == |keys|
    && forall i :: 0 <= i < |keys| ==>
         && keys[i] in findings && keys[i].cveID in cves
         && resolved[i] == ResolvedFinding(keys[i], findings[keys[i]], cves[keys[i].cveID], now)
  }

  /** Exactly one resolved finding for every stale row, in some order. */
  ghost predicate ListsResolved(resolved: seq<Finding>, findings: Findings, cves: Table, stale: set<FindingKey>, now: Time) {
    exists keys :: ListsResolvedBy(keys, resolved, findings, cves, stale, now)
  }

  /** What is handed over for delivery: the matches in order, then the findings resolved. */
  ghost predicate Reports(findings: seq<Finding>, digest: Digest, db: Tables, snapshot: InventorySnapshot, now: Time) {
    var matches := SnapshotMatches(digest, db, snapshot, now);
    && matches <= findings
    && ListsResolved(findings[|matches|..], FindingsOpened(digest, db, snapshot, now), db.cves,
                     SnapshotStale(digest, db, snapshot, now), now)
  }
}
