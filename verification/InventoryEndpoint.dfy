/** The inventory endpoint: check, verify, apply, deliver, remember the answer. */
module InventoryEndpoint {
  import opened GoStrings
  import opened CveCatalogue
  import opened CtOps
  import opened SnapshotTables
  import Store = SnapshotStore
  import Auth = ServiceToken
  import opened NonceStore
  import opened FindingDelivery

  const CONTRACT_VERSION := "2026-04-30"
  const SCOPE_INVENTORY_WRITE := "inventory:write"
  const MAX_HOSTS := 500
  const MAX_PACKAGES := 25000
  /** January 1 of year 1, Go's zero time. */
  const ZERO_TIME: Time := -62_135_596_800 * Auth.SECOND

  datatype Connection = Connection(orgID: string, inventoryTokens: seq<Auth.Token>, callback: Callback)

  predicate Blank(s: string) {
    TrimSpace(s) == ""
  }

  predicate ValidHost(host: InventoryHost) {
    !Blank(host.hostID) && !Blank(host.hostname)
  }

  predicate ValidPackage(pkg: InventoryPackage) {
    && !Blank(pkg.packageID) && !Blank(pkg.hostID) && !Blank(pkg.name) && !Blank(pkg.version) && !Blank(pkg.source)
    && pkg.firstSeenAt != ZERO_TIME && pkg.lastSeenAt != ZERO_TIME
  }

  predicate ValidSnapshot(snapshot: InventorySnapshot) {
    && snapshot.contractVersion == CONTRACT_VERSION
    && !Blank(snapshot.orgID) && !Blank(snapshot.snapshotID)
    && snapshot.snapshotType in ["full", "incremental", "tombstone"]
    && snapshot.generatedAt != ZERO_TIME
    && |snapshot.hosts| <= MAX_HOSTS && |snapshot.packages| <= MAX_PACKAGES
    && (forall i :: 0 <= i < |snapshot.hosts| ==> ValidHost(snapshot.hosts[i]))
    && (forall i :: 0 <= i < |snapshot.packages| ==> ValidPackage(snapshot.packages[i]))
  }

  function ConnectionForOrg(connections: seq<Connection>, orgID: string): Option<Connection> {
    if connections == [] then None
    else if connections[0].orgID == orgID then Some(connections[0])
    else ConnectionForOrg(connections[1..], orgID)
  }

  datatype Reply = Failure(status: nat, code: string) | Success(result: SnapshotResult)

  function OrNone(result: SnapshotResult): SnapshotResult {
    if result.nextAction == "" then result.(nextAction := "none") else result
  }

  /** Is there anything to deliver for a first-time snapshot? */
  ghost predicate HasFindings(digest: Digest, db: Tables, snapshot: InventorySnapshot, now: Time) {
    SnapshotMatches(digest, db, snapshot, now) != [] || SnapshotStale(digest, db, snapshot, now) != {}
  }

  /** Tables and answer of an authenticated call that does not fail: `delivered` says whether delivery succeeds,
      `updated` whether the changed answer can be stored. */
  ghost function Serve(digest: Digest, db: Tables, snapshot: InventorySnapshot, now: Time, delivered: bool, updated: bool)
    : (Tables, SnapshotResult)
  {
    var key := KeyOfSnapshot(snapshot);
    if key in db.snapshots then (db, OrNone(db.snapshots[key].response))
    else
      var after := Applied(digest, db, snapshot, now);
      if !HasFindings(digest, db, snapshot, now) then (after, FreshResponse(snapshot))
      else
        var result := FreshResponse(snapshot).(nextAction := if delivered then "none" else "retry_findings");
        (if updated then SetResponse(after, key, result) else after, result)
  }

  function PolicyFor(connections: seq<Connection>, orgID: string): Auth.Policy {
    var found := ConnectionForOrg(connections, orgID);
    Auth.Policy(SCOPE_INVENTORY_WRITE, orgID, if found.None? then [] else found.value.inventoryTokens)
  }

  /** The request passes verification, under a token of the organisation the snapshot claims. */
  predicate Authentic(prim: Auth.Primitives, rows: map<NonceKey, Time>, req: Auth.Request, connections: seq<Connection>,
                      orgID: string, now: Time, fault: DBFault)
  {
    Auth.VerifyStep(prim, rows, req, PolicyFor(connections, orgID), now, fault).1.Accepted?
  }

  function CallbackFor(connections: seq<Connection>, orgID: string): Callback {
    var found := ConnectionForOrg(connections, orgID);
    if found.None? then Callback("", "") else found.value.callback
  }

  /** What a delivery attempt was given, how many pages of it were posted, and whether it succeeded. */
  datatype Attempt = Attempt(findings: seq<Finding>, pages: nat, complete: bool)

  ghost predicate Attempted(a: Attempt, world: World, callback: Callback) {
    && a.pages <= Pages(a.findings)
    && (a.complete <==> a.findings == [] || DeliverySucceeds(world, callback, a.findings))
    && (a.complete ==> a.pages == Pages(a.findings))
    && (!a.complete && Configured(callback) ==> StopsAtFirstFailure(world, a.findings, a.pages))
    && (!a.complete && !Configured(callback) ==> a.pages == 0)
  }

  method ServeInventorySnapshot(
      store: Store.PostgresStore, nonces: NonceTable, outbox: Outbox, prim: Auth.Primitives, connections: seq<Connection>,
      req: Auth.Request, snapshot: InventorySnapshot, verifyAt: Time, now: Time,
      nonceFault: DBFault, fault: Store.Faults, world: World, updated: bool)
    returns (reply: Reply, ghost attempt: Attempt)
    modifies store, nonces, outbox
    ensures reply.Failure? ==> store.db == old(store.db) && outbox.posted == old(outbox.posted)
    ensures !ValidSnapshot(snapshot) ==> reply == Failure(400, "invalid_payload")
    ensures ValidSnapshot(snapshot) && PolicyFor(connections, snapshot.orgID).tokens == [] ==> reply == Failure(403, "unknown_org")
    ensures ValidSnapshot(snapshot) && PolicyFor(connections, snapshot.orgID).tokens != [] ==>
      match Auth.VerifyStep(prim, old(nonces.rows), req, PolicyFor(connections, snapshot.orgID), verifyAt, nonceFault).1
      case Rejected(error) => reply == Failure(error.status, error.code)
      case StoreFailed => reply == Failure(500, "service_auth_failed")
      case Accepted(_) => reply.Failure? ==> reply == Failure(500, "inventory_snapshot_failed")
    ensures nonces.rows == if ValidSnapshot(snapshot)
      then Auth.VerifyStep(prim, old(nonces.rows), req, PolicyFor(connections, snapshot.orgID), verifyAt, nonceFault).0
      else old(nonces.rows)
    ensures reply.Success? ==>
      ValidSnapshot(snapshot) && Authentic(prim, old(nonces.rows), req, connections, snapshot.orgID, verifyAt, nonceFault)
    ensures (
      && ValidSnapshot(snapshot) && Storable(snapshot) && !Store.Faulty(fault)
      && Authentic(prim, old(nonces.rows), req, connections, snapshot.orgID, verifyAt, nonceFault)
    ) ==> reply.Success?
    ensures reply.Success? ==>
      (store.db, reply.result) == Serve(store.digest, old(store.db), snapshot, now, attempt.complete, updated)
    ensures reply.Success? && KeyOfSnapshot(snapshot) in old(store.db.snapshots) ==> outbox.posted == old(outbox.posted)
    ensures reply.Success? && KeyOfSnapshot(snapshot) !in old(store.db.snapshots) ==>
      && Store.Reports(attempt.findings, store.digest, old(store.db), snapshot, now)
      && Attempted(attempt, world, CallbackFor(connections, snapshot.orgID))
      && outbox.posted == old(outbox.posted) + Batches(world, snapshot.orgID, attempt.findings, attempt.pages)
  {
    hide Applied, SnapshotMatches, SnapshotStale, FindingsOpened, Auth.VerifyStep, ValidSnapshot, Storable, Pages;
    hide Store.Reports, HasFindings, DeliverySucceeds, StopsAtFirstFailure;
    attempt := Attempt([], 0, true);
    if !ValidSnapshot(snapshot) {
      return Failure(400, "invalid_payload"), attempt;
    }
    if PolicyFor(connections, snapshot.orgID).tokens == [] {
      Auth.NoTokensNoChange(prim, nonces.rows, req, PolicyFor(connections, snapshot.orgID), verifyAt, nonceFault);
    }
    var found := ConnectionForOrg(connections, snapshot.orgID);
    if found.None? || found.value.inventoryTokens == [] {
      return Failure(403, "unknown_org"), attempt;
    }
    var verdict := Auth.VerifyServiceRequest(prim, nonces, req, PolicyFor(connections, snapshot.orgID), verifyAt, nonceFault);
    match verdict {
      case Rejected(error) => return Failure(error.status, error.code), attempt;
      case StoreFailed => return Failure(500, "service_auth_failed"), attempt;
      case Accepted(_) =>
    }
    var applied := store.ApplyInventorySnapshot(snapshot, now, fault);
    if applied.Err? {
      return Failure(500, "inventory_snapshot_failed"), attempt;
    }
    var result := OrNone(applied.value.response);
    var findings := applied.value.findings;
    attempt := Attempt(findings, 0, true);
    NoFindingsNoPages(findings);
    if KeyOfSnapshot(snapshot) !in old(store.db.snapshots) {
      ReportsNothingIffNoFindings(findings, store.digest, old(store.db), snapshot, now);
    }
    if |findings| > 0 && !applied.value.replayed {
      var ok, pages := outbox.DeliverFindings(snapshot.orgID, found.value.callback, findings, world);
      attempt := Attempt(findings, pages, ok);
      if !ok {
        result := result.(nextAction := "retry_findings");
      }
      if updated {
        store.db := SetResponse(store.db, KeyOfSnapshot(snapshot), result);
      }
    }
    return Success(result), attempt;
  }

  lemma ReportsNothingIffNoFindings(findings: seq<Finding>, digest: Digest, db: Tables, snapshot: InventorySnapshot, now: Time)
    requires Store.Reports(findings, digest, db, snapshot, now)
    ensures findings == [] <==> !HasFindings(digest, db, snapshot, now)
  {
    hide SnapshotMatches, SnapshotStale, FindingsOpened, ResolvedFinding;
    var matches, stale := SnapshotMatches(digest, db, snapshot, now), SnapshotStale(digest, db, snapshot, now);
    var resolved := findings[|matches|..];
    var keys :| Store.ListsResolvedBy(keys, resolved, FindingsOpened(digest, db, snapshot, now), db.cves, stale, now);
    if keys != [] {
      assert keys[0] in stale;
    }
    if stale != {} {
      var key :| key in stale;
      assert key in keys;
    }
  }

  // ----- What is let in -----

  lemma BlankIffSpaces(s: string)
    ensures Blank(s) <==> forall i :: 0 <= i < |s| ==> s[i] == ' ' || '\t' <= s[i] <= '\r'
  {
    hide TrimRight;
    SpanFacts(IsSpace, s);
    var t := DropWhile(IsSpace, s);
    TrimRightEmpty(t);
    if t == "" {
      assert forall i :: 0 <= i < |s| ==> IsSpace(s[i]);
    } else {
      assert !IsSpace(s[Span(IsSpace, s)]);
    }
  }

  lemma {:induction false} TrimRightEmpty(s: string)
    ensures TrimRight(s) == "" ==> forall i :: 0 <= i < |s| ==> IsSpace(s[i])
    ensures s == "" ==> TrimRight(s) == ""
  {
    if s != "" && IsSpace(s[|s| - 1]) {
      TrimRightEmpty(s[..|s| - 1]);
    }
  }

  predicate Written(s: string) {
    exists i :: 0 <= i < |s| && s[i] != ' ' && !('\t' <= s[i] <= '\r')
  }

  /** The conditions on a snapshot: contract version, ids, type, times, and no more than 500 hosts and 25000 packages. */
  lemma ValidExactly(snapshot: InventorySnapshot)
    ensures ValidSnapshot(snapshot) <==>
      && snapshot.contractVersion == "2026-04-30" && Written(snapshot.orgID) && Written(snapshot.snapshotID)
      && (snapshot.snapshotType == "full" || snapshot.snapshotType == "incremental" || snapshot.snapshotType == "tombstone")
      && snapshot.generatedAt != -62_135_596_800_000_000_000 && |snapshot.hosts| <= 500 && |snapshot.packages| <= 25000
      && (forall h :: h in snapshot.hosts ==> Written(h.hostID) && Written(h.hostname))
      && (forall p :: p in snapshot.packages ==>
           && Written(p.packageID) && Written(p.hostID) && Written(p.name) && Written(p.version) && Written(p.source)
           && p.firstSeenAt != -62_135_596_800_000_000_000 && p.lastSeenAt != -62_135_596_800_000_000_000)
  {
    hide Blank, Written;
    forall s: string
      ensures Blank(s) <==> !Written(s)
    {
      BlankIffWritten(s);
    }
  }

  lemma BlankIffWritten(s: string)
    ensures Blank(s) <==> !Written(s)
  {
    hide Blank;
    BlankIffSpaces(s);
  }

  lemma {:induction false} ConnectionIsOfOrg(connections: seq<Connection>, orgID: string)
    ensures var found := ConnectionForOrg(connections, orgID);
      && (found.Some? ==> found.value in connections && found.value.orgID == orgID)
      && (found.None? ==> forall c :: c in connections ==> c.orgID != orgID)
  {
    if connections != [] {
      ConnectionIsOfOrg(connections[1..], orgID);
    }
  }

  /** Whoever gets in shows an unrevoked token of a connection of the very organisation the snapshot claims, which is a token
      of that organisation with the scope to write inventories. */
  lemma OnlyInventoryTokensGetIn(prim: Auth.Primitives, rows: map<NonceKey, Time>, req: Auth.Request, connections: seq<Connection>,
                                 orgID: string, now: Time, fault: DBFault)
    requires Authentic(prim, rows, req, connections, orgID, now, fault)
    ensures exists c, token ::
      && c in connections && c.orgID == orgID && token in c.inventoryTokens
      && !token.revoked && token.orgID == orgID && "inventory:write" in token.scopes
      && Fields(req.headers.authorization) == ["CT-ServiceToken", token.id]
  {
    hide Auth.VerifyStep, ConnectionForOrg, Fields;
    ConnectionIsOfOrg(connections, orgID);
    Auth.AcceptedMeansSigned(prim, rows, req, PolicyFor(connections, orgID), now, fault);
  }
}
