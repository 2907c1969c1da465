/** Concurrent snapshot transactions, as a state machine over their statements.

    Isolation is READ COMMITTED: a statement sees what is committed when it runs and what its own transaction has written.
    A written row stays locked until its transaction ends: a statement of another transaction that writes it has to wait.
    The same holds for the primary key (org_id, snapshot_id), where the second insert fails if the first one commits.
    The database may abort a transaction at any point, which also covers deadlocks.
 */
module SnapshotTransactions {
  import opened GoStrings
  import opened CveCatalogue
  import opened CtOps
  import opened SnapshotTables
  import opened FindingDelivery
  import Runs = SnapshotRuns
  import Vuln = Matcher

  /** The rows a transaction has written so far. */
  datatype Delta = Delta(
    hosts: Hosts, packages: Packages, findings: Findings, snapshots: map<SnapshotKey, SnapshotRow>, status: map<string, StatusRow>)

  const NOTHING := Delta(map[], map[], map[], map[], map[])

  function Overlay(db: Tables, d: Delta): Tables {
    db.(hosts := db.hosts + d.hosts, packages := db.packages + d.packages, findings := db.findings + d.findings,
        snapshots := db.snapshots + d.snapshots, status := db.status + d.status)
  }

  predicate Disjoint(d: Delta, e: Delta) {
    && d.hosts.Keys !! e.hosts.Keys && d.packages.Keys !! e.packages.Keys && d.findings.Keys !! e.findings.Keys
    && d.snapshots.Keys !! e.snapshots.Keys && d.status.Keys !! e.status.Keys
  }

  datatype Catalogue = Catalogue(cves: Table, affected: seq<Vuln.AffectedPackage>)

  function CatalogueOf(db: Tables): Catalogue {
    Catalogue(db.cves, db.affected)
  }

  function With(db: Tables, c: Catalogue): Tables {
    db.(cves := c.cves, affected := c.affected)
  }

  datatype Phase =
    | Started                                        // ApplyInventorySnapshot called
    | UpsertingHosts(n: nat)                         // no stored response was found; n hosts are written
    | UpsertingPackages(n: nat)
    | Opening(n: nat)                                // candidates are selected; n matches are written
    | Resolving(keys: seq<FindingKey>, n: nat)       // stale rows are selected; n of them are resolved
    | Inserted                                       // holds the snapshot key
    | Ready                                          // every statement is done
    | Committed
    | Replayed(response: SnapshotResult)
    | Aborted

  type TxID = nat

  /** The end of a call that has committed: whether delivery succeeded and whether the changed answer was stored. */
  datatype Reply = NoReply | Replied(delivered: bool, stored: bool)

  /** `seen` is the catalogue the candidates were selected from, `report` the findings to deliver, `sent` how many of them
      CT Ops has acknowledged. */
  datatype Tx = Tx(
    snapshot: InventorySnapshot, now: Time, phase: Phase, delta: Delta, seen: Catalogue,
    report: seq<Finding>, sent: nat, reply: Reply)

  /** A page of findings acknowledged by CT Ops. */
  datatype Post = Post(tx: TxID, findings: seq<Finding>)

  /** `commits` lists the committed transactions and `posts` the acknowledged pages, in order; `history` is what changed the
      committed tables. */
  datatype State = State(db: Tables, txs: map<TxID, Tx>, commits: seq<TxID>, posts: seq<Post>, history: seq<Runs.Event>)

  datatype Action =
    | Start(tx: TxID, snapshot: InventorySnapshot, now: Time)
    | Lookup(tx: TxID)                                  // SELECT response_json
    | Execute(tx: TxID)                                 // the next statement
    | SelectStale(tx: TxID, keys: seq<FindingKey>)      // SELECT the rows to resolve, in any order
    | CommitTx(tx: TxID)
    | Fail(tx: TxID)
    | Deliver(tx: TxID)                                 // after the commit, POST the next page
    | Answer(tx: TxID, delivered: bool, stored: bool)   // UpdateInventorySnapshotResponse, then the answer
    | Sync(cves: Table, affected: seq<Vuln.AffectedPackage>)

  function Key(tx: Tx): SnapshotKey {
    KeyOfSnapshot(tx.snapshot)
  }

  function Row(tx: Tx): SnapshotRow {
    NewSnapshotRow(tx.snapshot, FreshResponse(tx.snapshot))
  }

  function Found(digest: Digest, tx: Tx): seq<Finding> {
    Matches(digest, tx.snapshot.orgID, tx.snapshot.hosts, tx.snapshot.packages,
            SelectByName(tx.seen.affected, tx.seen.cves, Names(tx.snapshot.packages)), tx.now)
  }

  predicate Executing(digest: Digest, tx: Tx) {
    match tx.phase
    case UpsertingHosts(_) | UpsertingPackages(_) | Resolving(_, _) | Inserted => true
    case Opening(n) => n < |Found(digest, tx)|
    case _ => false
  }

  function WriteHost(db: Tables, tx: Tx, host: InventoryHost): Delta {
    var key := HostKey(tx.snapshot.orgID, host.hostID);
    tx.delta.(hosts := tx.delta.hosts[key := UpsertHost(Overlay(db, tx.delta).hosts, tx.snapshot.orgID, host)[key]])
  }

  function WritePackage(db: Tables, tx: Tx, pkg: InventoryPackage): Delta {
    var key := PackageKey(tx.snapshot.orgID, pkg.packageID);
    tx.delta.(packages := tx.delta.packages[key := UpsertPackage(Overlay(db, tx.delta).packages, tx.snapshot.orgID, pkg)[key]])
  }

  function WriteOpen(db: Tables, tx: Tx, f: Finding): Delta {
    var key := KeyOf(tx.snapshot.orgID, f);
    tx.delta.(findings := tx.delta.findings[key := UpsertOpenFinding(Overlay(db, tx.delta).findings, tx.snapshot.orgID, f)[key]])
  }

  function WriteResolved(db: Tables, tx: Tx, key: FindingKey): Delta {
    var findings := Overlay(db, tx.delta).findings;
    if key in findings then tx.delta.(findings := tx.delta.findings[key := ResolvedRow(findings[key], tx.now)]) else tx.delta
  }

  function WriteStatus(db: Tables, tx: Tx): Delta {
    var org := tx.snapshot.orgID;
    tx.delta.(status := tx.delta.status[org := TouchInventoryStatus(Overlay(db, tx.delta).status, org, tx.now)[org]])
  }

  function End(tx: Tx, phase: Phase): Tx {
    tx.(phase := phase, delta := NOTHING)
  }

  /** The next statement of a transaction, against the committed tables `db`. */
  function Statement(digest: Digest, db: Tables, tx: Tx): Tx
    requires Executing(digest, tx)
  {
    match tx.phase
    case UpsertingHosts(n) =>
      if n < |tx.snapshot.hosts| then tx.(phase := UpsertingHosts(n + 1), delta := WriteHost(db, tx, tx.snapshot.hosts[n]))
      else tx.(phase := UpsertingPackages(0))
    case UpsertingPackages(n) =>
      if n < |tx.snapshot.packages| then tx.(phase := UpsertingPackages(n + 1), delta := WritePackage(db, tx, tx.snapshot.packages[n]))
      else tx.(phase := Opening(0), seen := CatalogueOf(db))
    case Opening(n) => tx.(phase := Opening(n + 1), delta := WriteOpen(db, tx, Found(digest, tx)[n]))
    case Resolving(keys, n) =>
      if n < |keys| then tx.(phase := Resolving(keys, n + 1), delta := WriteResolved(db, tx, keys[n]))
      else if Key(tx) in db.snapshots then End(tx, Aborted)
      else tx.(phase := Inserted, delta := tx.delta.(snapshots := tx.delta.snapshots[Key(tx) := Row(tx)]))
    case Inserted => tx.(phase := Ready, delta := WriteStatus(db, tx))
  }

  /** What SELECT ... FROM integration_findings JOIN cve_records returns, less the matched keys. */
  function StaleNow(digest: Digest, db: Tables, tx: Tx): set<FindingKey> {
    StaleKeys(Overlay(db, tx.delta).findings, db.cves, tx.snapshot.orgID, PackageIDs(tx.snapshot.packages),
              KeyTexts(tx.snapshot.orgID, Found(digest, tx)))
  }

  /** The reports of the rows to resolve, in the order they were read. */
  function ResolvedReports(db: Tables, tx: Tx, keys: seq<FindingKey>): (r: seq<Finding>)
    requires forall key :: key in keys ==> key in Overlay(db, tx.delta).findings && key.cveID in db.cves
    ensures |r| == |keys|
    ensures forall i :: 0 <= i < |r| ==>
      r[i] == ResolvedFinding(keys[i], Overlay(db, tx.delta).findings[keys[i]], db.cves[keys[i].cveID], tx.now)
  {
    if keys == [] then []
    else
      var last := keys[|keys| - 1];
      ResolvedReports(db, tx, keys[..|keys| - 1]) +
      [ResolvedFinding(last, Overlay(db, tx.delta).findings[last], db.cves[last.cveID], tx.now)]
  }

  ghost predicate Lists(keys: seq<FindingKey>, rows: set<FindingKey>) {
    && (forall key :: key in keys <==> key in rows)
    && (forall i, j :: 0 <= i < j < |keys| ==> keys[i] != keys[j])
  }

  /** No other transaction has locked a row written by `tx`, which stands for transaction t. */
  predicate Unlocked(s: State, t: TxID, tx: Tx) {
    forall u :: u in s.txs && u != t ==> Disjoint(tx.delta, s.txs[u].delta)
  }

  predicate InPhase(s: State, t: TxID, phase: Phase) {
    t in s.txs && s.txs[t].phase == phase
  }

  /** Delivery succeeds only if every page was acknowledged; without findings nothing is delivered or changed. */
  predicate CanAnswer(tx: Tx, delivered: bool, stored: bool) {
    tx.reply.NoReply? && (delivered ==> tx.sent >= |tx.report|) && (tx.report == [] ==> delivered && !stored)
  }

  function PageEnd(tx: Tx): nat {
    if tx.sent + MAX_FINDINGS_PER_BATCH > |tx.report| then |tx.report| else tx.sent + MAX_FINDINGS_PER_BATCH
  }

  function AnswerOf(tx: Tx, delivered: bool): SnapshotResult {
    if delivered then FreshResponse(tx.snapshot) else FreshResponse(tx.snapshot).(nextAction := "retry_findings")
  }

  ghost predicate Enabled(digest: Digest, s: State, a: Action) {
    match a
    case Start(t, snapshot, _) => t !in s.txs && Storable(snapshot)
    case Lookup(t) => InPhase(s, t, Started)
    case Execute(t) => t in s.txs && Executing(digest, s.txs[t]) && Unlocked(s, t, Statement(digest, s.db, s.txs[t]))
    case SelectStale(t, keys) =>
      t in s.txs && s.txs[t].phase == Opening(|Found(digest, s.txs[t])|) && Lists(keys, StaleNow(digest, s.db, s.txs[t]))
    case CommitTx(t) => InPhase(s, t, Ready)
    case Fail(t) => t in s.txs && !s.txs[t].phase.Committed?
    case Deliver(t) => InPhase(s, t, Committed) && s.txs[t].reply.NoReply? && s.txs[t].sent < |s.txs[t].report|
    case Answer(t, delivered, stored) => InPhase(s, t, Committed) && CanAnswer(s.txs[t], delivered, stored)
    case Sync(cves, affected) => Respects(s.db, cves, affected)
  }

  /** The serial steps a commit stands for.  If a sync came after the candidates were selected, the snapshot counts as
      matched against the older catalogue. */
  function CommitEvents(db: Tables, tx: Tx): seq<Runs.Event> {
    var applied := Runs.Snapshot(tx.snapshot, tx.now);
    if tx.seen == CatalogueOf(db) then [applied]
    else [Runs.Sync(tx.seen.cves, tx.seen.affected), applied, Runs.Sync(db.cves, db.affected)]
  }

  /** Actions that move one transaction and leave everything else alone. */
  predicate Moves(a: Action) {
    a.Start? || a.Lookup? || a.Execute? || a.SelectStale? || a.Fail?
  }

  function Moved(digest: Digest, s: State, a: Action): Tx
    requires Enabled(digest, s, a) && Moves(a)
  {
    match a
    case Start(_, snapshot, now) => Tx(snapshot, now, Started, NOTHING, Catalogue(map[], []), [], 0, NoReply)
    case Lookup(t) =>
      var tx := s.txs[t];
      tx.(phase := if Key(tx) in s.db.snapshots then Replayed(s.db.snapshots[Key(tx)].response) else UpsertingHosts(0))
    case Execute(t) => Statement(digest, s.db, s.txs[t])
    case SelectStale(t, keys) =>
      var tx := s.txs[t];
      tx.(phase := Resolving(keys, 0), report := Found(digest, tx) + ResolvedReports(s.db, tx, keys))
    case Fail(t) => End(s.txs[t], Aborted)
  }

  function Next(digest: Digest, s: State, a: Action): State
    requires Enabled(digest, s, a)
  {
    match a
    case CommitTx(t) =>
      var tx := s.txs[t];
      State(Overlay(s.db, tx.delta), s.txs[t := End(tx, Committed)], s.commits + [t], s.posts, s.history + CommitEvents(s.db, tx))
    case Deliver(t) =>
      var tx := s.txs[t];
      s.(txs := s.txs[t := tx.(sent := PageEnd(tx))], posts := s.posts + [Post(t, tx.report[tx.sent..PageEnd(tx)])])
    case Answer(t, delivered, stored) =>
      var tx := s.txs[t];
      var after := s.(txs := s.txs[t := tx.(reply := Replied(delivered, stored))]);
      if !stored then after
      else after.(db := SetResponse(s.db, Key(tx), AnswerOf(tx, delivered)),
                  history := s.history + [Runs.UpdateResponse(Key(tx), AnswerOf(tx, delivered))])
    case Sync(cves, affected) =>
      s.(db := With(s.db, Catalogue(cves, affected)), history := s.history + [Runs.Sync(cves, affected)])
    case _ => s.(txs := s.txs[a.tx := Moved(digest, s, a)])
  }

  ghost predicate IsRun(digest: Digest, s: State, actions: seq<Action>)
    decreases |actions|
  {
    actions == [] || (Enabled(digest, s, actions[0]) && IsRun(digest, Next(digest, s, actions[0]), actions[1..]))
  }

  function Final(digest: Digest, s: State, actions: seq<Action>): State
    requires IsRun(digest, s, actions)
    decreases |actions|
  {
    if actions == [] then s else Final(digest, Next(digest, s, actions[0]), actions[1..])
  }

  function Initial(db: Tables): State {
    State(db, map[], [], [], [])
  }

  // ----- Locks and keys -----

  /** No two transactions have written the same row. */
  ghost predicate Locks(s: State) {
    forall t, u :: t in s.txs && u in s.txs && t != u ==> Disjoint(s.txs[t].delta, s.txs[u].delta)
  }

  predicate CommittedWith(s: State, t: TxID, key: SnapshotKey) {
    InPhase(s, t, Committed) && Key(s.txs[t]) == key
  }

  /** A transaction holds its snapshot key from the insert to its end, and nothing before or after. */
  predicate HoldsKey(tx: Tx) {
    tx.delta.snapshots == if tx.phase.Inserted? || tx.phase.Ready? then map[Key(tx) := Row(tx)] else map[]
  }

  /** Held keys are new. */
  ghost predicate HeldInv(s: State) {
    && (forall t :: t in s.txs ==> HoldsKey(s.txs[t]))
    && (forall t :: t in s.txs ==> s.txs[t].delta.snapshots.Keys !! s.db.snapshots.Keys)
  }

  /** Keys in the snapshot table come from the start or from a commit, each from one only. */
  ghost predicate CommittedInv(start: Tables, s: State) {
    && start.snapshots.Keys <= s.db.snapshots.Keys
    && (forall t, key :: CommittedWith(s, t, key) ==> key in s.db.snapshots && key !in start.snapshots)
    && (forall t, u, key :: CommittedWith(s, t, key) && CommittedWith(s, u, key) ==> t == u)
  }

  /** The findings CT Ops has acknowledged from one transaction. */
  function Posted(posts: seq<Post>, t: TxID): seq<Finding> {
    if posts == [] then []
    else
      var last := posts[|posts| - 1];
      Posted(posts[..|posts| - 1], t) + if last.tx == t then last.findings else []
  }

  predicate SentOK(posts: seq<Post>, t: TxID, tx: Tx) {
    && tx.sent <= |tx.report| && Posted(posts, t) == tx.report[..tx.sent]
    && (!tx.phase.Committed? ==> tx.sent == 0 && tx.reply.NoReply?)
  }

  /** Only committed transactions deliver, and from each a prefix of its report is acknowledged. */
  ghost predicate PostsInv(s: State) {
    && (forall p :: p in s.posts ==> InPhase(s, p.tx, Committed))
    && (forall t :: t in s.txs ==> SentOK(s.posts, t, s.txs[t]))
  }

  ghost predicate CommitsInv(s: State) {
    && (forall t :: t in s.commits <==> InPhase(s, t, Committed))
    && (forall i, j :: 0 <= i < j < |s.commits| ==> s.commits[i] != s.commits[j])
  }

  ghost predicate KeysInv(start: Tables, s: State) {
    Locks(s) && HeldInv(s) && CommittedInv(start, s) && PostsInv(s) && CommitsInv(s)
  }

  lemma DisjointIsSymmetric()
    ensures forall d, e :: Disjoint(d, e) ==> Disjoint(e, d)
  {
  }

  lemma StatementKeepsKey(digest: Digest, db: Tables, tx: Tx)
    requires Executing(digest, tx) && HoldsKey(tx) && tx.delta.snapshots.Keys !! db.snapshots.Keys
    ensures var tx' := Statement(digest, db, tx);
      && HoldsKey(tx') && tx'.delta.snapshots.Keys !! db.snapshots.Keys && !tx'.phase.Committed? && Key(tx') == Key(tx)
      && tx'.sent == tx.sent && tx'.reply == tx.reply
  {
    hide UpsertHost, UpsertPackage, UpsertOpenFinding, TouchInventoryStatus, ResolvedRow, Overlay, KeyOfSnapshot, Found;
  }

  /** How a transaction can move. */
  lemma MoveFacts(digest: Digest, s: State, a: Action)
    requires Enabled(digest, s, a) && Moves(a) && Locks(s) && HeldInv(s)
    ensures var tx := Moved(digest, s, a);
      && Unlocked(s, a.tx, tx) && HoldsKey(tx) && tx.delta.snapshots.Keys !! s.db.snapshots.Keys && !tx.phase.Committed?
      && !InPhase(s, a.tx, Committed) && (a.Start? || (a.tx in s.txs && tx.sent == s.txs[a.tx].sent && tx.reply == s.txs[a.tx].reply))
      && (a.Start? ==> a.tx !in s.txs && tx.sent == 0 && tx.reply.NoReply?)
  {
    hide Statement, Lists, StaleNow, KeyOfSnapshot, NewSnapshotRow, Storable, Found, Disjoint;
    if a.Execute? {
      StatementKeepsKey(digest, s.db, s.txs[a.tx]);
    }
    assert forall d :: Disjoint(NOTHING, d) by {
      NothingIsDisjoint();
    }
  }

  lemma NothingIsDisjoint()
    ensures forall d :: Disjoint(NOTHING, d)
  {
  }

  lemma NextPost(posts: seq<Post>, p: Post, t: TxID)
    ensures Posted(posts + [p], t) == Posted(posts, t) + if p.tx == t then p.findings else []
  {
    assert (posts + [p])[..|posts|] == posts;
  }

  lemma {:induction false} NothingPosted(posts: seq<Post>, t: TxID)
    requires forall p :: p in posts ==> p.tx != t
    ensures Posted(posts, t) == []
  {
    if posts != [] {
      NothingPosted(posts[..|posts| - 1], t);
    }
  }

  lemma MoveKeepsLocks(s: State, t: TxID, tx: Tx)
    requires Locks(s) && HeldInv(s) && Unlocked(s, t, tx) && HoldsKey(tx) && tx.delta.snapshots.Keys !! s.db.snapshots.Keys
    ensures var s' := s.(txs := s.txs[t := tx]); Locks(s') && HeldInv(s')
  {
    hide HoldsKey, Disjoint;
    DisjointIsSymmetric();
  }

  lemma MoveKeepsCommitted(start: Tables, s: State, t: TxID, tx: Tx)
    requires CommittedInv(start, s) && CommitsInv(s) && !InPhase(s, t, Committed) && !tx.phase.Committed?
    ensures var s' := s.(txs := s.txs[t := tx]); CommittedInv(start, s') && CommitsInv(s')
  {
    hide Key;
    var s' := s.(txs := s.txs[t := tx]);
    assert forall u, key :: CommittedWith(s', u, key) ==> CommittedWith(s, u, key);
    assert forall u :: InPhase(s, u, Committed) <==> InPhase(s', u, Committed);
  }

  lemma MoveKeepsPosts(s: State, t: TxID, tx: Tx)
    requires PostsInv(s) && !InPhase(s, t, Committed) && !tx.phase.Committed? && tx.sent == 0 && tx.reply.NoReply?
    ensures PostsInv(s.(txs := s.txs[t := tx]))
  {
    hide Posted;
    NothingPosted(s.posts, t);
  }

  lemma CommitKeepsLocks(s: State, s': State, t: TxID, tx: Tx)
    requires Locks(s) && tx.delta == NOTHING && s'.txs == s.txs[t := tx]
    ensures Locks(s')
  {
    hide Disjoint;
    DisjointIsSymmetric();
    NothingIsDisjoint();
  }

  lemma CommitKeepsHeld(s: State, s': State, t: TxID)
    requires HeldInv(s) && Locks(s) && InPhase(s, t, Ready)
    requires s'.txs == s.txs[t := End(s.txs[t], Committed)] && s'.db == Overlay(s.db, s.txs[t].delta)
    ensures HeldInv(s')
    ensures s'.db.snapshots.Keys == s.db.snapshots.Keys + {Key(s.txs[t])} && Key(s.txs[t]) !in s.db.snapshots
  {
    hide Key, Row;
    var tx := s.txs[t];
    assert HoldsKey(tx) && Key(tx) in tx.delta.snapshots;
    forall u | u in s'.txs
      ensures HoldsKey(s'.txs[u]) && s'.txs[u].delta.snapshots.Keys !! s'.db.snapshots.Keys
    {
      if u != t {
        assert HoldsKey(s.txs[u]) && Disjoint(s.txs[u].delta, tx.delta);
      }
    }
  }

  lemma CommitKeepsCommitted(start: Tables, s: State, s': State, t: TxID)
    requires CommittedInv(start, s) && PostsInv(s) && InPhase(s, t, Ready)
    requires s'.txs == s.txs[t := End(s.txs[t], Committed)] && s'.posts == s.posts
    requires s'.db.snapshots.Keys == s.db.snapshots.Keys + {Key(s.txs[t])} && Key(s.txs[t]) !in s.db.snapshots
    ensures CommittedInv(start, s') && PostsInv(s')
  {
    hide KeyOfSnapshot, Posted;
    assert forall u, key :: u != t && CommittedWith(s', u, key) ==> CommittedWith(s, u, key);
    assert forall key :: CommittedWith(s', t, key) ==> key == Key(s.txs[t]);
  }

  lemma CommitKeepsCommits(s: State, s': State, t: TxID)
    requires CommitsInv(s) && InPhase(s, t, Ready)
    requires s'.txs == s.txs[t := End(s.txs[t], Committed)] && s'.commits == s.commits + [t]
    ensures CommitsInv(s')
  {
    assert forall u :: InPhase(s', u, Committed) <==> u == t || InPhase(s, u, Committed);
    assert forall u :: u in s'.commits <==> u in s.commits || u == t;
    assert t !in s.commits;
  }

  /** Steps after which every transaction has the same snapshot, phase and rows. */
  predicate SameShape(s: State, s': State) {
    && s'.txs.Keys == s.txs.Keys && s'.commits == s.commits && s'.db.snapshots.Keys == s.db.snapshots.Keys
    && forall t :: t in s.txs ==>
         s'.txs[t] == s.txs[t].(report := s'.txs[t].report, sent := s'.txs[t].sent, reply := s'.txs[t].reply)
  }

  lemma SameShapeKeepsKeys(start: Tables, s: State, s': State)
    requires Locks(s) && HeldInv(s) && CommittedInv(start, s) && CommitsInv(s) && SameShape(s, s')
    ensures Locks(s') && HeldInv(s') && CommittedInv(start, s') && CommitsInv(s')
  {
    hide KeyOfSnapshot, Disjoint;
    assert forall u, key :: CommittedWith(s', u, key) <==> CommittedWith(s, u, key);
    assert forall u :: InPhase(s', u, Committed) <==> InPhase(s, u, Committed);
  }

  lemma DeliverKeepsPosts(digest: Digest, s: State, t: TxID)
    requires PostsInv(s) && Enabled(digest, s, Deliver(t))
    ensures PostsInv(Next(digest, s, Deliver(t)))
  {
    hide Posted;
    var (s', tx) := (Next(digest, s, Deliver(t)), s.txs[t]);
    var page := Post(t, tx.report[tx.sent..PageEnd(tx)]);
    forall u | u in s'.txs
      ensures SentOK(s'.posts, u, s'.txs[u])
    {
      assert SentOK(s.posts, u, s.txs[u]);
      NextPost(s.posts, page, u);
      if u == t {
        assert tx.report[..tx.sent] + tx.report[tx.sent..PageEnd(tx)] == tx.report[..PageEnd(tx)];
      }
    }
  }

  lemma AnswerKeepsPosts(s: State, s': State, t: TxID, reply: Reply)
    requires PostsInv(s) && InPhase(s, t, Committed)
    requires s'.txs == s.txs[t := s.txs[t].(reply := reply)] && s'.posts == s.posts
    ensures PostsInv(s')
  {
    hide Posted;
    assert forall u :: InPhase(s', u, Committed) <==> InPhase(s, u, Committed);
  }

  lemma ResponseKeepsKeys(db: Tables, key: SnapshotKey, response: SnapshotResult)
    ensures SetResponse(db, key, response).snapshots.Keys == db.snapshots.Keys
  {
  }

  /** Every statement of every transaction keeps the keys. */
  lemma StepKeepsKeys(digest: Digest, start: Tables, s: State, a: Action)
    requires KeysInv(start, s) && Enabled(digest, s, a)
    ensures KeysInv(start, Next(digest, s, a))
  {
    hide CommitEvents, Moved, Unlocked, HoldsKey, Overlay, Executing, Statement, StaleNow, Lists, Key, Storable, Found, SetResponse, SentOK, AnswerOf;
    hide Locks, HeldInv, CommittedInv, PostsInv, CommitsInv;
    var s' := Next(digest, s, a);
    match a
    case CommitTx(t) =>
      CommitKeepsLocks(s, s', t, End(s.txs[t], Committed));
      CommitKeepsHeld(s, s', t);
      CommitKeepsCommitted(start, s, s', t);
      CommitKeepsCommits(s, s', t);
    case Deliver(t) =>
      DeliverKeepsPosts(digest, s, t);
      SameShapeKeepsKeys(start, s, s');
    case Answer(t, delivered, stored) =>
      AnswerKeepsPosts(s, s', t, Replied(delivered, stored));
      ResponseKeepsKeys(s.db, Key(s.txs[t]), AnswerOf(s.txs[t], delivered));
      SameShapeKeepsKeys(start, s, s');
    case Sync(_, _) =>
      SameShapeKeepsKeys(start, s, s');
      SyncKeepsPosts(s, s');
    case _ => MoveKeepsKeys(digest, start, s, a);
  }

  lemma SyncKeepsPosts(s: State, s': State)
    requires PostsInv(s) && s'.txs == s.txs && s'.posts == s.posts
    ensures PostsInv(s')
  {
  }

  lemma MoveKeepsKeys(digest: Digest, start: Tables, s: State, a: Action)
    requires KeysInv(start, s) && Enabled(digest, s, a) && Moves(a)
    ensures KeysInv(start, Next(digest, s, a))
  {
    hide Enabled, Moved, Unlocked, HoldsKey, Overlay, Posted, Key, Locks, HeldInv, CommittedInv, CommitsInv;
    MoveFacts(digest, s, a);
    var tx := Moved(digest, s, a);
    assert tx.sent == 0 && tx.reply.NoReply? by {
      if !a.Start? {
        assert SentOK(s.posts, a.tx, s.txs[a.tx]);
      }
    }
    hide PostsInv;
    MoveKeepsLocks(s, a.tx, tx);
    MoveKeepsCommitted(start, s, a.tx, tx);
    MoveKeepsPosts(s, a.tx, tx);
  }

  lemma {:induction false} RunKeepsKeys(digest: Digest, start: Tables, s: State, actions: seq<Action>)
    requires KeysInv(start, s) && IsRun(digest, s, actions)
    ensures KeysInv(start, Final(digest, s, actions))
    decreases |actions|
  {
    hide KeysInv, Next, Enabled;
    if actions != [] {
      StepKeepsKeys(digest, start, s, actions[0]);
      RunKeepsKeys(digest, start, Next(digest, s, actions[0]), actions[1..]);
    }
  }

  lemma InitialKeys(db: Tables)
    ensures KeysInv(db, Initial(db))
  {
  }

  // ----- At most one call per snapshot id takes effect -----

  /** In every interleaving at most one transaction per (organisation, snapshot id) commits, and none if the id was
      already stored. */
  lemma AtMostOneCommits(digest: Digest, db: Tables, actions: seq<Action>, t: TxID, u: TxID, key: SnapshotKey)
    requires IsRun(digest, Initial(db), actions)
    requires CommittedWith(Final(digest, Initial(db), actions), t, key)
    ensures key !in db.snapshots
    ensures CommittedWith(Final(digest, Initial(db), actions), u, key) ==> t == u
  {
    hide Final, IsRun;
    InitialKeys(db);
    RunKeepsKeys(digest, db, Initial(db), actions);
  }

  /** For every (organisation, snapshot id) all findings CT Ops is told come from one call, the one that committed: a prefix
      of its report, in order, each finding once. */
  lemma OnlyTheWinnerDelivers(digest: Digest, db: Tables, actions: seq<Action>, i: nat, j: nat)
    requires IsRun(digest, Initial(db), actions)
    requires i < |Final(digest, Initial(db), actions).posts| && j < |Final(digest, Initial(db), actions).posts|
    ensures var s := Final(digest, Initial(db), actions);
      var (t, u) := (s.posts[i].tx, s.posts[j].tx);
      && InPhase(s, t, Committed) && InPhase(s, u, Committed)
      && (Key(s.txs[t]) == Key(s.txs[u]) ==> t == u)
      && Posted(s.posts, t) <= s.txs[t].report
  {
    hide Final, IsRun, KeyOfSnapshot, Posted;
    InitialKeys(db);
    RunKeepsKeys(digest, db, Initial(db), actions);
    var s := Final(digest, Initial(db), actions);
    var (t, u) := (s.posts[i].tx, s.posts[j].tx);
    assert s.posts[i] in s.posts && s.posts[j] in s.posts;
    assert CommittedWith(s, t, Key(s.txs[t])) && CommittedWith(s, u, Key(s.txs[u]));
    assert SentOK(s.posts, t, s.txs[t]);
  }

  /** A call that began after its key was stored. */
  predicate LateCall(s: State, t: TxID) {
    && t in s.txs && Key(s.txs[t]) in s.db.snapshots && s.txs[t].delta == NOTHING
    && (forall p :: p in s.posts ==> p.tx != t)
    && (s.txs[t].phase.Started? || s.txs[t].phase.Replayed? || s.txs[t].phase.Aborted?)
  }

  lemma LateCallStep(digest: Digest, s: State, a: Action, t: TxID)
    requires Enabled(digest, s, a) && LateCall(s, t)
    ensures LateCall(Next(digest, s, a), t)
  {
    hide Statement, KeyOfSnapshot, CommitEvents, Lists, StaleNow, Unlocked, Storable;
  }

  lemma {:induction false} LateCallStaysLate(digest: Digest, s: State, actions: seq<Action>, t: TxID)
    requires IsRun(digest, s, actions) && LateCall(s, t)
    ensures LateCall(Final(digest, s, actions), t)
    decreases |actions|
  {
    hide LateCall, Next, Enabled;
    if actions != [] {
      LateCallStep(digest, s, actions[0], t);
      LateCallStaysLate(digest, Next(digest, s, actions[0]), actions[1..], t);
    }
  }

  /** Once a snapshot has committed, every call for it that starts later ends as a replay or an error: it never writes a
      row, never commits and never delivers, however the rest of the system goes on. */
  lemma CallAfterCommitIsReplay(digest: Digest, db: Tables, before: seq<Action>, winner: TxID, t: TxID,
                                snapshot: InventorySnapshot, now: Time, rest: seq<Action>)
    requires IsRun(digest, Initial(db), before)
    requires CommittedWith(Final(digest, Initial(db), before), winner, KeyOfSnapshot(snapshot))
    requires Enabled(digest, Final(digest, Initial(db), before), Start(t, snapshot, now))
    requires IsRun(digest, Next(digest, Final(digest, Initial(db), before), Start(t, snapshot, now)), rest)
    ensures LateCall(Final(digest, Next(digest, Final(digest, Initial(db), before), Start(t, snapshot, now)), rest), t)
  {
    hide Final, IsRun, KeyOfSnapshot, Storable, Locks, HeldInv, SentOK;
    InitialKeys(db);
    RunKeepsKeys(digest, db, Initial(db), before);
    assert forall p :: p in Final(digest, Initial(db), before).posts ==> p.tx != t;
    LateCallStaysLate(digest, Next(digest, Final(digest, Initial(db), before), Start(t, snapshot, now)), rest, t);
  }

  // ----- What a replay is answered -----

  /** What the snapshot table holds for a committed transaction. */
  function StoredAnswer(tx: Tx): SnapshotResult {
    AnswerOf(tx, tx.reply.Replied? && tx.reply.stored ==> tx.reply.delivered)
  }

  predicate StoredFor(db: Tables, tx: Tx) {
    Key(tx) in db.snapshots && db.snapshots[Key(tx)].response == StoredAnswer(tx)
  }

  ghost predicate AnswersInv(s: State) {
    forall t :: InPhase(s, t, Committed) ==> StoredFor(s.db, s.txs[t])
  }

  lemma CommitKeepsAnswers(start: Tables, s: State, s': State, t: TxID)
    requires AnswersInv(s) && KeysInv(start, s) && InPhase(s, t, Ready)
    requires s'.txs == s.txs[t := End(s.txs[t], Committed)] && s'.db == Overlay(s.db, s.txs[t].delta)
    ensures AnswersInv(s')
  {
    hide Locks, Posted, KeyOfSnapshot, PostsInv, CommitsInv;
    var tx := s.txs[t];
    assert HoldsKey(tx);
    assert tx.reply.NoReply? by {
      UncommittedHasNoReply(s, t);
    }
    forall u | InPhase(s', u, Committed)
      ensures StoredFor(s'.db, s'.txs[u])
    {
      if u != t {
        assert StoredFor(s.db, s.txs[u]) && CommittedWith(s, u, Key(s.txs[u]));
      }
    }
  }

  lemma UncommittedHasNoReply(s: State, t: TxID)
    requires PostsInv(s) && t in s.txs && !InPhase(s, t, Committed)
    ensures s.txs[t].reply.NoReply?
  {
    hide Posted;
    assert SentOK(s.posts, t, s.txs[t]);
  }

  lemma AnswerKeepsAnswers(digest: Digest, start: Tables, s: State, t: TxID, delivered: bool, stored: bool)
    requires AnswersInv(s) && CommittedInv(start, s) && Enabled(digest, s, Answer(t, delivered, stored))
    ensures AnswersInv(Next(digest, s, Answer(t, delivered, stored)))
  {
    hide KeyOfSnapshot;
    var s' := Next(digest, s, Answer(t, delivered, stored));
    forall u | InPhase(s', u, Committed)
      ensures StoredFor(s'.db, s'.txs[u])
    {
      assert StoredFor(s.db, s.txs[u]) && StoredFor(s.db, s.txs[t]);
      assert CommittedWith(s, u, Key(s.txs[u])) && CommittedWith(s, t, Key(s.txs[t]));
    }
  }

  lemma MoveKeepsAnswers(s: State, t: TxID, tx: Tx)
    requires AnswersInv(s) && !tx.phase.Committed?
    ensures AnswersInv(s.(txs := s.txs[t := tx]))
  {
    hide StoredFor;
    assert forall u :: InPhase(s.(txs := s.txs[t := tx]), u, Committed) ==> InPhase(s, u, Committed);
  }

  lemma DeliverKeepsAnswers(s: State, s': State, t: TxID, sent: nat)
    requires AnswersInv(s) && t in s.txs && s'.txs == s.txs[t := s.txs[t].(sent := sent)] && s'.db == s.db
    ensures AnswersInv(s')
  {
    hide KeyOfSnapshot;
    assert forall u :: InPhase(s', u, Committed) ==> InPhase(s, u, Committed);
  }

  lemma StepKeepsAnswers(digest: Digest, start: Tables, s: State, a: Action)
    requires AnswersInv(s) && KeysInv(start, s) && Enabled(digest, s, a)
    ensures AnswersInv(Next(digest, s, a))
  {
    hide CommitEvents, Moved, Unlocked, HoldsKey, Overlay, Executing, Statement, StaleNow, Lists, Key, Storable, Found, SetResponse, SentOK;
    hide Locks, HeldInv, CommittedInv, PostsInv, CommitsInv, AnswerOf;
    match a
    case CommitTx(t) => CommitKeepsAnswers(start, s, Next(digest, s, a), t);
    case Answer(t, delivered, stored) => AnswerKeepsAnswers(digest, start, s, t, delivered, stored);
    case Deliver(t) => DeliverKeepsAnswers(s, Next(digest, s, a), t, PageEnd(s.txs[t]));
    case Sync(_, _) =>
    case _ =>
      MoveFacts(digest, s, a);
      MoveKeepsAnswers(s, a.tx, Moved(digest, s, a));
  }

  lemma {:induction false} RunKeepsAnswers(digest: Digest, start: Tables, s: State, actions: seq<Action>)
    requires AnswersInv(s) && KeysInv(start, s) && IsRun(digest, s, actions)
    ensures AnswersInv(Final(digest, s, actions))
    decreases |actions|
  {
    hide KeysInv, AnswersInv, Next, Enabled;
    if actions != [] {
      StepKeepsKeys(digest, start, s, actions[0]);
      StepKeepsAnswers(digest, start, s, actions[0]);
      RunKeepsAnswers(digest, start, Next(digest, s, actions[0]), actions[1..]);
    }
  }

  /** What a committed transaction has answered stays so. */
  predicate SameCommitted(s: State, s': State, t: TxID) {
    InPhase(s, t, Committed) ==>
      InPhase(s', t, Committed) && s'.txs[t].snapshot == s.txs[t].snapshot
      && (s.txs[t].reply.Replied? ==> s'.txs[t].reply == s.txs[t].reply)
  }

  lemma StepKeepsCommitted(digest: Digest, s: State, a: Action, t: TxID)
    requires Enabled(digest, s, a)
    ensures SameCommitted(s, Next(digest, s, a), t)
  {
    hide Moved, CommitEvents, Overlay, Statement, StaleNow, Lists, Key, Storable, Unlocked, Found, SetResponse;
  }

  lemma {:induction false} RunKeepsCommitted(digest: Digest, s: State, actions: seq<Action>, t: TxID)
    requires IsRun(digest, s, actions) && InPhase(s, t, Committed)
    ensures var s' := Final(digest, s, actions);
      && InPhase(s', t, Committed) && s'.txs[t].snapshot == s.txs[t].snapshot
      && (s.txs[t].reply.Replied? ==> s'.txs[t].reply == s.txs[t].reply)
    decreases |actions|
  {
    hide Next, Enabled;
    if actions != [] {
      StepKeepsCommitted(digest, s, actions[0], t);
      RunKeepsCommitted(digest, Next(digest, s, actions[0]), actions[1..], t);
    }
  }

  /** The changed answer is in the snapshot table. */
  predicate AnswerStored(s: State, t: TxID) {
    t in s.txs && s.txs[t].reply.Replied? && s.txs[t].reply.stored
  }

  /** A repeat that looks its snapshot up at any point after the commit, however everything interleaves, is answered as the
      call that committed if and only if that call delivers its findings (or has none), or had already stored its changed
      answer when the repeat looked. */
  lemma RepeatAnswerIff(digest: Digest, db: Tables, before: seq<Action>, t: TxID, u: TxID, after: seq<Action>)
    requires IsRun(digest, Initial(db), before)
    requires var s := Final(digest, Initial(db), before);
      && InPhase(s, t, Committed) && InPhase(s, u, Started) && Key(s.txs[u]) == Key(s.txs[t])
    requires IsRun(digest, Next(digest, Final(digest, Initial(db), before), Lookup(u)), after)
    requires var s' := Final(digest, Next(digest, Final(digest, Initial(db), before), Lookup(u)), after);
      t in s'.txs && s'.txs[t].reply.Replied?
    ensures var s := Final(digest, Initial(db), before);
      var looked := Next(digest, s, Lookup(u)).txs[u].phase;
      var first := Final(digest, Next(digest, s, Lookup(u)), after).txs[t];
      looked.Replayed? &&
      (looked.response == AnswerOf(first, first.reply.delivered) <==> first.reply.delivered || AnswerStored(s, t))
  {
    hide Final, IsRun, KeyOfSnapshot, KeysInv;
    var s := Final(digest, Initial(db), before);
    InitialKeys(db);
    RunKeepsAnswers(digest, db, Initial(db), before);
    assert StoredFor(s.db, s.txs[t]);
    StepKeepsCommitted(digest, s, Lookup(u), t);
    RunKeepsCommitted(digest, Next(digest, s, Lookup(u)), after, t);
  }
}
