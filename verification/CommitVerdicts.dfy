/** What a commit decides about each finding, and which findings are open after every interleaving. */
module CommitVerdicts {
  import opened GoStrings
  import opened CveCatalogue
  import opened CtOps
  import opened SnapshotTables
  import opened SnapshotTheorems
  import opened SnapshotTransactions
  import opened SerialOrder
  import opened CtOpsView
  import Runs = SnapshotRuns

  /** The findings about CVEs of a catalogue. */
  function Known(findings: Findings, cves: Table): Findings {
    map key | key in findings && key.cveID in cves :: findings[key]
  }

  /** The committed tables as of the catalogue the transaction has selected from. */
  function Base(db: Tables, tx: Tx): Tables {
    With(db, tx.seen).(findings := Known(db.findings, tx.seen.cves))
  }

  predicate SeenOK(tx: Tx) {
    Storable(tx.snapshot) && forall row :: row in tx.seen.affected ==> row.cveID in tx.seen.cves
  }

  lemma BaseIsValid(db: Tables, tx: Tx)
    requires Valid(db) && SeenOK(tx)
    ensures Valid(Base(db, tx))
  {
    hide NULFree, Storable;
  }

  /** On the packages the transaction has locked, nothing is cut off. */
  lemma KnownWhereGuarded(db: Tables, tx: Tx)
    requires CatalogueOK(db, tx) && Reading(tx)
    ensures SameWhereGuarded(db.findings, Known(db.findings, tx.seen.cves), tx)
  {
    hide Guards;
  }

  lemma DoneIsApplied(digest: Digest, db: Tables, tx: Tx)
    requires tx.phase.Ready?
    ensures Applied(digest, db, tx.snapshot, tx.now).findings == FindingsDone(digest, db.findings, tx.(seen := CatalogueOf(db)))
    ensures SnapshotStale(digest, db, tx.snapshot, tx.now) == Stale(digest, db.findings, tx.(seen := CatalogueOf(db)))
    ensures SnapshotMatches(digest, db, tx.snapshot, tx.now) == Found(digest, tx.(seen := CatalogueOf(db)))
  {
    hide Matches, SelectByName, Names, OpenAll, KeyTexts, PackageIDs, ResolveAll, StaleKeys;
  }

  /** After its commit the open findings of the packages a transaction names are those it has matched, against the catalogue
      it has selected from; the others are as they were. */
  lemma CommitDecides(digest: Digest, db: Tables, tx: Tx, key: FindingKey)
    requires OnTrack(digest, db, tx) && tx.phase.Ready? && SeenOK(tx) && Valid(db)
    ensures IsOpen(Overlay(db, tx.delta).findings, key) <==>
      if Touched(tx.snapshot, key) then Matched(With(db, tx.seen), tx.snapshot, key) else IsOpen(db.findings, key)
  {
    hide Found, Stale, FindingsDone, PackagesOK, HostsOK, StatusOK, ReportOK, CatalogueOK, PackageIDs, SeenOK, Valid, Matched, IsOpen;
    assert Overlay(db, tx.delta).findings == FindingsDone(digest, db.findings, tx);
    if Touched(tx.snapshot, key) {
      hide OnTrack, FindingsOK;
      BaseDecides(digest, db, tx, key);
      SameFindingAsBase(digest, db, tx, key);
    } else {
      OthersUntouched(digest, db, tx, key);
    }
  }

  lemma OthersUntouched(digest: Digest, db: Tables, tx: Tx, key: FindingKey)
    requires FindingsOK(digest, db.findings, tx) && tx.phase.Ready? && !Touched(tx.snapshot, key)
    ensures IsOpen(FindingsDone(digest, db.findings, tx), key) <==> IsOpen(db.findings, key)
  {
    hide Found, Stale, FindingsDone, FindingsOK, PackageIDs;
    DoneLocal(digest, db.findings, db.findings, tx, key);
  }

  lemma SameFindingAsBase(digest: Digest, db: Tables, tx: Tx, key: FindingKey)
    requires OnTrack(digest, db, tx) && tx.phase.Ready? && Touched(tx.snapshot, key)
    ensures IsOpen(FindingsDone(digest, db.findings, tx), key) <==>
      IsOpen(FindingsDone(digest, Known(db.findings, tx.seen.cves), tx), key)
  {
    hide Found, Stale, FindingsDone, PackagesOK, HostsOK, StatusOK, ReportOK, FindingsOK, CatalogueOK, PackageIDs, Known;
    var known := Known(db.findings, tx.seen.cves);
    KnownWhereGuarded(db, tx);
    StaleLocal(digest, db.packages, db.findings, known, tx);
    NamedPackagesAreLocked(db.packages, tx, key.packageID);
    assert Guards(tx, key);
    DoneLocal(digest, db.findings, known, tx, key);
  }

  lemma BaseDecides(digest: Digest, db: Tables, tx: Tx, key: FindingKey)
    requires tx.phase.Ready? && SeenOK(tx) && Valid(db) && Touched(tx.snapshot, key)
    ensures IsOpen(FindingsDone(digest, Known(db.findings, tx.seen.cves), tx), key) <==>
      Matched(With(db, tx.seen), tx.snapshot, key)
  {
    hide Applied, Found, Stale, FindingsDone, Storable, Valid, Known, Matched, IsOpen, Touched;
    var base := Base(db, tx);
    assert tx.(seen := CatalogueOf(base)) == tx;
    DoneIsApplied(digest, base, tx);
    BaseIsValid(db, tx);
    OpenFindingsAfterSnapshot(digest, base, tx.snapshot, tx.now, key);
    SameCatalogueSameMatches(base, With(db, tx.seen), tx.snapshot, key);
  }

  lemma SameCatalogueSameMatches(db: Tables, db': Tables, snapshot: InventorySnapshot, key: FindingKey)
    requires db'.affected == db.affected
    ensures Matched(db', snapshot, key) <==> Matched(db, snapshot, key)
  {
    hide Witness;
  }

  /** The report of a transaction names exactly the findings it has matched and those it resolves. */
  lemma ReportFacts(digest: Digest, db: Tables, tx: Tx, key: FindingKey)
    requires OnTrack(digest, db, tx) && tx.phase.Ready? && SeenOK(tx) && Valid(db)
    ensures ReportedIn(tx.report, tx.snapshot.orgID, key) <==>
      Touched(tx.snapshot, key) && (Matched(With(db, tx.seen), tx.snapshot, key) || IsOpen(db.findings, key))
    ensures forall f :: f in tx.report && KeyOf(tx.snapshot.orgID, f) == key ==>
      (f.status.Open? <==> Matched(With(db, tx.seen), tx.snapshot, key))
  {
    hide Applied, Found, Stale, FindingsDone, PackagesOK, HostsOK, StatusOK, FindingsOK, PackageIDs, Storable, Valid, Known, Matched, LastFor;
    var (org, base, known) := (tx.snapshot.orgID, Base(db, tx), Known(db.findings, tx.seen.cves));
    var (found, stale) := (Found(digest, tx), Stale(digest, db.findings, tx));
    assert tx.report == found + tx.report[|found|..];
    KnownWhereGuarded(db, tx);
    StaleLocal(digest, db.packages, db.findings, known, tx);
    if Touched(tx.snapshot, key) {
      NamedPackagesAreLocked(db.packages, tx, key.packageID);
      assert Get(db.findings, key) == Get(known, key);
    }
    assert tx.(seen := CatalogueOf(base)) == tx;
    DoneIsApplied(digest, base, tx);
    BaseIsValid(db, tx);
    StaleIff(digest, base, tx.snapshot, tx.now, key);
    SameCatalogueSameMatches(base, With(db, tx.seen), tx.snapshot, key);
    MatchedIffFound(digest, base, tx.snapshot, tx.now, key);
    LastForIsInList(org, found, key);
    MatchesAreFresh(digest, base, tx.snapshot, tx.now);
  }

  // ----- Over every run -----

  /** The schema's guarantees hold at any moment, and held when each transaction selected its candidates. */
  ghost predicate SchemaInv(s: State) {
    Valid(s.db) && forall t :: t in s.txs ==> SeenOK(s.txs[t])
  }

  lemma MoveKeepsSeen(digest: Digest, s: State, a: Action)
    requires SchemaInv(s) && Enabled(digest, s, a) && Moves(a)
    ensures SeenOK(Moved(digest, s, a))
  {
    hide Found, Key, Row, StaleNow, Lists, Storable, Unlocked, WriteHost, WritePackage, WriteOpen, WriteResolved, WriteStatus, ResolvedReports, NULFree;
  }

  lemma CommitKeepsValid(digest: Digest, db: Tables, tx: Tx)
    requires OnTrack(digest, db, tx) && tx.phase.Ready? && SeenOK(tx) && Valid(db)
    ensures Valid(Overlay(db, tx.delta))
  {
    hide Found, HostsOK, PackagesOK, StatusOK, ReportOK, OpenAll, Stale, Guards, NULFree, Known;
    var (db', org, found) := (Overlay(db, tx.delta), tx.snapshot.orgID, Found(digest, tx));
    CommitKeepsForeignKeys(digest, db, tx);
    forall key | key in db'.findings
      ensures NULFree(key.hostID) && NULFree(key.packageID)
    {
      assert key in OpenAll(db.findings, org, found);
      OpenedIsStorable(digest, db, tx, key);
    }
  }

  lemma OpenedIsStorable(digest: Digest, db: Tables, tx: Tx, key: FindingKey)
    requires SeenOK(tx) && Valid(db) && key in OpenAll(db.findings, tx.snapshot.orgID, Found(digest, tx))
    ensures NULFree(key.hostID) && NULFree(key.packageID)
  {
    hide Found, OpenAll, OpenRow, PackageIDs, LastFor, NULFree, Storable;
    var (org, found) := (tx.snapshot.orgID, Found(digest, tx));
    forall f | f in found
      ensures f.firstSeenAt == tx.now && NULFree(f.hostID) && NULFree(f.packageID)
    {
      FoundFacts(digest, tx, f);
      FoundIsSnapshotMatches(digest, db, tx);
      MatchIsStorable(digest, With(db, tx.seen), tx.snapshot, tx.now, f);
    }
    OpenAllRow(db.findings, org, found, tx.now, key);
    LastForIsInList(org, found, key);
  }

  lemma StepKeepsSchema(digest: Digest, s: State, a: Action)
    requires SchemaInv(s) && AllOnTrack(digest, s) && Enabled(digest, s, a)
    ensures SchemaInv(Next(digest, s, a))
  {
    hide Moved, Overlay, Key, Executing, Lists, StaleNow, Storable, Statement, Unlocked, CommitEvents, OnTrack, AnswerOf, NULFree, Found;
    match a
    case CommitTx(t) =>
      hide Valid;
      CommitKeepsValid(digest, s.db, s.txs[t]);
    case Deliver(_) | Answer(_, _, _) | Sync(_, _) =>
    case _ =>
      hide Valid;
      MoveKeepsSeen(digest, s, a);
  }

  ghost predicate VerdictInv(digest: Digest, start: Tables, s: State, key: FindingKey) {
    IsOpen(s.db.findings, key) <==> Runs.LastVerdict(digest, start, s.history, key, IsOpen(start.findings, key))
  }

  lemma CommitKeepsVerdict(digest: Digest, start: Tables, s: State, t: TxID, key: FindingKey)
    requires VerdictInv(digest, start, s, key) && SchemaInv(s) && AllOnTrack(digest, s) && InPhase(s, t, Ready)
    requires s.db == Runs.Run(digest, start, s.history) && Key(s.txs[t]) !in s.db.snapshots
    ensures IsOpen(Overlay(s.db, s.txs[t].delta).findings, key) <==>
      Runs.LastVerdict(digest, start, s.history + CommitEvents(s.db, s.txs[t]), key, IsOpen(start.findings, key))
  {
    hide Overlay, OnTrack, IsOpen, Touched, Matched, Valid, SeenOK, Runs.Run, Runs.LastVerdict, KeyOfSnapshot, CommitEvents, ForeignKeys;
    CommitDecides(digest, s.db, s.txs[t], key);
    CommitEventsDecide(digest, start, s, s.txs[t], key);
  }

  lemma CommitEventsDecide(digest: Digest, start: Tables, s: State, tx: Tx, key: FindingKey)
    requires s.db == Runs.Run(digest, start, s.history) && Key(tx) !in s.db.snapshots
    ensures var soFar := IsOpen(start.findings, key);
      Runs.LastVerdict(digest, start, s.history + CommitEvents(s.db, tx), key, soFar) <==>
      if Touched(tx.snapshot, key) then Matched(With(s.db, tx.seen), tx.snapshot, key)
      else Runs.LastVerdict(digest, start, s.history, key, soFar)
  {
    hide IsOpen, Touched, Matched, Runs.Run, Runs.LastVerdict, KeyOfSnapshot;
    var (h, soFar) := (s.history, IsOpen(start.findings, key));
    var applied := Runs.Snapshot(tx.snapshot, tx.now);
    if tx.seen == CatalogueOf(s.db) {
      assert With(s.db, tx.seen) == s.db;
      Runs.LastVerdictAppends(digest, start, h, applied, key, soFar);
    } else {
      var back, forth := Runs.Sync(tx.seen.cves, tx.seen.affected), Runs.Sync(s.db.cves, s.db.affected);
      Runs.LastVerdictAppends(digest, start, h, back, key, soFar);
      Runs.RunAppends(digest, start, h, back);
      Runs.LastVerdictAppends(digest, start, h + [back], applied, key, soFar);
      Runs.LastVerdictAppends(digest, start, h + [back] + [applied], forth, key, soFar);
      assert h + [back, applied, forth] == h + [back] + [applied] + [forth];
    }
  }

  lemma StepKeepsVerdict(digest: Digest, start: Tables, s: State, a: Action, key: FindingKey)
    requires VerdictInv(digest, start, s, key) && SchemaInv(s) && SerialInv(digest, start, s) && Enabled(digest, s, a)
    ensures VerdictInv(digest, start, Next(digest, s, a), key)
  {
    hide Moved, Overlay, Key, Executing, Lists, StaleNow, Storable, Statement, Unlocked, CommitEvents, AnswerOf, IsOpen, Found;
    hide SchemaInv, AllOnTrack, ListsCommits, Runs.Run, Runs.LastVerdict, KeysInv;
    var soFar := IsOpen(start.findings, key);
    match a
    case CommitTx(t) =>
      ReadyKeyIsNew(start, s, t);
      CommitKeepsVerdict(digest, start, s, t, key);
    case Answer(t, delivered, stored) =>
      Runs.LastVerdictAppends(digest, start, s.history,
                              Runs.UpdateResponse(Key(s.txs[t]), AnswerOf(s.txs[t], delivered)), key, soFar);
    case Sync(cves, affected) =>
      Runs.LastVerdictAppends(digest, start, s.history, Runs.Sync(cves, affected), key, soFar);
    case _ =>
  }

  lemma ReadyKeyIsNew(start: Tables, s: State, t: TxID)
    requires KeysInv(start, s) && InPhase(s, t, Ready)
    ensures Key(s.txs[t]) !in s.db.snapshots
  {
    hide Key, Row, Locks, CommittedInv, PostsInv, CommitsInv;
    assert HoldsKey(s.txs[t]) && Key(s.txs[t]) in s.txs[t].delta.snapshots;
  }

  lemma {:induction false} RunKeepsSchema(digest: Digest, start: Tables, s: State, actions: seq<Action>)
    requires SchemaInv(s) && SerialInv(digest, start, s) && IsRun(digest, s, actions)
    ensures SchemaInv(Final(digest, s, actions)) && SerialInv(digest, start, Final(digest, s, actions))
    decreases |actions|
  {
    hide SchemaInv, SerialInv, Next, Enabled;
    if actions != [] {
      StepKeepsSchema(digest, s, actions[0]) by {
        SerialIsOnTrack(digest, start, s);
      }
      StepKeepsSerial(digest, start, s, actions[0]);
      RunKeepsSchema(digest, start, Next(digest, s, actions[0]), actions[1..]);
    }
  }

  lemma SerialIsOnTrack(digest: Digest, start: Tables, s: State)
    requires SerialInv(digest, start, s)
    ensures AllOnTrack(digest, s) && KeysInv(start, s)
  {
  }

  lemma {:induction false} RunKeepsVerdict(digest: Digest, start: Tables, s: State, actions: seq<Action>, key: FindingKey)
    requires VerdictInv(digest, start, s, key) && SchemaInv(s) && SerialInv(digest, start, s) && IsRun(digest, s, actions)
    ensures VerdictInv(digest, start, Final(digest, s, actions), key)
    decreases |actions|
  {
    hide VerdictInv, SchemaInv, SerialInv, Next, Enabled;
    if actions != [] {
      StepKeepsVerdict(digest, start, s, actions[0], key);
      SerialIsOnTrack(digest, start, s);
      StepKeepsSchema(digest, s, actions[0]);
      StepKeepsSerial(digest, start, s, actions[0]);
      RunKeepsVerdict(digest, start, Next(digest, s, actions[0]), actions[1..], key);
    }
  }

  lemma InitialSerial(digest: Digest, db: Tables)
    requires Valid(db)
    ensures SerialInv(digest, db, Initial(db)) && SchemaInv(Initial(db))
  {
    hide NULFree;
    InitialKeys(db);
    EmptyRun(digest, db);
    NoSnapshots();
  }

  /** However snapshot transactions interleave with each other and with syncs, in the end a finding is open exactly if the
      last committed snapshot that names its package matched it, against the catalogue that snapshot had selected from. */
  lemma OpenAfterEveryInterleaving(digest: Digest, db: Tables, actions: seq<Action>, key: FindingKey)
    requires Valid(db) && IsRun(digest, Initial(db), actions)
    ensures var s := Final(digest, Initial(db), actions);
      IsOpen(s.db.findings, key) <==> Runs.LastVerdict(digest, db, s.history, key, IsOpen(db.findings, key))
  {
    hide Final, IsRun, IsOpen, SerialInv, SchemaInv, Valid;
    InitialSerial(digest, db);
    RunKeepsVerdict(digest, db, Initial(db), actions, key);
  }
}
