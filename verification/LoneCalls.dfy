/** Calls that nobody disturbs: they go through, and with them runs can be put together. */
module LoneCalls {
  import opened GoStrings
  import opened CveCatalogue
  import opened CtOps
  import opened SnapshotTables
  import opened SnapshotTheorems
  import opened SnapshotTransactions
  import opened SerialOrder
  import opened CommitVerdicts
  import opened CtOpsView
  import Runs = SnapshotRuns

  /** No other transaction has written anything. */
  ghost predicate Alone(s: State, t: TxID) {
    t in s.txs && forall u :: u in s.txs && u != t ==> s.txs[u].delta == NOTHING
  }

  function Rank(tx: Tx): nat {
    match tx.phase
    case UpsertingHosts(_) => 5
    case UpsertingPackages(_) => 4
    case Opening(_) => 3
    case Resolving(_, _) => 2
    case Inserted => 1
    case _ => 0
  }

  function Remaining(digest: Digest, tx: Tx): int {
    match tx.phase
    case UpsertingHosts(n) => |tx.snapshot.hosts| - n
    case UpsertingPackages(n) => |tx.snapshot.packages| - n
    case Opening(n) => |Found(digest, tx)| - n
    case Resolving(keys, n) => |keys| - n
    case _ => 0
  }

  function StepsLeft(digest: Digest, tx: Tx): nat {
    if Remaining(digest, tx) < 0 then 0 else Remaining(digest, tx)
  }

  lemma {:induction false} ListingExists(rows: set<FindingKey>) returns (keys: seq<FindingKey>)
    ensures Lists(keys, rows)
    decreases |rows|
  {
    if rows == {} {
      keys := [];
    } else {
      var key :| key in rows;
      var rest := ListingExists(rows - {key});
      keys := rest + [key];
    }
  }

  /** Its candidates come from the catalogue as it is. */
  predicate SeesCurrent(db: Tables, tx: Tx) {
    Reading(tx) ==> tx.seen == CatalogueOf(db)
  }

  /** The next action of a running transaction that is alone. */
  lemma AloneCanMove(digest: Digest, s: State, t: TxID) returns (a: Action)
    requires Alone(s, t) && Running(s.txs[t]) && !s.txs[t].phase.Ready? && OnTrack(digest, s.db, s.txs[t])
    requires Key(s.txs[t]) !in s.db.snapshots
    ensures Enabled(digest, s, a) && Moves(a) && a.tx == t
    ensures var tx := Moved(digest, s, a);
      && Running(tx) && tx.snapshot == s.txs[t].snapshot && tx.now == s.txs[t].now
      && (SeesCurrent(s.db, s.txs[t]) ==> SeesCurrent(s.db, tx))
      && (Rank(tx) < Rank(s.txs[t]) ||
          (Rank(tx) == Rank(s.txs[t]) && StepsLeft(digest, tx) < StepsLeft(digest, s.txs[t])))
  {
    hide HostsOK, PackagesOK, StatusOK, CatalogueOK, ReportOK, Found, KeyOfSnapshot, Row, StaleNow, Lists, FindingsDone, Stale;
    hide WriteHost, WritePackage, WriteOpen, WriteResolved, WriteStatus, ResolvedReports;
    var tx := s.txs[t];
    if tx.phase.Opening? && tx.phase.n == |Found(digest, tx)| {
      var keys := ListingExists(StaleNow(digest, s.db, tx));
      a := SelectStale(t, keys);
    } else {
      a := Execute(t);
      UnlockedAlone(s, t, Statement(digest, s.db, tx));
      if tx.phase.Opening? {
        SameFound(digest, tx, Statement(digest, s.db, tx));
      }
    }
  }

  lemma UnlockedAlone(s: State, t: TxID, tx: Tx)
    requires Alone(s, t)
    ensures Unlocked(s, t, tx)
  {
  }

  lemma MovedIsNext(digest: Digest, s: State, a: Action)
    requires Enabled(digest, s, a) && Moves(a)
    ensures Next(digest, s, a) == s.(txs := s.txs[a.tx := Moved(digest, s, a)])
  {
    hide Enabled, Moved;
  }

  /** A transaction that is alone and whose key is new can always go on until it is ready to commit. */
  lemma {:induction false} AloneGetsReady(digest: Digest, s: State, t: TxID) returns (actions: seq<Action>)
    requires Alone(s, t) && Running(s.txs[t]) && AllOnTrack(digest, s) && Key(s.txs[t]) !in s.db.snapshots
    ensures IsRun(digest, s, actions)
    ensures var s' := Final(digest, s, actions);
      && t in s'.txs && s' == s.(txs := s.txs[t := s'.txs[t]]) && s'.txs[t].phase.Ready?
      && s'.txs[t].snapshot == s.txs[t].snapshot && s'.txs[t].now == s.txs[t].now
      && (SeesCurrent(s.db, s.txs[t]) ==> SeesCurrent(s.db, s'.txs[t]))
    decreases Rank(s.txs[t]), StepsLeft(digest, s.txs[t])
  {
    hide Enabled, Moved, Moves, KeyOfSnapshot, OnTrack, ForeignKeys, StepsLeft, SeesCurrent, Running;
    if s.txs[t].phase.Ready? {
      actions := [];
    } else {
      var a := AloneCanMove(digest, s, t);
      var next := Next(digest, s, a);
      MovedIsNext(digest, s, a);
      MoveKeepsOnTrack(digest, s, a);
      var rest := AloneGetsReady(digest, next, t);
      actions := [a] + rest;
      assert actions[1..] == rest;
    }
  }

  // ----- Putting runs together -----

  lemma {:induction false} RunThenRun(digest: Digest, s: State, xs: seq<Action>, ys: seq<Action>)
    requires IsRun(digest, s, xs) && IsRun(digest, Final(digest, s, xs), ys)
    ensures IsRun(digest, s, xs + ys) && Final(digest, s, xs + ys) == Final(digest, Final(digest, s, xs), ys)
    decreases |xs|
  {
    hide Enabled, Next;
    if xs == [] {
      assert xs + ys == ys;
    } else {
      assert (xs + ys)[1..] == xs[1..] + ys;
      RunThenRun(digest, Next(digest, s, xs[0]), xs[1..], ys);
    }
  }

  lemma RunOfStep(digest: Digest, s: State, a: Action)
    requires Enabled(digest, s, a)
    ensures IsRun(digest, s, [a]) && Final(digest, s, [a]) == Next(digest, s, a)
  {
    hide Enabled, Next;
    assert [a][1..] == [];
  }

  /** Every transaction has ended or has not begun. */
  ghost predicate Idle(s: State) {
    forall t :: t in s.txs ==> s.txs[t].delta == NOTHING
  }

  /** A call alone, from its start to its commit. */
  lemma CallAlone(digest: Digest, start: Tables, s: State, t: TxID, snapshot: InventorySnapshot, now: Time)
      returns (actions: seq<Action>)
    requires SerialInv(digest, start, s) && SchemaInv(s) && Idle(s)
    requires t !in s.txs && Storable(snapshot) && KeyOfSnapshot(snapshot) !in s.db.snapshots
    ensures IsRun(digest, s, actions)
    ensures var s' := Final(digest, s, actions);
      && Idle(s') && InPhase(s', t, Committed) && s'.txs == s.txs[t := s'.txs[t]]
      && s'.posts == s.posts && s'.commits == s.commits + [t]
      && s'.txs[t].snapshot == snapshot && s'.txs[t].sent == 0 && s'.txs[t].reply.NoReply?
      && CatalogueOf(s'.db) == CatalogueOf(s.db) && s'.db.snapshots.Keys == s.db.snapshots.Keys + {KeyOfSnapshot(snapshot)}
    ensures forall key :: Decided(s.db, Final(digest, s, actions), t, key)
  {
    hide SerialInv, SchemaInv, KeyOfSnapshot, Storable, IsRun, Final, Next, Enabled;
    var begun := Begin(digest, start, s, t, snapshot, now);
    var s1 := Final(digest, s, begun);
    var working := AloneGetsReady(digest, s1, t);
    RunThenRun(digest, s, begun, working);
    var s2 := Final(digest, s1, working);
    RunKeepsSchema(digest, start, s, begun + working);
    CommitsAlone(digest, start, s, s2, t);
    RunOfStep(digest, s2, CommitTx(t));
    RunThenRun(digest, s, begun + working, [CommitTx(t)]);
    actions := begun + working + [CommitTx(t)];
  }

  /** What the commit of t has made of a finding, and what its report says about it. */
  ghost predicate Decided(db: Tables, s: State, t: TxID, key: FindingKey)
    requires t in s.txs
  {
    var tx := s.txs[t];
    var matched := Matched(db, tx.snapshot, key);
    && (IsOpen(s.db.findings, key) <==> if Touched(tx.snapshot, key) then matched else IsOpen(db.findings, key))
    && (ReportedIn(tx.report, tx.snapshot.orgID, key) <==> Touched(tx.snapshot, key) && (matched || IsOpen(db.findings, key)))
    && (forall f :: f in tx.report && KeyOf(tx.snapshot.orgID, f) == key ==> (f.status.Open? <==> matched))
  }

  lemma Begin(digest: Digest, start: Tables, s: State, t: TxID, snapshot: InventorySnapshot, now: Time) returns (actions: seq<Action>)
    requires SerialInv(digest, start, s) && Idle(s)
    requires t !in s.txs && Storable(snapshot) && KeyOfSnapshot(snapshot) !in s.db.snapshots
    ensures IsRun(digest, s, actions)
    ensures var s' := Final(digest, s, actions);
      && t in s'.txs && s' == s.(txs := s.txs[t := s'.txs[t]]) && s'.txs[t].phase == UpsertingHosts(0)
      && s'.txs[t].snapshot == snapshot && Alone(s', t) && AllOnTrack(digest, s')
  {
    hide SerialInv, KeyOfSnapshot, Storable, Enabled, Next, Idle, Alone, AllOnTrack, Final, IsRun;
    StartThenLookup(digest, s, t, snapshot, now);
    var s1 := Next(digest, s, Start(t, snapshot, now));
    RunOfStep(digest, s, Start(t, snapshot, now));
    RunOfStep(digest, s1, Lookup(t));
    RunThenRun(digest, s, [Start(t, snapshot, now)], [Lookup(t)]);
    actions := [Start(t, snapshot, now)] + [Lookup(t)];
    RunKeepsSerial(digest, start, s, actions);
    SerialIsOnTrack(digest, start, Final(digest, s, actions));
  }

  lemma StartThenLookup(digest: Digest, s: State, t: TxID, snapshot: InventorySnapshot, now: Time)
    requires Idle(s) && t !in s.txs && Storable(snapshot) && KeyOfSnapshot(snapshot) !in s.db.snapshots
    ensures Enabled(digest, s, Start(t, snapshot, now)) && Enabled(digest, Next(digest, s, Start(t, snapshot, now)), Lookup(t))
    ensures var s' := Next(digest, Next(digest, s, Start(t, snapshot, now)), Lookup(t));
      && t in s'.txs && s' == s.(txs := s.txs[t := s'.txs[t]]) && s'.txs[t].phase == UpsertingHosts(0)
      && s'.txs[t].snapshot == snapshot && Alone(s', t)
  {
    hide KeyOfSnapshot, Storable;
  }

  lemma CommitsAlone(digest: Digest, start: Tables, s: State, s2: State, t: TxID)
    requires SerialInv(digest, start, s2) && SchemaInv(s2) && Idle(s)
    requires t in s2.txs && s2 == s.(txs := s.txs[t := s2.txs[t]]) && s2.txs[t].phase.Ready? && SeesCurrent(s.db, s2.txs[t])
    ensures Enabled(digest, s2, CommitTx(t))
    ensures var s' := Next(digest, s2, CommitTx(t));
      && Idle(s') && InPhase(s', t, Committed) && s'.txs == s.txs[t := s'.txs[t]]
      && s'.posts == s.posts && s'.commits == s.commits + [t]
      && s'.txs[t].snapshot == s2.txs[t].snapshot && s'.txs[t].sent == 0 && s'.txs[t].reply.NoReply?
      && CatalogueOf(s'.db) == CatalogueOf(s.db) && s'.db.snapshots.Keys == s.db.snapshots.Keys + {Key(s2.txs[t])}
      && forall key :: Decided(s.db, s', t, key)
  {
    hide SerialInv, SchemaInv, CommitEvents, OnTrack, KeyOfSnapshot, Locks, HeldInv, Decided, Posted, Overlay, SeesCurrent, CommittedInv, CommitsInv;
    var (s', tx) := (Next(digest, s2, CommitTx(t)), s2.txs[t]);
    SerialIsOnTrack(digest, start, s2);
    assert SentOK(s2.posts, t, tx);
    CommitKeepsHeld(s2, s', t);
    assert CatalogueOf(s'.db) == CatalogueOf(s.db) by {
      OverlayKeepsCatalogue(s.db, tx.delta);
    }
    CommitDecidesAll(digest, s2, s', t);
  }

  lemma OverlayKeepsCatalogue(db: Tables, d: Delta)
    ensures CatalogueOf(Overlay(db, d)) == CatalogueOf(db)
  {
  }

  lemma CommitDecidesAll(digest: Digest, s: State, s': State, t: TxID)
    requires AllOnTrack(digest, s) && SchemaInv(s) && InPhase(s, t, Ready) && SeesCurrent(s.db, s.txs[t])
    requires s'.db == Overlay(s.db, s.txs[t].delta) && t in s'.txs
    requires s'.txs[t].snapshot == s.txs[t].snapshot && s'.txs[t].report == s.txs[t].report
    ensures forall key :: Decided(s.db, s', t, key)
  {
    hide OnTrack, ForeignKeys, Valid, SeenOK, IsOpen, Touched, Matched, ReportedIn, Overlay, KeyOf;
    var tx := s.txs[t];
    assert With(s.db, tx.seen) == s.db;
    forall key
      ensures Decided(s.db, s', t, key)
    {
      CommitDecides(digest, s.db, tx, key);
      ReportFacts(digest, s.db, tx, key);
    }
  }

  /** In particular a transaction that is alone and whose key is new can go on to its commit. */
  lemma AloneCanCommit(digest: Digest, s: State, t: TxID) returns (actions: seq<Action>)
    requires Alone(s, t) && Running(s.txs[t]) && AllOnTrack(digest, s) && Key(s.txs[t]) !in s.db.snapshots
    ensures IsRun(digest, s, actions) && CommittedWith(Final(digest, s, actions), t, Key(s.txs[t]))
  {
    hide AllOnTrack, KeyOfSnapshot, Final, IsRun, Overlay, CommitEvents;
    var working := AloneGetsReady(digest, s, t);
    var s' := Final(digest, s, working);
    RunOfStep(digest, s', CommitTx(t));
    RunThenRun(digest, s, working, [CommitTx(t)]);
    actions := working + [CommitTx(t)];
  }
}
