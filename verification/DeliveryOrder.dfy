/** What CT Ops knows when handlers run concurrently: commits and deliveries need not come in the same order. */
module DeliveryOrder {
  import opened GoStrings
  import opened CveCatalogue
  import opened CtOps
  import opened SnapshotTables
  import opened SnapshotTheorems
  import opened SnapshotTransactions
  import opened SerialOrder
  import opened CommitVerdicts
  import opened CtOpsView
  import opened FindingDelivery
  import opened LoneCalls
  import opened OneAdvisory

  type Txs = map<TxID, Tx>

  /** The view of CT Ops after the pages posted so far. */
  function ViewAfter(view: View, txs: Txs, posts: seq<Post>): View {
    if posts == [] then view
    else
      var last := posts[|posts| - 1];
      var before := ViewAfter(view, txs, posts[..|posts| - 1]);
      if last.tx in txs then Told(before, txs[last.tx].snapshot.orgID, last.findings) else before
  }

  ghost predicate Mentions(txs: Txs, t: TxID, findings: seq<Finding>, key: FindingKey) {
    t in txs && ReportedIn(findings, txs[t].snapshot.orgID, key)
  }

  /** The last of these transactions whose report names the finding. */
  ghost function LastCommitter(txs: Txs, commits: seq<TxID>, key: FindingKey): Option<TxID> {
    if commits == [] then None
    else
      var last := commits[|commits| - 1];
      if last in txs && Mentions(txs, last, txs[last].report, key) then Some(last)
      else LastCommitter(txs, commits[..|commits| - 1], key)
  }

  /** The transaction of the last of these pages that names the finding. */
  ghost function LastPoster(txs: Txs, posts: seq<Post>, key: FindingKey): Option<TxID> {
    if posts == [] then None
    else
      var last := posts[|posts| - 1];
      if Mentions(txs, last.tx, last.findings, key) then Some(last.tx) else LastPoster(txs, posts[..|posts| - 1], key)
  }

  /** The report says that the finding is open. */
  ghost predicate SaysOpen(txs: Txs, t: TxID, key: FindingKey) {
    t in txs && exists f :: f in txs[t].report && KeyOf(txs[t].snapshot.orgID, f) == key && f.status.Open?
  }

  /** What a transaction says, or how things were before. */
  ghost predicate Says(txs: Txs, t: Option<TxID>, key: FindingKey, before: bool) {
    if t.Some? then SaysOpen(txs, t.value, key) else before
  }

  // ----- Reports -----

  /** A report says one thing about each finding, and names only findings of packages the snapshot names. */
  ghost predicate GoodReport(tx: Tx) {
    && (forall f, g :: f in tx.report && g in tx.report && KeyOf(tx.snapshot.orgID, f) == KeyOf(tx.snapshot.orgID, g) ==>
         f.status == g.status)
    && (forall f :: f in tx.report ==> Touched(tx.snapshot, KeyOf(tx.snapshot.orgID, f)))
  }

  ghost predicate ReportsInv(s: State) {
    forall t :: InPhase(s, t, Committed) ==> GoodReport(s.txs[t])
  }

  lemma ReportIsGood(digest: Digest, db: Tables, tx: Tx)
    requires OnTrack(digest, db, tx) && tx.phase.Ready? && SeenOK(tx) && Valid(db)
    ensures GoodReport(tx)
  {
    hide OnTrack, SeenOK, Valid, Touched, Matched, IsOpen, KeyOf;
    var org := tx.snapshot.orgID;
    forall f | f in tx.report
      ensures Touched(tx.snapshot, KeyOf(org, f))
      ensures f.status.Open? <==> Matched(With(db, tx.seen), tx.snapshot, KeyOf(org, f))
    {
      ReportFacts(digest, db, tx, KeyOf(org, f));
    }
  }

  /** Committed transactions keep their reports. */
  ghost predicate KeepsReports(s: State, s': State) {
    forall t :: InPhase(s, t, Committed) ==>
      InPhase(s', t, Committed) && s'.txs[t].snapshot == s.txs[t].snapshot && s'.txs[t].report == s.txs[t].report
  }

  lemma StepKeepsReports(digest: Digest, start: Tables, s: State, a: Action)
    requires KeysInv(start, s) && Enabled(digest, s, a)
    ensures KeepsReports(s, Next(digest, s, a))
    ensures forall t :: InPhase(Next(digest, s, a), t, Committed) ==> InPhase(s, t, Committed) || a == CommitTx(t)
  {
    hide Moved, CommitEvents, Overlay, Statement, StaleNow, Lists, Key, Storable, Unlocked, Found, SetResponse, AnswerOf, Executing;
    hide Locks, HeldInv, CommittedInv, PostsInv, CommitsInv, HoldsKey;
    if Moves(a) {
      MoveFacts(digest, s, a);
    }
  }

  lemma StepKeepsGoodReports(digest: Digest, start: Tables, s: State, a: Action)
    requires ReportsInv(s) && SerialInv(digest, start, s) && SchemaInv(s) && Enabled(digest, s, a)
    ensures ReportsInv(Next(digest, s, a))
  {
    hide Next, OnTrack, SeenOK, Valid, KeysInv, ListsCommits, GoodReport, ForeignKeys;
    var s' := Next(digest, s, a);
    StepKeepsReports(digest, start, s, a);
    forall t | InPhase(s', t, Committed)
      ensures GoodReport(s'.txs[t])
    {
      if InPhase(s, t, Committed) {
        SameReportGood(s.txs[t], s'.txs[t]);
      } else {
        CommitKeepsReport(digest, s, t);
        ReportIsGood(digest, s.db, s.txs[t]);
        SameReportGood(s.txs[t], s'.txs[t]);
      }
    }
  }

  lemma CommitKeepsReport(digest: Digest, s: State, t: TxID)
    requires Enabled(digest, s, CommitTx(t))
    ensures var s' := Next(digest, s, CommitTx(t));
      && InPhase(s, t, Ready) && t in s'.txs && s'.txs[t].report == s.txs[t].report && s'.txs[t].snapshot == s.txs[t].snapshot
      && s'.commits == s.commits + [t] && s'.posts == s.posts && s'.db == Overlay(s.db, s.txs[t].delta)
  {
    hide Overlay, CommitEvents;
  }

  lemma SameReportGood(tx: Tx, tx': Tx)
    requires GoodReport(tx) && tx'.report == tx.report && tx'.snapshot == tx.snapshot
    ensures GoodReport(tx')
  {
    hide Touched, KeyOf;
  }

  // ----- The committed tables follow the last committed report -----

  lemma {:induction false} CommitterKept(s: State, s': State, commits: seq<TxID>, key: FindingKey)
    requires KeepsReports(s, s') && forall t :: t in commits ==> InPhase(s, t, Committed)
    ensures LastCommitter(s'.txs, commits, key) == LastCommitter(s.txs, commits, key)
    ensures var t := LastCommitter(s.txs, commits, key); t.Some? ==>
      t.value in commits && (SaysOpen(s'.txs, t.value, key) <==> SaysOpen(s.txs, t.value, key))
  {
    hide ReportedIn, KeyOf;
    if commits != [] {
      assert commits == commits[..|commits| - 1] + [commits[|commits| - 1]];
      CommitterKept(s, s', commits[..|commits| - 1], key);
    }
  }

  ghost predicate FollowsReports(start: Tables, s: State, key: FindingKey) {
    IsOpen(s.db.findings, key) <==> Says(s.txs, LastCommitter(s.txs, s.commits, key), key, IsOpen(start.findings, key))
  }

  /** What a commit does to the committed tables is what its report says. */
  lemma CommitSaysWhatItDoes(digest: Digest, db: Tables, tx: Tx, key: FindingKey)
    requires OnTrack(digest, db, tx) && tx.phase.Ready? && SeenOK(tx) && Valid(db)
    ensures IsOpen(Overlay(db, tx.delta).findings, key) <==>
      if ReportedIn(tx.report, tx.snapshot.orgID, key)
      then exists f :: f in tx.report && KeyOf(tx.snapshot.orgID, f) == key && f.status.Open?
      else IsOpen(db.findings, key)
  {
    hide OnTrack, SeenOK, Valid, Overlay, Touched, Matched, IsOpen, KeyOf;
    CommitDecides(digest, db, tx, key);
    ReportFacts(digest, db, tx, key);
  }

  lemma CommitFollowsReports(digest: Digest, start: Tables, s: State, t: TxID, key: FindingKey)
    requires FollowsReports(start, s, key) && SerialInv(digest, start, s) && SchemaInv(s) && Enabled(digest, s, CommitTx(t))
    ensures FollowsReports(start, Next(digest, s, CommitTx(t)), key)
  {
    hide Next, OnTrack, SeenOK, Valid, ListsCommits, ForeignKeys, IsOpen, ReportedIn, KeyOf, Overlay, Locks, HeldInv, CommittedInv, PostsInv, CommitsInv;
    var s' := Next(digest, s, CommitTx(t));
    CommitKeepsReport(digest, s, t);
    StepKeepsReports(digest, start, s, CommitTx(t));
    assert forall u :: u in s.commits ==> InPhase(s, u, Committed) by {
      CommittedIsListed(start, s);
    }
    CommitterKept(s, s', s.commits, key);
    CommitSaysWhatItDoes(digest, s.db, s.txs[t], key);
    assert s'.commits[..|s'.commits| - 1] == s.commits;
  }

  lemma CommittedIsListed(start: Tables, s: State)
    requires KeysInv(start, s)
    ensures forall u :: u in s.commits <==> InPhase(s, u, Committed)
    ensures CommitsInv(s) && PostsInv(s)
  {
  }

  lemma StepFollowsReports(digest: Digest, start: Tables, s: State, a: Action, key: FindingKey)
    requires FollowsReports(start, s, key) && SerialInv(digest, start, s) && SchemaInv(s) && Enabled(digest, s, a)
    ensures FollowsReports(start, Next(digest, s, a), key)
  {
    hide AllOnTrack, SchemaInv, ListsCommits, IsOpen, ReportedIn, KeyOf, KeysInv, KeepsReports, Enabled, Says, LastCommitter, SaysOpen;
    if a.CommitTx? {
      CommitFollowsReports(digest, start, s, a.tx, key);
    } else {
      StepKeepsReports(digest, start, s, a);
      CommittedIsListed(start, s);
      OthersKeepFindings(digest, s, a);
      CommitterKept(s, Next(digest, s, a), s.commits, key);
      SaysKept(s, Next(digest, s, a), LastCommitter(s.txs, s.commits, key), key, IsOpen(start.findings, key));
    }
  }

  lemma SaysKept(s: State, s': State, t: Option<TxID>, key: FindingKey, before: bool)
    requires t.Some? ==> (SaysOpen(s'.txs, t.value, key) <==> SaysOpen(s.txs, t.value, key))
    ensures Says(s'.txs, t, key, before) <==> Says(s.txs, t, key, before)
  {
  }

  lemma OthersKeepFindings(digest: Digest, s: State, a: Action)
    requires Enabled(digest, s, a) && !a.CommitTx?
    ensures Next(digest, s, a).db.findings == s.db.findings && Next(digest, s, a).commits == s.commits
  {
    hide Moved, Enabled, AnswerOf, Key;
  }

  ghost predicate DeliveryInv(digest: Digest, start: Tables, s: State) {
    SerialInv(digest, start, s) && SchemaInv(s) && ReportsInv(s) && forall key :: FollowsReports(start, s, key)
  }

  lemma StepKeepsDelivery(digest: Digest, start: Tables, s: State, a: Action)
    requires DeliveryInv(digest, start, s) && Enabled(digest, s, a)
    ensures DeliveryInv(digest, start, Next(digest, s, a))
  {
    hide SerialInv, SchemaInv, ReportsInv, FollowsReports, Next, Enabled;
    SerialIsOnTrack(digest, start, s);
    StepKeepsSerial(digest, start, s, a);
    StepKeepsSchema(digest, s, a);
    StepKeepsGoodReports(digest, start, s, a);
    forall key
      ensures FollowsReports(start, Next(digest, s, a), key)
    {
      StepFollowsReports(digest, start, s, a, key);
    }
  }

  lemma {:induction false} RunKeepsDelivery(digest: Digest, start: Tables, s: State, actions: seq<Action>)
    requires DeliveryInv(digest, start, s) && IsRun(digest, s, actions)
    ensures DeliveryInv(digest, start, Final(digest, s, actions))
    decreases |actions|
  {
    hide DeliveryInv, Next, Enabled;
    if actions != [] {
      StepKeepsDelivery(digest, start, s, actions[0]);
      RunKeepsDelivery(digest, start, Next(digest, s, actions[0]), actions[1..]);
    }
  }

  lemma InitialDelivery(digest: Digest, db: Tables)
    requires Valid(db)
    ensures DeliveryInv(digest, db, Initial(db))
  {
    hide SerialInv, SchemaInv, Valid;
    InitialSerial(digest, db);
  }

  // ----- The view follows the last delivered report -----

  /** Posted pages are parts of reports. */
  lemma {:induction false} PagesArePosted(posts: seq<Post>, p: Post, f: Finding)
    requires p in posts && f in p.findings
    ensures f in Posted(posts, p.tx)
  {
    var init, last := posts[..|posts| - 1], posts[|posts| - 1];
    assert posts == init + [last];
    if p in init {
      PagesArePosted(init, p, f);
    }
  }

  lemma {:induction false} PostedFrom(posts: seq<Post>, t: TxID, f: Finding) returns (i: nat)
    requires f in Posted(posts, t)
    ensures i < |posts| && posts[i].tx == t && f in posts[i].findings
  {
    var init, last := posts[..|posts| - 1], posts[|posts| - 1];
    if f in Posted(init, t) {
      i := PostedFrom(init, t, f);
    } else {
      i := |posts| - 1;
    }
  }

  /** Every page is of a committed transaction, and what it says its report says. */
  ghost predicate PagesFromReports(s: State) {
    forall p, f :: p in s.posts && f in p.findings ==> p.tx in s.commits && p.tx in s.txs && f in s.txs[p.tx].report
  }

  lemma PagesAreFromReports(start: Tables, s: State)
    requires KeysInv(start, s)
    ensures PagesFromReports(s)
  {
    hide Posted, Locks, HeldInv, CommittedInv;
    forall p, f | p in s.posts && f in p.findings
      ensures p.tx in s.commits && p.tx in s.txs && f in s.txs[p.tx].report
    {
      PagesArePosted(s.posts, p, f);
      assert SentOK(s.posts, p.tx, s.txs[p.tx]);
    }
  }

  lemma {:induction false} ViewSays(s: State, view: View, posts: seq<Post>, key: FindingKey)
    requires ReportsInv(s) && PagesFromReports(s) && (forall p :: p in posts ==> p in s.posts)
    requires forall t :: t in s.commits ==> InPhase(s, t, Committed)
    ensures ToldOpen(ViewAfter(view, s.txs, posts), key) <==>
      Says(s.txs, LastPoster(s.txs, posts, key), key, ToldOpen(view, key))
  {
    hide KeyOf, Told, GoodReport, LastFor;
    if posts != [] {
      var init, last := posts[..|posts| - 1], posts[|posts| - 1];
      assert posts == init + [last];
      ViewSays(s, view, init, key);
      if last.tx in s.txs {
        var org := s.txs[last.tx].snapshot.orgID;
        ToldAt(ViewAfter(view, s.txs, init), org, last.findings, key);
        LastForIsInList(org, last.findings, key);
        if Mentions(s.txs, last.tx, last.findings, key) {
          PageSaysWhatReportSays(s, last, LastFor(org, last.findings, key).value);
        }
      }
    }
  }

  lemma PageSaysWhatReportSays(s: State, p: Post, f: Finding)
    requires ReportsInv(s) && PagesFromReports(s) && p in s.posts && f in p.findings
    requires forall t :: t in s.commits ==> InPhase(s, t, Committed)
    ensures p.tx in s.txs
    ensures f.status.Open? <==> SaysOpen(s.txs, p.tx, KeyOf(s.txs[p.tx].snapshot.orgID, f))
  {
    hide KeyOf, Touched;
    assert GoodReport(s.txs[p.tx]);
  }

  // ----- Main results -----

  ghost predicate InStep(db: Tables, view: View, key: FindingKey) {
    ToldOpen(view, key) <==> IsOpen(db.findings, key)
  }

  /** However calls, deliveries and syncs interleave: a finding is open exactly if the last committed report that names it
      says so, and CT Ops takes it to be open exactly if the last report of which it was sent a page that names it says so.
      So CT Ops is right about a finding if and only if these two say the same. */
  lemma WhatCtOpsKnows(digest: Digest, db: Tables, view: View, actions: seq<Action>, key: FindingKey)
    requires Valid(db) && IsRun(digest, Initial(db), actions)
    ensures var s := Final(digest, Initial(db), actions);
      var view' := ViewAfter(view, s.txs, s.posts);
      && (IsOpen(s.db.findings, key) <==>
           Says(s.txs, LastCommitter(s.txs, s.commits, key), key, IsOpen(db.findings, key)))
      && (ToldOpen(view', key) <==>
           Says(s.txs, LastPoster(s.txs, s.posts, key), key, ToldOpen(view, key)))
      && (InStep(s.db, view', key) <==>
           (Says(s.txs, LastCommitter(s.txs, s.commits, key), key, IsOpen(db.findings, key)) <==>
            Says(s.txs, LastPoster(s.txs, s.posts, key), key, ToldOpen(view, key))))
  {
    hide Final, IsRun, Valid, SerialInv, SchemaInv, ReportsInv, Says, LastCommitter, LastPoster, IsOpen, ToldOpen, ViewAfter;
    var s := Final(digest, Initial(db), actions);
    InitialDelivery(digest, db);
    RunKeepsDelivery(digest, db, Initial(db), actions);
    SerialIsOnTrack(digest, db, s);
    CommittedIsListed(db, s);
    PagesAreFromReports(db, s);
    ViewSays(s, view, s.posts, key);
    assert FollowsReports(db, s, key);
  }

  /** CT Ops has acknowledged every report. */
  ghost predicate AllSent(s: State) {
    forall t :: t in s.commits ==> t in s.txs && s.txs[t].sent == |s.txs[t].report|
  }

  /** The snapshots name a common package of one organisation. */
  predicate ShareAPackage(a: InventorySnapshot, b: InventorySnapshot) {
    a.orgID == b.orgID && PackageIDs(a.packages) * PackageIDs(b.packages) != {}
  }

  /** Where snapshots name a common package, their pages are posted in the order of their commits. */
  ghost predicate PostedInCommitOrder(s: State) {
    forall i, j, a, b | 0 <= i < j < |s.posts| && 0 <= a < |s.commits| && 0 <= b < |s.commits| ::
      && s.commits[a] == s.posts[i].tx && s.commits[a] in s.txs
      && s.commits[b] == s.posts[j].tx && s.commits[b] in s.txs
      && ShareAPackage(s.txs[s.commits[a]].snapshot, s.txs[s.commits[b]].snapshot)
      ==> a <= b
  }

  lemma {:induction false} LastCommitterIs(txs: Txs, commits: seq<TxID>, key: FindingKey) returns (a: nat)
    requires LastCommitter(txs, commits, key).Some?
    ensures a < |commits| && commits[a] in txs && LastCommitter(txs, commits, key) == Some(commits[a])
    ensures Mentions(txs, commits[a], txs[commits[a]].report, key)
  {
    hide Mentions;
    var last := commits[|commits| - 1];
    if last in txs && Mentions(txs, last, txs[last].report, key) {
      a := |commits| - 1;
    } else {
      a := LastCommitterIs(txs, commits[..|commits| - 1], key);
    }
  }

  lemma {:induction false} NoneCommittedAfter(txs: Txs, commits: seq<TxID>, key: FindingKey, b: nat)
    requires b < |commits| && commits[b] in txs && Mentions(txs, commits[b], txs[commits[b]].report, key)
    ensures exists a :: b <= a < |commits| && LastCommitter(txs, commits, key) == Some(commits[a])
  {
    hide Mentions;
    var last := commits[|commits| - 1];
    if !(last in txs && Mentions(txs, last, txs[last].report, key)) {
      NoneCommittedAfter(txs, commits[..|commits| - 1], key, b);
      var a :| b <= a < |commits| - 1 && LastCommitter(txs, commits[..|commits| - 1], key) == Some(commits[..|commits| - 1][a]);
      assert commits[a] == commits[..|commits| - 1][a];
    } else {
      assert LastCommitter(txs, commits, key) == Some(commits[|commits| - 1]);
    }
  }

  lemma {:induction false} LastPosterIs(txs: Txs, posts: seq<Post>, key: FindingKey) returns (j: nat)
    requires LastPoster(txs, posts, key).Some?
    ensures j < |posts| && LastPoster(txs, posts, key) == Some(posts[j].tx) && Mentions(txs, posts[j].tx, posts[j].findings, key)
    ensures forall i :: j < i < |posts| ==> !Mentions(txs, posts[i].tx, posts[i].findings, key)
  {
    hide Mentions;
    var last := posts[|posts| - 1];
    if Mentions(txs, last.tx, last.findings, key) {
      j := |posts| - 1;
    } else {
      j := LastPosterIs(txs, posts[..|posts| - 1], key);
      assert forall i :: 0 <= i < |posts| - 1 ==> posts[..|posts| - 1][i] == posts[i];
    }
  }

  lemma {:induction false} SomePoster(txs: Txs, posts: seq<Post>, key: FindingKey, i: nat)
    requires i < |posts| && Mentions(txs, posts[i].tx, posts[i].findings, key)
    ensures LastPoster(txs, posts, key).Some?
  {
    hide Mentions;
    if i < |posts| - 1 {
      SomePoster(txs, posts[..|posts| - 1], key, i);
    }
  }

  /** If a report that names a finding has been sent, so has a page of it that names the finding. */
  lemma ReportWasPosted(start: Tables, s: State, t: TxID, key: FindingKey) returns (i: nat)
    requires KeysInv(start, s) && t in s.txs && s.txs[t].sent == |s.txs[t].report|
    requires Mentions(s.txs, t, s.txs[t].report, key)
    ensures i < |s.posts| && s.posts[i].tx == t && Mentions(s.txs, t, s.posts[i].findings, key)
  {
    hide Posted, Locks, HeldInv, CommittedInv, CommitsInv, KeyOf;
    assert SentOK(s.posts, t, s.txs[t]);
    var f :| f in s.txs[t].report && KeyOf(s.txs[t].snapshot.orgID, f) == key;
    assert s.txs[t].report[..|s.txs[t].report|] == s.txs[t].report;
    i := PostedFrom(s.posts, t, f);
  }

  lemma NamingIsTouching(s: State, t: TxID, findings: seq<Finding>, key: FindingKey)
    requires t in s.txs && GoodReport(s.txs[t]) && (forall f :: f in findings ==> f in s.txs[t].report)
    requires Mentions(s.txs, t, findings, key)
    ensures Touched(s.txs[t].snapshot, key)
  {
    hide Touched, KeyOf;
  }

  lemma PageNames(s: State, p: Post, key: FindingKey)
    requires ReportsInv(s) && PagesFromReports(s) && p in s.posts && Mentions(s.txs, p.tx, p.findings, key)
    requires forall t :: t in s.commits ==> InPhase(s, t, Committed)
    ensures p.tx in s.commits && Mentions(s.txs, p.tx, s.txs[p.tx].report, key) && Touched(s.txs[p.tx].snapshot, key)
  {
    hide Touched, KeyOf;
    assert p.tx in s.commits;
    assert GoodReport(s.txs[p.tx]);
    NamingIsTouching(s, p.tx, p.findings, key);
  }

  lemma TouchingShares(a: InventorySnapshot, b: InventorySnapshot, key: FindingKey)
    requires Touched(a, key) && Touched(b, key)
    ensures ShareAPackage(a, b)
  {
    hide PackageIDs;
    assert key.packageID in PackageIDs(a.packages) * PackageIDs(b.packages);
  }

  lemma PosterIsCommitter(start: Tables, s: State, key: FindingKey)
    requires KeysInv(start, s) && ReportsInv(s) && AllSent(s) && PostedInCommitOrder(s)
    ensures LastPoster(s.txs, s.posts, key) == LastCommitter(s.txs, s.commits, key)
  {
    hide KeysInv, LastPoster, LastCommitter, Mentions, GoodReport, Touched, PagesFromReports, ShareAPackage, PostsInv;
    CommittedIsListed(start, s);
    PagesAreFromReports(start, s);
    if LastPoster(s.txs, s.posts, key).Some? {
      var j := LastPosterIs(s.txs, s.posts, key);
      var u := s.posts[j].tx;
      PageNames(s, s.posts[j], key);
      var b :| 0 <= b < |s.commits| && s.commits[b] == u;
      NoneCommittedAfter(s.txs, s.commits, key, b);
      var a :| b <= a < |s.commits| && LastCommitter(s.txs, s.commits, key) == Some(s.commits[a]);
      var t := s.commits[a];
      var a' := LastCommitterIs(s.txs, s.commits, key);
      var i := ReportWasPosted(start, s, t, key);
      PageNames(s, s.posts[i], key);
      TouchingShares(s.txs[t].snapshot, s.txs[u].snapshot, key);
      assert i <= j;
      if i < j {
        assert a <= b;
      }
    } else if LastCommitter(s.txs, s.commits, key).Some? {
      var a := LastCommitterIs(s.txs, s.commits, key);
      var i := ReportWasPosted(start, s, s.commits[a], key);
      SomePoster(s.txs, s.posts, key, i);
    }
  }

  /** When every report is sent, and reports that share a package are sent in the order of their commits, CT Ops knows
      exactly the open findings. */
  lemma CommitOrderKeepsInStep(digest: Digest, db: Tables, view: View, actions: seq<Action>)
    requires Valid(db) && IsRun(digest, Initial(db), actions)
    requires forall key :: InStep(db, view, key)
    requires var s := Final(digest, Initial(db), actions); AllSent(s) && PostedInCommitOrder(s)
    ensures var s := Final(digest, Initial(db), actions);
      forall key :: InStep(s.db, ViewAfter(view, s.txs, s.posts), key)
  {
    hide Final, IsRun, Valid, SerialInv, SchemaInv, ReportsInv, AllSent, PostedInCommitOrder, Says, ViewAfter, LastPoster, LastCommitter;
    hide FollowsReports, KeysInv, IsOpen, ToldOpen;
    var s := Final(digest, Initial(db), actions);
    InitialDelivery(digest, db);
    RunKeepsDelivery(digest, db, Initial(db), actions);
    SerialIsOnTrack(digest, db, s);
    forall key
      ensures InStep(s.db, ViewAfter(view, s.txs, s.posts), key)
    {
      assert InStep(db, view, key);
      PosterIsCommitter(db, s, key);
      WhatCtOpsKnows(digest, db, view, actions, key);
      SaysSame(s.txs, LastPoster(s.txs, s.posts, key), key, ToldOpen(view, key), IsOpen(db.findings, key));
    }
  }

  lemma SaysSame(txs: Txs, t: Option<TxID>, key: FindingKey, before: bool, before': bool)
    requires before == before'
    ensures Says(txs, t, key, before) == Says(txs, t, key, before')
  {
  }

  // ----- Posting what is left -----

  /** The pages of the machine are the batches of `DeliverFindings`. */
  lemma NextPageIsBatch(world: World, orgID: string, tx: Tx, page: nat)
    requires tx.sent == page * MAX_FINDINGS_PER_BATCH && tx.sent < |tx.report|
    ensures tx.report[tx.sent..PageEnd(tx)] == BatchAt(world, orgID, tx.report, page).findings
    ensures PageEnd(tx) == (page + 1) * MAX_FINDINGS_PER_BATCH || PageEnd(tx) == |tx.report|
  {
    hide BatchID;
  }

  /** The handler of t posts what is left of its report. */
  lemma {:induction false} DeliverAll(digest: Digest, s: State, t: TxID) returns (actions: seq<Action>, pages: seq<Post>)
    requires InPhase(s, t, Committed) && s.txs[t].reply.NoReply? && s.txs[t].sent <= |s.txs[t].report|
    ensures IsRun(digest, s, actions)
    ensures Final(digest, s, actions) == s.(txs := s.txs[t := s.txs[t].(sent := |s.txs[t].report|)], posts := s.posts + pages)
    ensures forall p :: p in pages ==> p.tx == t
    decreases |s.txs[t].report| - s.txs[t].sent
  {
    if s.txs[t].sent == |s.txs[t].report| {
      actions, pages := [], [];
    } else {
      DeliverOne(digest, s, t);
      var s1 := Next(digest, s, Deliver(t));
      var rest, more := DeliverAll(digest, s1, t);
      RunOfStep(digest, s, Deliver(t));
      RunThenRun(digest, s, [Deliver(t)], rest);
      actions := [Deliver(t)] + rest;
      pages := [s1.posts[|s.posts|]] + more;
    }
  }

  lemma DeliverOne(digest: Digest, s: State, t: TxID)
    requires InPhase(s, t, Committed) && s.txs[t].reply.NoReply? && s.txs[t].sent < |s.txs[t].report|
    ensures Enabled(digest, s, Deliver(t))
    ensures var s' := Next(digest, s, Deliver(t));
      exists page: Post, sent: nat ::
        && s.txs[t].sent < sent <= |s.txs[t].report| && page.tx == t
        && s' == s.(txs := s.txs[t := s.txs[t].(sent := sent)], posts := s.posts + [page])
  {
    var tx := s.txs[t];
    var page := Post(t, tx.report[tx.sent..PageEnd(tx)]);
    assert Next(digest, s, Deliver(t)) == s.(txs := s.txs[t := tx.(sent := PageEnd(tx))], posts := s.posts + [page]);
  }
}
