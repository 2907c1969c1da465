/** Two runs of concurrent calls in which something goes wrong that serial handling excludes. */
module ConcurrentExamples {
  import opened GoStrings
  import opened CveCatalogue
  import opened CtOps
  import opened SnapshotTables
  import opened SnapshotTheorems
  import opened SnapshotTransactions
  import opened SerialOrder
  import opened CommitVerdicts
  import opened CtOpsView
  import opened LoneCalls
  import opened DeliveryOrder
  import opened OneAdvisory

  /** The package under the advisory is reported, and the finding opened; nothing is delivered yet. */
  lemma FindingOpened(digest: Digest, now: Time) returns (actions: seq<Action>)
    ensures IsRun(digest, Initial(ONE_ADVISORY), actions)
    ensures var s := Final(digest, Initial(ONE_ADVISORY), actions);
      && SerialInv(digest, ONE_ADVISORY, s) && SchemaInv(s) && Idle(s)
      && s.txs.Keys == {0} && s.commits == [0] && s.posts == []
      && InPhase(s, 0, Committed) && s.txs[0].snapshot == SOME_SNAPSHOT && s.txs[0].sent == 0 && s.txs[0].reply.NoReply?
      && s.db.affected == [SOME_ROW] && s.db.snapshots.Keys == {KeyOfSnapshot(SOME_SNAPSHOT)}
      && IsOpen(s.db.findings, SOME_KEY)
      && Mentions(s.txs, 0, s.txs[0].report, SOME_KEY) && SaysOpen(s.txs, 0, SOME_KEY)
  {
    hide SerialInv, SchemaInv, IsRun, Final, Storable, Valid, Matched, Touched, KeyOf, IsOpen, KeyOfSnapshot;
    var s0 := Initial(ONE_ADVISORY);
    IDsAreStorable();
    assert ONE_ADVISORY == ONE_ADVISORY.(findings := map[]);
    InitialSerial(digest, ONE_ADVISORY);
    actions := CallAlone(digest, ONE_ADVISORY, s0, 0, SOME_SNAPSHOT, now);
    RunKeepsSchema(digest, ONE_ADVISORY, s0, actions);
    PackageIsAffected(ONE_ADVISORY);
    assert Decided(ONE_ADVISORY, Final(digest, s0, actions), 0, SOME_KEY);
  }

  /** Then the package is upgraded, and the finding resolved. */
  lemma FindingResolved(digest: Digest, s: State, now: Time) returns (actions: seq<Action>)
    requires SerialInv(digest, ONE_ADVISORY, s) && SchemaInv(s) && Idle(s)
    requires s.txs.Keys == {0} && s.db.affected == [SOME_ROW] && s.db.snapshots.Keys == {KeyOfSnapshot(SOME_SNAPSHOT)}
    requires IsOpen(s.db.findings, SOME_KEY)
    ensures IsRun(digest, s, actions)
    ensures var s' := Final(digest, s, actions);
      && s'.txs.Keys == {0, 1} && s'.txs[0] == s.txs[0] && s'.commits == s.commits + [1] && s'.posts == s.posts
      && InPhase(s', 1, Committed) && s'.txs[1].sent == 0 && s'.txs[1].reply.NoReply?
      && !IsOpen(s'.db.findings, SOME_KEY)
  {
    hide SerialInv, SchemaInv, IsRun, Final, Storable, Matched, Touched, KeyOf, IsOpen;
    IDsAreStorable();
    actions := CallAlone(digest, ONE_ADVISORY, s, 1, UPGRADED, now);
    UpgradeIsNotAffected(s.db, SOME_KEY);
    assert Decided(s.db, Final(digest, s, actions), 1, SOME_KEY);
  }

  /** Both reports are posted in full, but in the reverse order of their commits: CT Ops takes the resolved finding to be
      open. */
  lemma ReverseDeliveryMisleads(digest: Digest, now: Time, later: Time) returns (actions: seq<Action>)
    ensures IsRun(digest, Initial(ONE_ADVISORY), actions)
    ensures Valid(ONE_ADVISORY) && forall key :: InStep(ONE_ADVISORY, map[], key)
    ensures var s := Final(digest, Initial(ONE_ADVISORY), actions);
      && s.commits == [0, 1] && AllSent(s)
      && !IsOpen(s.db.findings, SOME_KEY) && ToldOpen(ViewAfter(map[], s.txs, s.posts), SOME_KEY)
  {
    hide IsRun, Final, Valid, SerialInv, SchemaInv, Mentions, SaysOpen, ViewAfter, IsOpen;
    IDsAreStorable();
    assert ONE_ADVISORY == ONE_ADVISORY.(findings := map[]);
    assert forall key :: InStep(ONE_ADVISORY, map[], key) by {
      NothingKnown();
    }
    var s0 := Initial(ONE_ADVISORY);
    var first := FindingOpened(digest, now);
    var s1 := Final(digest, s0, first);
    var second := FindingResolved(digest, s1, later);
    var s2 := Final(digest, s1, second);
    var posting, late, early := PostReversed(digest, s2);
    RunThenRun(digest, s0, first, second);
    RunThenRun(digest, s0, first + second, posting);
    actions := first + second + posting;
    var s := Final(digest, s0, actions);
    SameReportSays(s1.txs, s.txs, 0, SOME_KEY);
    LastPageWins(digest, actions, late, early);
  }

  lemma NothingKnown()
    ensures forall key :: InStep(ONE_ADVISORY, map[], key)
  {
  }

  lemma SameReportSays(txs: Txs, txs': Txs, t: TxID, key: FindingKey)
    requires t in txs && t in txs' && txs'[t].report == txs[t].report && txs'[t].snapshot == txs[t].snapshot
    ensures Mentions(txs', t, txs'[t].report, key) <==> Mentions(txs, t, txs[t].report, key)
    ensures SaysOpen(txs', t, key) <==> SaysOpen(txs, t, key)
  {
    hide KeyOf;
  }

  /** The second handler posts before the first. */
  lemma PostReversed(digest: Digest, s: State) returns (actions: seq<Action>, late: seq<Post>, early: seq<Post>)
    requires s.txs.Keys == {0, 1} && s.commits == [0, 1] && s.posts == []
    requires InPhase(s, 0, Committed) && s.txs[0].sent == 0 && s.txs[0].reply.NoReply?
    requires InPhase(s, 1, Committed) && s.txs[1].sent == 0 && s.txs[1].reply.NoReply?
    ensures IsRun(digest, s, actions)
    ensures var s' := Final(digest, s, actions);
      && s'.db == s.db && s'.commits == s.commits && AllSent(s') && s'.txs.Keys == s.txs.Keys
      && s'.txs[0].report == s.txs[0].report && s'.txs[0].snapshot == s.txs[0].snapshot
      && s'.txs[0].sent == |s.txs[0].report|
      && s'.posts == late + early && (forall p :: p in late ==> p.tx == 1) && (forall p :: p in early ==> p.tx == 0)
  {
    hide IsRun, Final;
    var third, fourth;
    third, late := DeliverAll(digest, s, 1);
    var s1 := Final(digest, s, third);
    fourth, early := DeliverAll(digest, s1, 0);
    RunThenRun(digest, s, third, fourth);
    actions := third + fourth;
  }

  lemma LastPageWins(digest: Digest, actions: seq<Action>, late: seq<Post>, early: seq<Post>)
    requires IsRun(digest, Initial(ONE_ADVISORY), actions)
    requires var s := Final(digest, Initial(ONE_ADVISORY), actions);
      && s.posts == late + early && (forall p :: p in late ==> p.tx == 1) && (forall p :: p in early ==> p.tx == 0)
      && 0 in s.txs && s.txs[0].sent == |s.txs[0].report|
      && Mentions(s.txs, 0, s.txs[0].report, SOME_KEY) && SaysOpen(s.txs, 0, SOME_KEY)
    ensures var s := Final(digest, Initial(ONE_ADVISORY), actions); ToldOpen(ViewAfter(map[], s.txs, s.posts), SOME_KEY)
  {
    hide IsRun, Final, Valid, Mentions, SaysOpen, KeysInv, IsOpen, ToldOpen, ViewAfter;
    var s := Final(digest, Initial(ONE_ADVISORY), actions);
    IDsAreStorable();
    assert ONE_ADVISORY == ONE_ADVISORY.(findings := map[]);
    WhatCtOpsKnows(digest, ONE_ADVISORY, map[], actions, SOME_KEY);
    InitialKeys(ONE_ADVISORY);
    RunKeepsKeys(digest, ONE_ADVISORY, Initial(ONE_ADVISORY), actions);
    var i := ReportWasPosted(ONE_ADVISORY, s, 0, SOME_KEY);
    SomePoster(s.txs, s.posts, SOME_KEY, i);
    var j := LastPosterIs(s.txs, s.posts, SOME_KEY);
    assert |late| <= i <= j;
    assert s.posts[j] in early;
  }

  /** A repeat that arrives while the first call is still delivering is told that there is nothing to do; then delivery
      fails, and the first call is told to retry, although its changed answer is stored. */
  lemma RepeatDuringDelivery(digest: Digest, now: Time, later: Time) returns (actions: seq<Action>)
    ensures IsRun(digest, Initial(ONE_ADVISORY), actions)
    ensures var s := Final(digest, Initial(ONE_ADVISORY), actions);
      && InPhase(s, 0, Committed) && s.txs[0].reply == Replied(false, true)
      && AnswerOf(s.txs[0], s.txs[0].reply.delivered).nextAction == "retry_findings"
      && 1 in s.txs && Key(s.txs[1]) == Key(s.txs[0])
      && s.txs[1].phase.Replayed? && s.txs[1].phase.response.nextAction == "none"
  {
    hide IsRun, Final, SerialInv, SchemaInv, IsOpen, SaysOpen, KeyOfSnapshot, StoredFor;
    var s0 := Initial(ONE_ADVISORY);
    var first := FindingOpened(digest, now);
    var s1 := Final(digest, s0, first);
    InitialAnswers(digest, first);
    assert StoredFor(s1.db, s1.txs[0]);
    var rest := RepeatThenFail(digest, s1, later);
    RunThenRun(digest, s0, first, rest);
    actions := first + rest;
  }

  lemma RepeatThenFail(digest: Digest, s: State, now: Time) returns (actions: seq<Action>)
    requires s.txs.Keys == {0} && InPhase(s, 0, Committed) && s.txs[0].snapshot == SOME_SNAPSHOT
    requires s.txs[0].reply.NoReply? && s.txs[0].report != [] && StoredFor(s.db, s.txs[0])
    ensures IsRun(digest, s, actions)
    ensures var s' := Final(digest, s, actions);
      && InPhase(s', 0, Committed) && s'.txs[0].reply == Replied(false, true)
      && AnswerOf(s'.txs[0], s'.txs[0].reply.delivered).nextAction == "retry_findings"
      && 1 in s'.txs && Key(s'.txs[1]) == Key(s'.txs[0])
      && s'.txs[1].phase.Replayed? && s'.txs[1].phase.response.nextAction == "none"
  {
    hide IsRun, Final, Storable, KeyOfSnapshot;
    IDsAreStorable();
    var s1 := Next(digest, s, Start(1, SOME_SNAPSHOT, now));
    var s2 := Next(digest, s1, Lookup(1));
    RunOfStep(digest, s, Start(1, SOME_SNAPSHOT, now));
    RunOfStep(digest, s1, Lookup(1));
    RunOfStep(digest, s2, Answer(0, false, true));
    RunThenRun(digest, s, [Start(1, SOME_SNAPSHOT, now)], [Lookup(1)]);
    RunThenRun(digest, s, [Start(1, SOME_SNAPSHOT, now)] + [Lookup(1)], [Answer(0, false, true)]);
    actions := [Start(1, SOME_SNAPSHOT, now)] + [Lookup(1)] + [Answer(0, false, true)];
  }

  lemma InitialAnswers(digest: Digest, actions: seq<Action>)
    requires IsRun(digest, Initial(ONE_ADVISORY), actions)
    ensures AnswersInv(Final(digest, Initial(ONE_ADVISORY), actions))
  {
    hide IsRun, Final, KeysInv;
    InitialKeys(ONE_ADVISORY);
    RunKeepsAnswers(digest, ONE_ADVISORY, Initial(ONE_ADVISORY), actions);
  }
}
