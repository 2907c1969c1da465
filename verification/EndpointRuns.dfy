/** Serial runs of endpoint calls: what a repeated snapshot is answered, and what CT Ops has been told. */
module EndpointRuns {
  import opened GoStrings
  import opened CveCatalogue
  import opened CtOps
  import opened SnapshotTables
  import opened SnapshotTheorems
  import opened FindingDelivery
  import opened CtOpsView
  import opened InventoryEndpoint
  import opened OneAdvisory
  import Store = SnapshotStore
  import Vuln = Matcher

  /** A call answered with success, a call answered with an error, or a catalogue sync.  For a first-time snapshot
      `findings` are handed over for delivery and `posted` is the part that CT Ops acknowledged. */
  datatype Event =
    | Served(snapshot: InventorySnapshot, now: Time, findings: seq<Finding>, posted: seq<Finding>, delivered: bool, updated: bool)
    | Refused
    | Synced(cves: Table, affected: seq<Vuln.AffectedPackage>)

  datatype State = State(db: Tables, view: View)

  ghost function Next(digest: Digest, s: State, e: Event): State {
    match e
    case Served(snapshot, now, _, posted, delivered, updated) =>
      State(Serve(digest, s.db, snapshot, now, delivered, updated).0, Told(s.view, snapshot.orgID, posted))
    case Refused => s
    case Synced(cves, affected) => s.(db := s.db.(cves := cves, affected := affected))
  }

  ghost function Run(digest: Digest, s: State, events: seq<Event>): State
    decreases |events|
  {
    if events == [] then s else Run(digest, Next(digest, s, events[0]), events[1..])
  }

  predicate FirstTime(db: Tables, e: Event) {
    e.Served? && KeyOfSnapshot(e.snapshot) !in db.snapshots
  }

  /** What can happen: ids are storable, a prefix of the findings is posted and all of them if delivery succeeds, a replay
      posts nothing. */
  ghost predicate Possible(digest: Digest, db: Tables, e: Event) {
    match e
    case Served(snapshot, now, findings, posted, delivered, _) =>
      && Storable(snapshot)
      && (if KeyOfSnapshot(snapshot) in db.snapshots then findings == posted == []
          else Store.Reports(findings, digest, db, snapshot, now) && posted <= findings && (delivered ==> posted == findings))
    case Refused => true
    case Synced(cves, affected) => Respects(db, cves, affected)
  }

  ghost predicate PossibleRun(digest: Digest, s: State, events: seq<Event>)
    decreases |events|
  {
    events == [] || (Possible(digest, s.db, events[0]) && PossibleRun(digest, Next(digest, s, events[0]), events[1..]))
  }

  /** Every successful first-time call is an event of this kind. */
  lemma SuccessIsPossible(digest: Digest, db: Tables, snapshot: InventorySnapshot, now: Time, attempt: Attempt, world: World,
                          callback: Callback, updated: bool)
    requires Storable(snapshot) && KeyOfSnapshot(snapshot) !in db.snapshots
    requires Store.Reports(attempt.findings, digest, db, snapshot, now) && Attempted(attempt, world, callback)
    ensures var posted := Concat(Batches(world, snapshot.orgID, attempt.findings, attempt.pages));
      Possible(digest, db, Served(snapshot, now, attempt.findings, posted, attempt.complete, updated))
  {
    hide Store.Reports, Pages, Concat, Batches;
    PostedIsPrefix(world, snapshot.orgID, attempt.findings, attempt.pages);
  }

  // ----- The answer to a repeated snapshot -----

  lemma StepKeepsResponse(digest: Digest, s: State, e: Event, key: SnapshotKey)
    requires key in s.db.snapshots
    ensures Get(Next(digest, s, e).db.snapshots, key) == Get(s.db.snapshots, key)
  {
    hide HasFindings, FindingsOpened, SnapshotStale, ResolveAll, UpsertHosts, UpsertPackages, TouchInventoryStatus, Told;
  }

  /** A stored response survives whatever happens afterwards. */
  lemma {:induction false} RunKeepsResponse(digest: Digest, s: State, events: seq<Event>, key: SnapshotKey)
    requires key in s.db.snapshots
    ensures Get(Run(digest, s, events).db.snapshots, key) == Get(s.db.snapshots, key)
    decreases |events|
  {
    hide Next;
    if events != [] {
      StepKeepsResponse(digest, s, events[0], key);
      RunKeepsResponse(digest, Next(digest, s, events[0]), events[1..], key);
    }
  }

  /** What the first call answers, and what it leaves behind. */
  lemma FirstCall(digest: Digest, db: Tables, snapshot: InventorySnapshot, now: Time, delivered: bool, updated: bool)
    requires KeyOfSnapshot(snapshot) !in db.snapshots
    ensures var (after, answer) := Serve(digest, db, snapshot, now, delivered, updated);
      var stored := Get(after.snapshots, KeyOfSnapshot(snapshot));
      && stored.Some? && stored.value.response.nextAction != ""
      && (stored.value.response == answer <==> !HasFindings(digest, db, snapshot, now) || delivered || updated)
  {
    hide HasFindings, FindingsOpened, SnapshotStale, ResolveAll, UpsertHosts, UpsertPackages, TouchInventoryStatus;
  }

  /** However long after the first call a snapshot id is sent again, and whatever was served, refused or synced in between:
      the repeat changes no table, and it gets the first answer if and only if there was nothing to deliver, or delivery
      succeeded, or the changed answer could be stored. */
  lemma RepeatGivesFirstAnswer(digest: Digest, s: State, first: Event, between: seq<Event>, again: Event)
    requires FirstTime(s.db, first) && again.Served? && KeyOfSnapshot(again.snapshot) == KeyOfSnapshot(first.snapshot)
    ensures var answer := Serve(digest, s.db, first.snapshot, first.now, first.delivered, first.updated).1;
      var later := Run(digest, Next(digest, s, first), between);
      var (db', answer') := Serve(digest, later.db, again.snapshot, again.now, again.delivered, again.updated);
      && db' == later.db
      && (answer' == answer <==> !HasFindings(digest, s.db, first.snapshot, first.now) || first.delivered || first.updated)
  {
    hide HasFindings, Applied, KeyOfSnapshot, Told, SetResponse, Run;
    FirstCall(digest, s.db, first.snapshot, first.now, first.delivered, first.updated);
    RunKeepsResponse(digest, Next(digest, s, first), between, KeyOfSnapshot(first.snapshot));
  }

  // ----- Two different answers -----

  lemma SomeSnapshotIsServed()
    ensures ValidSnapshot(SOME_SNAPSHOT) && Storable(SOME_SNAPSHOT)
  {
    hide TrimSpace;
    forall s | s in ["p", "h", "x", "1", "dpkg", "o", "s"]
      ensures !Blank(s)
    {
      TrimSpaceOfTrimmed(s);
    }
  }

  lemma SomethingIsDue(digest: Digest, now: Time)
    ensures HasFindings(digest, ONE_ADVISORY, SOME_SNAPSHOT, now)
  {
    hide SnapshotMatches, SnapshotStale, Matched, Storable;
    PackageIsAffected(ONE_ADVISORY);
    assert ONE_ADVISORY == ONE_ADVISORY.(findings := map[]);
    IDsAreStorable();
    MatchedIffFound(digest, ONE_ADVISORY, SOME_SNAPSHOT, now, SOME_KEY);
  }

  /** One advisory and one package under it: when delivery fails and the changed answer is lost, the first answer asks for
      a retry and every repeat says that there is nothing to do. */
  lemma RepeatCanDiffer(digest: Digest, view: View, now: Time, findings: seq<Finding>, between: seq<Event>, later: Time)
    ensures ValidSnapshot(SOME_SNAPSHOT) && Storable(SOME_SNAPSHOT)
    ensures var first := Served(SOME_SNAPSHOT, now, findings, [], false, false);
      var s := Run(digest, Next(digest, State(ONE_ADVISORY, view), first), between);
      && Serve(digest, ONE_ADVISORY, SOME_SNAPSHOT, now, false, false).1.nextAction == "retry_findings"
      && Serve(digest, s.db, SOME_SNAPSHOT, later, false, false).1.nextAction == "none"
  {
    hide HasFindings, Run, Told, FindingsOpened, SnapshotStale, ResolveAll, UpsertHosts, UpsertPackages, ValidSnapshot, Storable;
    SomeSnapshotIsServed();
    var first := Served(SOME_SNAPSHOT, now, findings, [], false, false);
    SomethingIsDue(digest, now);
    RunKeepsResponse(digest, Next(digest, State(ONE_ADVISORY, view), first), between, KeyOfSnapshot(SOME_SNAPSHOT));
  }

  // ----- What CT Ops has been told -----

  /** CT Ops takes the finding to be open exactly if it is. */
  predicate InStep(s: State, key: FindingKey) {
    ToldOpen(s.view, key) <==> IsOpen(s.db.findings, key)
  }

  lemma ReportedStatus(findings: seq<Finding>, digest: Digest, db: Tables, snapshot: InventorySnapshot, now: Time, f: Finding)
    requires Valid(db) && Storable(snapshot) && Store.Reports(findings, digest, db, snapshot, now) && f in findings
    ensures var key := KeyOf(snapshot.orgID, f);
      && Touched(snapshot, key) && (f.status == Open <==> Matched(db, snapshot, key))
      && (f.status == Resolved ==> IsOpen(db.findings, key))
  {
    hide SnapshotMatches, SnapshotStale, FindingsOpened, Matched, PackageIDs;
    var (matches, stale) := (SnapshotMatches(digest, db, snapshot, now), SnapshotStale(digest, db, snapshot, now));
    MatchesAreFresh(digest, db, snapshot, now);
    assert findings == matches + findings[|matches|..];
    if f !in matches {
      var resolved, opened' := findings[|matches|..], FindingsOpened(digest, db, snapshot, now);
      var keys :| Store.ListsResolvedBy(keys, resolved, opened', db.cves, stale, now);
      var i :| 0 <= i < |resolved| && resolved[i] == f;
      assert keys[i] in stale;
      StaleIff(digest, db, snapshot, now, keys[i]);
    }
  }

  lemma EveryChangeIsReported(findings: seq<Finding>, digest: Digest, db: Tables, snapshot: InventorySnapshot, now: Time, key: FindingKey)
    requires Valid(db) && Storable(snapshot) && Store.Reports(findings, digest, db, snapshot, now)
    requires Touched(snapshot, key) && (Matched(db, snapshot, key) || IsOpen(db.findings, key))
    ensures exists f :: f in findings && KeyOf(snapshot.orgID, f) == key
  {
    hide SnapshotMatches, SnapshotStale, FindingsOpened, Matched, PackageIDs, LastFor, IsOpen;
    var (matches, stale) := (SnapshotMatches(digest, db, snapshot, now), SnapshotStale(digest, db, snapshot, now));
    assert findings == matches + findings[|matches|..];
    if Matched(db, snapshot, key) {
      MatchedIffFound(digest, db, snapshot, now, key);
      LastForIsInList(snapshot.orgID, matches, key);
    } else {
      StaleIff(digest, db, snapshot, now, key);
      var resolved, opened' := findings[|matches|..], FindingsOpened(digest, db, snapshot, now);
      var keys :| Store.ListsResolvedBy(keys, resolved, opened', db.cves, stale, now);
      var i :| 0 <= i < |keys| && keys[i] == key;
      assert resolved[i] in findings;
    }
  }

  lemma ServeKeepsTables(digest: Digest, db: Tables, snapshot: InventorySnapshot, now: Time, delivered: bool, updated: bool)
    requires KeyOfSnapshot(snapshot) !in db.snapshots
    ensures var after := Serve(digest, db, snapshot, now, delivered, updated).0;
      after == Applied(digest, db, snapshot, now).(snapshots := after.snapshots)
  {
    hide Applied, HasFindings;
  }

  lemma StepKeepsValid(digest: Digest, s: State, e: Event)
    requires Valid(s.db) && Possible(digest, s.db, e)
    ensures Valid(Next(digest, s, e).db)
  {
    hide Applied, HasFindings, Told, Store.Reports, NULFree;
    if FirstTime(s.db, e) {
      SnapshotKeepsValid(digest, s.db, e.snapshot, e.now);
      ServeKeepsTables(digest, s.db, e.snapshot, e.now, e.delivered, e.updated);
    }
  }

  /** Only a first-time snapshot changes which findings are open or what CT Ops takes to be open. */
  lemma OtherStepsKeep(digest: Digest, s: State, e: Event, key: FindingKey)
    requires Possible(digest, s.db, e) && !FirstTime(s.db, e)
    ensures ToldOpen(Next(digest, s, e).view, key) <==> ToldOpen(s.view, key)
    ensures IsOpen(Next(digest, s, e).db.findings, key) <==> IsOpen(s.db.findings, key)
  {
    hide Applied, HasFindings, Store.Reports, NULFree;
  }

  /** After a first-time snapshot CT Ops is right about every finding that was posted, and thinks as before of the others. */
  lemma FirstTimeStep(digest: Digest, s: State, e: Event, key: FindingKey)
    requires Valid(s.db) && Possible(digest, s.db, e) && FirstTime(s.db, e)
    ensures var (org, next) := (e.snapshot.orgID, Next(digest, s, e));
      && (IsOpen(next.db.findings, key) <==>
           if Touched(e.snapshot, key) then Matched(s.db, e.snapshot, key) else IsOpen(s.db.findings, key))
      && (ToldOpen(next.view, key) <==>
           if ReportedIn(e.posted, org, key) then IsOpen(next.db.findings, key) else ToldOpen(s.view, key))
      && (ReportedIn(e.findings, org, key) <==>
           Touched(e.snapshot, key) && (Matched(s.db, e.snapshot, key) || IsOpen(s.db.findings, key)))
      && (ReportedIn(e.posted, org, key) ==> ReportedIn(e.findings, org, key))
  {
    hide Applied, HasFindings, Store.Reports, Told, LastFor, Matched, Touched, IsOpen, Storable, Serve;
    var org := e.snapshot.orgID;
    ServeKeepsTables(digest, s.db, e.snapshot, e.now, e.delivered, e.updated);
    OpenFindingsAfterSnapshot(digest, s.db, e.snapshot, e.now, key);
    ToldAt(s.view, org, e.posted, key);
    LastForIsInList(org, e.posted, key);
    assert forall f :: f in e.posted ==> f in e.findings;
    if f :| f in e.findings && KeyOf(org, f) == key {
      ReportedStatus(e.findings, digest, s.db, e.snapshot, e.now, f);
    }
    if ReportedIn(e.posted, org, key) {
      ReportedStatus(e.findings, digest, s.db, e.snapshot, e.now, LastFor(org, e.posted, key).value);
    }
    if Touched(e.snapshot, key) && (Matched(s.db, e.snapshot, key) || IsOpen(s.db.findings, key)) {
      EveryChangeIsReported(e.findings, digest, s.db, e.snapshot, e.now, key);
    }
  }

  /** One call puts CT Ops out of step at exactly the findings that it opened or resolved without posting them. */
  lemma OutOfStepIffChangeNotPosted(digest: Digest, s: State, e: Event, key: FindingKey)
    requires Valid(s.db) && Possible(digest, s.db, e) && FirstTime(s.db, e) && InStep(s, key)
    ensures InStep(Next(digest, s, e), key) <==>
      || ReportedIn(e.posted, e.snapshot.orgID, key)
      || (IsOpen(Next(digest, s, e).db.findings, key) <==> IsOpen(s.db.findings, key))
  {
    hide ReportedIn, Next, ToldOpen, IsOpen, Matched, Touched, Possible;
    FirstTimeStep(digest, s, e, key);
  }

  /** Every delivery of the run posted all its findings. */
  predicate AllPosted(events: seq<Event>) {
    forall e :: e in events && e.Served? ==> e.posted == e.findings
  }

  /** Some first-time snapshot of the run matches the finding, or names its package while the finding is open. */
  ghost predicate EverReported(digest: Digest, s: State, events: seq<Event>, key: FindingKey)
    decreases |events|
  {
    events != [] &&
    var e := events[0];
    || (&& FirstTime(s.db, e) && Touched(e.snapshot, key)
        && (Matched(s.db, e.snapshot, key) || IsOpen(s.db.findings, key)))
    || EverReported(digest, Next(digest, s, e), events[1..], key)
  }

  /** If every delivery of a serial run posts all its findings, CT Ops is right about a finding at the end if and only if
      it was right at the start or the finding was reported in between. */
  lemma {:induction false} InStepAfterRun(digest: Digest, s: State, events: seq<Event>, key: FindingKey)
    requires Valid(s.db) && PossibleRun(digest, s, events) && AllPosted(events)
    ensures InStep(Run(digest, s, events), key) <==> InStep(s, key) || EverReported(digest, s, events, key)
    decreases |events|
  {
    hide Next, ReportedIn, ToldOpen, IsOpen, Matched, Touched, Possible, Valid;
    if events != [] {
      var e := events[0];
      StepKeepsValid(digest, s, e);
      if FirstTime(s.db, e) {
        FirstTimeStep(digest, s, e, key);
      } else {
        OtherStepsKeep(digest, s, e, key);
      }
      InStepAfterRun(digest, Next(digest, s, e), events[1..], key);
    }
  }

  /** In particular, as long as everything is posted CT Ops knows exactly the open findings. */
  lemma AllPostedKeepsInStep(digest: Digest, s: State, events: seq<Event>)
    requires Valid(s.db) && PossibleRun(digest, s, events) && AllPosted(events)
    requires forall key :: InStep(s, key)
    ensures forall key :: InStep(Run(digest, s, events), key)
  {
    hide InStep, Run, Valid;
    forall key
      ensures InStep(Run(digest, s, events), key)
    {
      InStepAfterRun(digest, s, events, key);
    }
  }

  /** Some first-time snapshot of the run matches the finding. */
  ghost predicate EverMatched(digest: Digest, s: State, events: seq<Event>, key: FindingKey)
    decreases |events|
  {
    events != [] &&
    var e := events[0];
    || (FirstTime(s.db, e) && Matched(s.db, e.snapshot, key))
    || EverMatched(digest, Next(digest, s, e), events[1..], key)
  }

  /** A resolution that was not posted is never made good: until the finding is matched again CT Ops takes it to be open,
      whatever is delivered. */
  lemma {:induction false} MissedResolutionStays(digest: Digest, s: State, events: seq<Event>, key: FindingKey)
    requires Valid(s.db) && PossibleRun(digest, s, events)
    requires ToldOpen(s.view, key) && !IsOpen(s.db.findings, key)
    requires !EverMatched(digest, s, events, key)
    ensures ToldOpen(Run(digest, s, events).view, key) && !IsOpen(Run(digest, s, events).db.findings, key)
    decreases |events|
  {
    hide Next, ReportedIn, ToldOpen, IsOpen, Matched, Touched, Possible, Valid;
    if events != [] {
      var e := events[0];
      StepKeepsValid(digest, s, e);
      if FirstTime(s.db, e) {
        FirstTimeStep(digest, s, e, key);
      } else {
        OtherStepsKeep(digest, s, e, key);
      }
      MissedResolutionStays(digest, Next(digest, s, e), events[1..], key);
    }
  }

  /** Such resolutions occur: the package with the open finding is upgraded and the first page is not posted. */
  lemma ResolutionCanBeMissed(digest: Digest, row: FindingRow, now: Time, findings: seq<Finding>, updated: bool)
    requires row.resolvedAt.None?
    requires Store.Reports(findings, digest, ONE_ADVISORY.(findings := map[SOME_KEY := row]), UPGRADED, now)
    ensures var s := State(ONE_ADVISORY.(findings := map[SOME_KEY := row]), map[SOME_KEY := Open]);
      var e := Served(UPGRADED, now, findings, [], false, updated);
      && Valid(s.db) && Possible(digest, s.db, e) && (forall key :: InStep(s, key))
      && ToldOpen(Next(digest, s, e).view, SOME_KEY) && !IsOpen(Next(digest, s, e).db.findings, SOME_KEY)
  {
    hide Next, Store.Reports, Matched, Touched, Storable, Valid;
    var s := State(ONE_ADVISORY.(findings := map[SOME_KEY := row]), map[SOME_KEY := Open]);
    var e := Served(UPGRADED, now, findings, [], false, updated);
    IDsAreStorable();
    UpgradeIsNotAffected(s.db, SOME_KEY);
    FirstTimeStep(digest, s, e, SOME_KEY);
  }
}
