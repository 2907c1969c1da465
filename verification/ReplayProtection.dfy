/** Over a whole run of verifications against one nonce table: how often can one signed request get through? */
module ReplayProtection {
  import opened GoStrings
  import opened CveCatalogue
  import opened NonceStore
  import opened ServiceToken

  datatype Call = Call(req: Request, policy: Policy, now: Time, fault: DBFault)

  function StepOn(prim: Primitives, rows: map<NonceKey, Time>, c: Call): (map<NonceKey, Time>, Verdict) {
    VerifyStep(prim, rows, c.req, c.policy, c.now, c.fault)
  }

  function RowsAfter(prim: Primitives, rows: map<NonceKey, Time>, calls: seq<Call>): map<NonceKey, Time> {
    if calls == [] then rows else StepOn(prim, RowsAfter(prim, rows, calls[..|calls| - 1]), calls[|calls| - 1]).0
  }

  function VerdictAt(prim: Primitives, rows: map<NonceKey, Time>, calls: seq<Call>, i: nat): Verdict
    requires i < |calls|
  {
    StepOn(prim, RowsAfter(prim, rows, calls[..i]), calls[i]).1
  }

  /** Call number i is accepted under this token id and nonce. */
  predicate AcceptedAt(prim: Primitives, rows: map<NonceKey, Time>, calls: seq<Call>, i: nat, key: NonceKey)
    requires i < |calls|
  {
    var v := VerdictAt(prim, rows, calls, i);
    v.Accepted? && key == NonceKey(v.token.id, calls[i].req.headers.nonce)
  }

  /** A call that gets as far as deleting expired nonces. */
  predicate Purges(prim: Primitives, c: Call) {
    Authenticate(prim, c.req, c.policy, c.now).Ok? && !c.fault.DeleteFails?
  }

  /** An accepted nonce is stored with its expiry.  A stored one is deleted exactly by a call that purges at or after its
      expiry; until then it is refused. */
  lemma StepKeepsNonce(prim: Primitives, rows: map<NonceKey, Time>, c: Call, key: NonceKey)
    ensures var (after, v) := StepOn(prim, rows, c);
      var accepted := v.Accepted? && key == NonceKey(v.token.id, c.req.headers.nonce);
      && (accepted ==> Purges(prim, c) && Get(after, key) == Some(c.now + NONCE_TTL) && (key in rows ==> rows[key] <= c.now))
      && (!accepted ==> Get(after, key) == if key in rows && Purges(prim, c) && rows[key] <= c.now then None else Get(rows, key))
  {
    hide Authenticate;
  }

  /** Between calls i and j somebody deletes what has expired ten minutes after call i. */
  ghost predicate PurgedBetween(prim: Primitives, calls: seq<Call>, i: nat, j: nat)
    requires i < |calls| && j <= |calls|
  {
    exists k :: i < k < j && Purges(prim, calls[k]) && calls[k].now >= calls[i].now + NONCE_TTL
  }

  lemma {:induction false} RememberedUntilPurged(prim: Primitives, rows: map<NonceKey, Time>, calls: seq<Call>, i: nat, j: nat, key: NonceKey)
    requires i < j <= |calls| && AcceptedAt(prim, rows, calls, i, key)
    ensures Get(RowsAfter(prim, rows, calls[..j]), key) == Some(calls[i].now + NONCE_TTL) || PurgedBetween(prim, calls, i, j)
    ensures (forall m :: i < m < j ==> !AcceptedAt(prim, rows, calls, m, key)) && PurgedBetween(prim, calls, i, j) ==>
      key !in RowsAfter(prim, rows, calls[..j])
    decreases j
  {
    hide StepOn, Purges;
    var before := RowsAfter(prim, rows, calls[..j - 1]);
    assert calls[..j][..j - 1] == calls[..j - 1];
    StepKeepsNonce(prim, before, calls[j - 1], key);
    if i < j - 1 {
      RememberedUntilPurged(prim, rows, calls, i, j - 1, key);
      VerdictOfLast(prim, rows, calls, j - 1, key);
      assert PurgedBetween(prim, calls, i, j) <==>
        PurgedBetween(prim, calls, i, j - 1) || (Purges(prim, calls[j - 1]) && calls[j - 1].now >= calls[i].now + NONCE_TTL);
    }
  }

  /** Whatever the clocks of concurrent calls say: a call that presents a nonce again is accepted if and only if since the
      last acceptance some call, possibly itself, has read a time at least ten minutes after it and purged. */
  lemma AcceptedAgainIff(prim: Primitives, rows: map<NonceKey, Time>, calls: seq<Call>, i: nat, j: nat, key: NonceKey)
    requires i < j < |calls| && AcceptedAt(prim, rows, calls, i, key)
    requires forall m :: i < m < j ==> !AcceptedAt(prim, rows, calls, m, key)
    requires Presents(prim, calls[j], key)
    ensures AcceptedAt(prim, rows, calls, j, key) <==> PurgedBetween(prim, calls, i, j + 1)
  {
    hide Authenticate, RowsAfter, AcceptedAt;
    RememberedUntilPurged(prim, rows, calls, i, j, key);
    var before := RowsAfter(prim, rows, calls[..j]);
    assert AcceptedAt(prim, rows, calls, j, key) <==> key !in before || before[key] <= calls[j].now by {
      PresentedIsAcceptedIffDead(prim, before, calls[j], key);
      VerdictOfLast(prim, rows, calls, j, key);
    }
  }

  /** The call passes every check before the nonce, and the database works. */
  predicate Presents(prim: Primitives, c: Call, key: NonceKey) {
    var auth := Authenticate(prim, c.req, c.policy, c.now);
    auth.Ok? && key == NonceKey(auth.value.id, c.req.headers.nonce) && c.fault.NoFault?
  }

  lemma PresentedIsAcceptedIffDead(prim: Primitives, rows: map<NonceKey, Time>, c: Call, key: NonceKey)
    requires Presents(prim, c, key)
    ensures StepOn(prim, rows, c).1.Accepted? <==> key !in rows || rows[key] <= c.now
    ensures StepOn(prim, rows, c).1.Accepted? ==> key == NonceKey(StepOn(prim, rows, c).1.token.id, c.req.headers.nonce)
  {
    hide Authenticate;
  }

  lemma VerdictOfLast(prim: Primitives, rows: map<NonceKey, Time>, calls: seq<Call>, j: nat, key: NonceKey)
    requires j < |calls|
    ensures var v := StepOn(prim, RowsAfter(prim, rows, calls[..j]), calls[j]).1;
      AcceptedAt(prim, rows, calls, j, key) <==> v.Accepted? && key == NonceKey(v.token.id, calls[j].req.headers.nonce)
  {
    hide StepOn, RowsAfter;
  }

  /** No call from i to j reads a later time than call j; so it is whenever the clock never goes back. */
  ghost predicate NoneLater(calls: seq<Call>, i: nat, j: nat)
    requires j < |calls|
  {
    forall k :: i <= k <= j ==> calls[k].now <= calls[j].now
  }

  /** In every run two acceptances of one (token id, nonce) are at least ten minutes apart, unless a call in between has
      read a later time than the second. */
  lemma AcceptancesAreApart(prim: Primitives, rows: map<NonceKey, Time>, calls: seq<Call>, i: nat, j: nat, key: NonceKey)
    requires i < j < |calls| && NoneLater(calls, i, j)
    requires AcceptedAt(prim, rows, calls, i, key) && AcceptedAt(prim, rows, calls, j, key)
    ensures calls[j].now >= calls[i].now + 600_000_000_000
  {
    hide StepOn, RowsAfter, Purges;
    RememberedUntilPurged(prim, rows, calls, i, j, key);
    StepKeepsNonce(prim, RowsAfter(prim, rows, calls[..j]), calls[j], key);
  }

  /** And it can be otherwise: when a call whose clock is ten minutes ahead gets in between, an accepted request is accepted
      again at the very same time. */
  lemma LateClockLetsReplayThrough(prim: Primitives, rows: map<NonceKey, Time>, c: Call, d: Call)
    requires VerdictAt(prim, rows, [c, d, c], 0).Accepted?
    requires Purges(prim, d) && d.now >= c.now + NONCE_TTL && d.req.headers.nonce != c.req.headers.nonce
    ensures VerdictAt(prim, rows, [c, d, c], 2).Accepted?
  {
    hide StepOn, RowsAfter, Purges;
    var calls := [c, d, c];
    var key := NonceKey(VerdictAt(prim, rows, calls, 0).token.id, c.req.headers.nonce);
    AcceptedPresents(prim, RowsAfter(prim, rows, calls[..0]), c);
    AcceptedAgainIff(prim, rows, calls, 0, 2, key);
    assert calls[1] == d;
    assert PurgedBetween(prim, calls, 0, 3);
  }

  lemma AcceptedPresents(prim: Primitives, rows: map<NonceKey, Time>, c: Call)
    requires StepOn(prim, rows, c).1.Accepted?
    ensures Presents(prim, c, NonceKey(StepOn(prim, rows, c).1.token.id, c.req.headers.nonce))
  {
    hide Authenticate;
  }

  // ----- One signed request, sent again -----

  function Timestamp(prim: Primitives, req: Request): Option<Time> {
    prim.parseTime(req.headers.timestamp)
  }

  lemma AcceptedWithinSkew(prim: Primitives, rows: map<NonceKey, Time>, c: Call)
    requires StepOn(prim, rows, c).1.Accepted?
    ensures Timestamp(prim, c.req).Some? && AbsDuration(c.now - Timestamp(prim, c.req).value) <= MAX_CLOCK_SKEW
    ensures Fields(c.req.headers.authorization) == [AUTH_SCHEME, StepOn(prim, rows, c).1.token.id]
  {
    hide VerifyStep, Fields, TrimSpace;
    AcceptedMeansSigned(prim, rows, c.req, c.policy, c.now, c.fault);
  }

  /** If one request is accepted twice in a run, its timestamp was exactly five minutes ahead of the clock the first time
      and the second acceptance came exactly ten minutes later. */
  lemma AcceptedTwiceMeansBoundary(prim: Primitives, rows: map<NonceKey, Time>, calls: seq<Call>, i: nat, j: nat)
    requires i < j < |calls| && NoneLater(calls, i, j) && calls[i].req == calls[j].req
    requires VerdictAt(prim, rows, calls, i).Accepted? && VerdictAt(prim, rows, calls, j).Accepted?
    ensures Timestamp(prim, calls[i].req) == Some(calls[i].now + 300_000_000_000)
    ensures calls[j].now == calls[i].now + 600_000_000_000
  {
    hide StepOn, RowsAfter, Fields;
    AcceptedWithinSkew(prim, RowsAfter(prim, rows, calls[..i]), calls[i]);
    AcceptedWithinSkew(prim, RowsAfter(prim, rows, calls[..j]), calls[j]);
    AcceptancesAreApart(prim, rows, calls, i, j, NonceKey(VerdictAt(prim, rows, calls, i).token.id, calls[i].req.headers.nonce));
  }

  /** So a request whose timestamp is strictly less than five minutes ahead when first accepted is accepted only once. */
  lemma AcceptedAtMostOnce(prim: Primitives, rows: map<NonceKey, Time>, calls: seq<Call>, i: nat, j: nat)
    requires i < j < |calls| && NoneLater(calls, i, j) && calls[i].req == calls[j].req
    requires VerdictAt(prim, rows, calls, i).Accepted?
    requires Timestamp(prim, calls[i].req).Some? && Timestamp(prim, calls[i].req).value - calls[i].now < 300_000_000_000
    ensures !VerdictAt(prim, rows, calls, j).Accepted?
  {
    hide StepOn, RowsAfter, Timestamp, VerdictAt;
    if VerdictAt(prim, rows, calls, j).Accepted? {
      AcceptedTwiceMeansBoundary(prim, rows, calls, i, j);
    }
  }

  /** Sending the request of `c` again at time `later`. */
  function Twice(c: Call, later: Time): seq<Call> {
    [c, c.(now := later)]
  }

  predicate AcceptedTwice(prim: Primitives, rows: map<NonceKey, Time>, c: Call, later: Time) {
    VerdictAt(prim, rows, Twice(c, later), 0).Accepted? && VerdictAt(prim, rows, Twice(c, later), 1).Accepted?
  }

  lemma SecondVerdict(prim: Primitives, rows: map<NonceKey, Time>, c: Call, later: Time)
    ensures VerdictAt(prim, rows, Twice(c, later), 0) == StepOn(prim, rows, c).1
    ensures VerdictAt(prim, rows, Twice(c, later), 1) == StepOn(prim, StepOn(prim, rows, c).0, c.(now := later)).1
  {
    hide StepOn;
    var calls := Twice(c, later);
    assert calls[..0] == [] && calls[..1] == [c] && [c][..0] == [];
  }

  /** The bound is sharp: an accepted request can be replayed at some later time if and only if its timestamp is exactly
      five minutes ahead of the clock at the first acceptance. */
  lemma ReplayPossibleIffOnBoundary(prim: Primitives, rows: map<NonceKey, Time>, c: Call)
    requires StepOn(prim, rows, c).1.Accepted?
    ensures (exists later :: later >= c.now && AcceptedTwice(prim, rows, c, later))
       <==> Timestamp(prim, c.req) == Some(c.now + 300_000_000_000)
  {
    hide StepOn, VerdictAt, Timestamp;
    if later :| later >= c.now && AcceptedTwice(prim, rows, c, later) {
      AcceptedTwiceMeansBoundary(prim, rows, Twice(c, later), 0, 1);
    }
    if Timestamp(prim, c.req) == Some(c.now + MAX_CLOCK_SKEW) {
      SecondVerdict(prim, rows, c, c.now + NONCE_TTL);
      BoundaryReplayAccepted(prim, rows, c);
      assert AcceptedTwice(prim, rows, c, c.now + NONCE_TTL);
    }
  }

  lemma BoundaryReplayAccepted(prim: Primitives, rows: map<NonceKey, Time>, c: Call)
    requires StepOn(prim, rows, c).1.Accepted?
    requires Timestamp(prim, c.req) == Some(c.now + MAX_CLOCK_SKEW)
    ensures StepOn(prim, StepOn(prim, rows, c).0, c.(now := c.now + NONCE_TTL)).1.Accepted?
  {
    hide Fields, TrimSpace, FindToken, Signature;
    var after := StepOn(prim, rows, c).0;
    var token := StepOn(prim, rows, c).1.token;
    StepKeepsNonce(prim, rows, c, NonceKey(token.id, c.req.headers.nonce));
    SameAuthentication(prim, c.req, c.policy, c.now, c.now + NONCE_TTL);
  }

  /** Within the clock window the checks before the nonce do not depend on the time. */
  lemma SameAuthentication(prim: Primitives, req: Request, policy: Policy, now: Time, later: Time)
    requires Authenticate(prim, req, policy, now).Ok?
    requires AbsDuration(later - Timestamp(prim, req).value) <= MAX_CLOCK_SKEW
    ensures Authenticate(prim, req, policy, later) == Authenticate(prim, req, policy, now)
  {
    hide Fields, TrimSpace, FindToken, Signature;
  }

  /** Such requests exist: whatever is signed with a good token, presented to an empty nonce table five minutes before its
      truncated timestamp, is accepted now and again ten minutes later. */
  lemma BoundaryRequestIsReplayed(prim: Primitives, method_: string, path: string, body: string, nonce: string, signedAt: Time,
                                  token: Token, scope: string)
    requires token.id != "" && SpaceFree(token.id) && !token.revoked && scope in token.scopes && nonce != ""
    requires prim.formatTime(signedAt) != "" && prim.parseTime(prim.formatTime(signedAt)) == Some(Truncated(signedAt))
    requires |prim.sha256Hex(body)| == 64
    ensures var c := Call.Call(SignedRequest(prim, method_, path, body, token, nonce, signedAt), Policy(scope, token.orgID, [token]),
                          Truncated(signedAt) - MAX_CLOCK_SKEW, NoFault);
      StepOn(prim, map[], c).1.Accepted? && exists later :: later >= c.now && AcceptedTwice(prim, map[], c, later)
  {
    hide VerifyStep, Truncated, AcceptedTwice;
    var policy := Policy(scope, token.orgID, [token]);
    var c := Call.Call(SignedRequest(prim, method_, path, body, token, nonce, signedAt), policy, Truncated(signedAt) - MAX_CLOCK_SKEW, NoFault);
    SignThenVerify(prim, map[], method_, path, body, nonce, signedAt, policy, 0, c.now);
    ReplayPossibleIffOnBoundary(prim, map[], c);
  }
}
