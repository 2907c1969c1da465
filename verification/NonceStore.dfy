/** Remembering nonces for a limited time: the in-memory store and the database store. */
module NonceStore {
  import opened GoStrings
  import opened CveCatalogue

  /** Entries that have not expired. */
  function Live<K>(seen: map<K, Time>, now: Time): map<K, Time> {
    map k | k in seen && seen[k] > now :: seen[k]
  }

  /** Forget what has expired, then refuse a key that is still there and remember a new one. */
  function Remember<K>(seen: map<K, Time>, key: K, expiresAt: Time, now: Time): (map<K, Time>, bool) {
    var live := Live(seen, now);
    if key in live then (live, false) else (live[key := expiresAt], true)
  }

  class MemoryNonceStore {
    var seen: map<string, Time>

    constructor ()
      ensures seen == map[]
    {
      seen := map[];
    }

    method RememberNonce(tokenID: string, nonce: string, expiresAt: Time, now: Time) returns (remembered: bool)
      modifies this
      ensures (seen, remembered) == Remember(old(seen), tokenID + ":" + nonce, expiresAt, now)
    {
      var todo := seen.Keys;
      while todo != {}
        invariant todo <= seen.Keys <= old(seen).Keys
        invariant forall k :: k in seen ==> seen[k] == old(seen)[k]
        invariant forall k :: k in old(seen) && k !in todo ==> (k in seen <==> old(seen)[k] > now)
        decreases |todo|
      {
        var key :| key in todo;
        todo := todo - {key};
        if seen[key] <= now {
          seen := seen - {key};
        }
      }
      assert seen == Live(old(seen), now);
      var key := tokenID + ":" + nonce;
      if key in seen {
        return false;
      }
      seen := seen[key := expiresAt];
      return true;
    }
  }

  datatype NonceKey = NonceKey(tokenID: string, nonce: string)

  /** The two statements of the database store are separate: the first may succeed and the second fail. */
  datatype DBFault = NoFault | DeleteFails | InsertFails

  function RememberRow(rows: map<NonceKey, Time>, key: NonceKey, expiresAt: Time, now: Time, fault: DBFault)
    : (map<NonceKey, Time>, Option<bool>)
  {
    match fault
    case DeleteFails => (rows, None)
    case InsertFails => (Live(rows, now), None)
    case NoFault => var (after, remembered) := Remember(rows, key, expiresAt, now); (after, Some(remembered))
  }

  class NonceTable {
    var rows: map<NonceKey, Time>

    constructor ()
      ensures rows == map[]
    {
      rows := map[];
    }

    /** None stands for a database error. */
    method RememberNonce(tokenID: string, nonce: string, expiresAt: Time, now: Time, fault: DBFault) returns (r: Option<bool>)
      modifies this
      ensures (rows, r) == RememberRow(old(rows), NonceKey(tokenID, nonce), expiresAt, now, fault)
    {
      if fault.DeleteFails? {
        return None;
      }
      rows := map k | k in rows && !(rows[k] <= now) :: rows[k];  // DELETE WHERE expires_at <= now
      assert rows == Live(old(rows), now);
      if fault.InsertFails? {
        return None;
      }
      var key := NonceKey(tokenID, nonce);
      if key in rows {  // ON CONFLICT DO NOTHING
        return Some(false);
      }
      rows := rows[key := expiresAt];
      return Some(true);
    }
  }

  // ----- The two stores agree -----

  datatype NonceCall = Call(tokenID: string, nonce: string, expiresAt: Time, now: Time)

  function MemoryAnswers(seen: map<string, Time>, calls: seq<NonceCall>): seq<bool>
    decreases |calls|
  {
    if calls == [] then []
    else
      var c := calls[0];
      var (after, answer) := Remember(seen, c.tokenID + ":" + c.nonce, c.expiresAt, c.now);
      [answer] + MemoryAnswers(after, calls[1..])
  }

  function TableAnswers(rows: map<NonceKey, Time>, calls: seq<NonceCall>): seq<bool>
    decreases |calls|
  {
    if calls == [] then []
    else
      var c := calls[0];
      var (after, answer) := Remember(rows, NonceKey(c.tokenID, c.nonce), c.expiresAt, c.now);
      [answer] + TableAnswers(after, calls[1..])
  }

  function Joined(key: NonceKey): string {
    key.tokenID + ":" + key.nonce
  }

  /** Some token id, followed by a colon, begins another one. */
  ghost predicate Clashing(ids: iset<string>) {
    exists s, t :: s in ids && t in ids && Clash(s, t)
  }

  predicate Clash(s: string, t: string) {
    s + ":" <= t
  }

  /** Whatever is called with these token ids, the two stores give the same answers. */
  ghost predicate StoresAgreeOn(ids: iset<string>) {
    forall calls: seq<NonceCall> :: (forall c :: c in calls ==> c.tokenID in ids) ==> MemoryAnswers(map[], calls) == TableAnswers(map[], calls)
  }

  /** Of two keys with one joined text, the shorter token id clashes with the longer. */
  lemma JoinedIsInjective(k: NonceKey, l: NonceKey)
    requires Joined(k) == Joined(l) && |k.tokenID| <= |l.tokenID|
    ensures k == l || Clash(k.tokenID, l.tokenID)
  {
    var s, t := k.tokenID, l.tokenID;
    assert Joined(k)[..|s|] == s && Joined(l)[..|t|] == t;
    if |s| == |t| {
      assert Joined(k)[|s| + 1..] == k.nonce && Joined(l)[|t| + 1..] == l.nonce;
    } else {
      assert Joined(k)[|s|] == ':';
      assert t[..|s| + 1] == s + ":";
    }
  }

  /** Same entries under joined and under separate keys. */
  ghost predicate Represents(ids: iset<string>, seen: map<string, Time>, rows: map<NonceKey, Time>) {
    && (forall k :: k in rows ==> k.tokenID in ids && Joined(k) in seen && seen[Joined(k)] == rows[k])
    && (forall t :: t in seen ==> exists k :: k in rows && Joined(k) == t)
  }

  lemma LiveAgrees(ids: iset<string>, seen: map<string, Time>, rows: map<NonceKey, Time>, now: Time)
    requires Represents(ids, seen, rows)
    ensures Represents(ids, Live(seen, now), Live(rows, now))
  {
    hide Joined;
  }

  lemma InsertAgrees(ids: iset<string>, seen: map<string, Time>, rows: map<NonceKey, Time>, key: NonceKey, expiresAt: Time)
    requires !Clashing(ids) && Represents(ids, seen, rows) && key.tokenID in ids
    ensures key in rows <==> Joined(key) in seen
    ensures key !in rows ==> Represents(ids, seen[Joined(key) := expiresAt], rows[key := expiresAt])
  {
    hide Joined, Clash;
    forall k | k in rows && Joined(k) == Joined(key)
      ensures k == key
    {
      if |k.tokenID| <= |key.tokenID| {
        JoinedIsInjective(k, key);
      } else {
        JoinedIsInjective(key, k);
      }
    }
    var (m, t) := (seen[Joined(key) := expiresAt], rows[key := expiresAt]);
    forall s | s in m
      ensures exists k :: k in t && Joined(k) == s
    {
      if s == Joined(key) {
        assert key in t;
      } else {
        var k :| k in rows && Joined(k) == s;
        assert k in t;
      }
    }
  }

  lemma RememberAgrees(ids: iset<string>, seen: map<string, Time>, rows: map<NonceKey, Time>, key: NonceKey, expiresAt: Time, now: Time)
    requires !Clashing(ids) && Represents(ids, seen, rows) && key.tokenID in ids
    ensures var (m, t) := (Remember(seen, Joined(key), expiresAt, now), Remember(rows, key, expiresAt, now));
      Represents(ids, m.0, t.0) && m.1 == t.1
  {
    hide Joined, Represents, Live, Clashing;
    LiveAgrees(ids, seen, rows, now);
    InsertAgrees(ids, Live(seen, now), Live(rows, now), key, expiresAt);
  }

  lemma {:induction false} AnswersAgree(ids: iset<string>, seen: map<string, Time>, rows: map<NonceKey, Time>, calls: seq<NonceCall>)
    requires !Clashing(ids) && Represents(ids, seen, rows)
    requires forall c :: c in calls ==> c.tokenID in ids
    ensures MemoryAnswers(seen, calls) == TableAnswers(rows, calls)
    decreases |calls|
  {
    hide Represents, Remember, Clashing;
    if calls != [] {
      var c := calls[0];
      var key := NonceKey(c.tokenID, c.nonce);
      RememberAgrees(ids, seen, rows, key, c.expiresAt, c.now);
      AnswersAgree(ids, Remember(seen, Joined(key), c.expiresAt, c.now).0, Remember(rows, key, c.expiresAt, c.now).0, calls[1..]);
    }
  }

  /** A nonce of the longer of two clashing ids, then the nonce of the shorter that gives the same joined text. */
  function ClashingCalls(s: string, t: string, nonce: string, now: Time): (calls: seq<NonceCall>)
    requires Clash(s, t)
    ensures |calls| == 2 && calls[0].tokenID == t && calls[1].tokenID == s
  {
    [Call(t, nonce, now + 1, now), Call(s, t[|s| + 1..] + ":" + nonce, now + 1, now)]
  }

  lemma OneAnswer(seen: map<string, Time>, rows: map<NonceKey, Time>, c: NonceCall)
    ensures MemoryAnswers(seen, [c]) == [Remember(seen, Joined(NonceKey(c.tokenID, c.nonce)), c.expiresAt, c.now).1]
    ensures TableAnswers(rows, [c]) == [Remember(rows, NonceKey(c.tokenID, c.nonce), c.expiresAt, c.now).1]
  {
    hide Remember;
    assert [c][1..] == [];
  }

  lemma TwoAnswers(seen: map<string, Time>, rows: map<NonceKey, Time>, c: NonceCall, d: NonceCall)
    ensures var (key, key') := (NonceKey(c.tokenID, c.nonce), NonceKey(d.tokenID, d.nonce));
      var (m, t) := (Remember(seen, Joined(key), c.expiresAt, c.now), Remember(rows, key, c.expiresAt, c.now));
      && MemoryAnswers(seen, [c, d]) == [m.1, Remember(m.0, Joined(key'), d.expiresAt, d.now).1]
      && TableAnswers(rows, [c, d]) == [t.1, Remember(t.0, key', d.expiresAt, d.now).1]
  {
    hide Remember;
    var key := NonceKey(c.tokenID, c.nonce);
    assert [c, d][1..] == [d];
    OneAnswer(Remember(seen, Joined(key), c.expiresAt, c.now).0, Remember(rows, key, c.expiresAt, c.now).0, d);
  }

  /** Of two clashing ids, the in-memory store refuses a fresh nonce of the shorter after one of the longer. */
  lemma ClashConfusesMemoryStore(s: string, t: string, nonce: string, now: Time)
    requires Clash(s, t)
    ensures MemoryAnswers(map[], ClashingCalls(s, t, nonce, now)) == [true, false]
    ensures TableAnswers(map[], ClashingCalls(s, t, nonce, now)) == [true, true]
  {
    hide MemoryAnswers, TableAnswers;
    var calls := ClashingCalls(s, t, nonce, now);
    TwoAnswers(map[], map[], calls[0], calls[1]);
    var (key, key') := (NonceKey(t, nonce), NonceKey(s, calls[1].nonce));
    assert t == s + ":" + t[|s| + 1..];
    assert Joined(key) == Joined(key');
    assert Remember(map[], Joined(key), now + 1, now) == (map[Joined(key) := now + 1], true);
    assert Remember(map[], key, now + 1, now) == (map[key := now + 1], true);
    assert calls == [calls[0], calls[1]];
  }

  /** The stores agree on every sequence of calls exactly when no token id of the callers is, with a colon after it, the
      beginning of another. */
  lemma StoresAgreeIff(ids: iset<string>)
    ensures StoresAgreeOn(ids) <==> !Clashing(ids)
  {
    hide Clash, MemoryAnswers, TableAnswers;
    if Clashing(ids) {
      var s, t :| s in ids && t in ids && Clash(s, t);
      hide Clashing;
      ClashConfusesMemoryStore(s, t, "", 0);
      var calls := ClashingCalls(s, t, "", 0);
      assert (forall c :: c in calls ==> c.tokenID in ids) && MemoryAnswers(map[], calls) != TableAnswers(map[], calls);
    } else {
      hide Clashing;
      forall calls: seq<NonceCall> | forall c :: c in calls ==> c.tokenID in ids
        ensures MemoryAnswers(map[], calls) == TableAnswers(map[], calls)
      {
        AnswersAgree(ids, map[], map[], calls);
      }
    }
  }

  /** In particular they agree when no token id contains a colon. */
  lemma StoresAgreeWithoutColons(ids: iset<string>)
    requires forall s :: s in ids ==> ':' !in s
    ensures StoresAgreeOn(ids)
  {
    hide StoresAgreeOn;
    assert forall s, t :: Clash(s, t) ==> t[|s|] == ':';
    StoresAgreeIff(ids);
  }
}
