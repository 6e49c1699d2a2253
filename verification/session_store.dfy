/**
 * `FirebaseSessionStore` of src/configs/session/firebaseSessionStore.ts: the
 * express-session store over the top-level sessions collection, modelled as a
 * map from session id to stored document. This store is disjoint from the
 * per-user JWT session records.
 *
 * Each operation takes the clock `now` and whether the database serves its
 * call(s); a failing call reaches the callback as an error and leaves the
 * collection as it was.
 */
module SessionStore {
  import opened Wrappers

  /** The cookie part of an express-session session; `expires` is absent for a browser-session cookie. */
  datatype Cookie = Cookie(expires: Option<int>, originalMaxAge: Option<int>)

  /**
   * A stored document: the session's cookie (if any), the `lastAccess` and
   * `sessionId` stamps the store adds, and the remaining application fields
   * (such as Passport's user id), modelled as flat text values.
   */
  datatype Record = Record(
    cookie: Option<Cookie>,
    lastAccess: Option<int>,
    sessionId: Option<string>,
    fields: map<string, string>)

  /** The session object express-session hands to `set` and `touch`. */
  datatype Session = Session(cookie: Cookie, fields: map<string, string>)

  type Store = map<string, Record>

  /** `session.cookie && session.cookie.expires`: the cookie expiry, when there is one. */
  function CookieExpiry(r: Record): Option<int> {
    if r.cookie.Some? then r.cookie.value.expires else None
  }

  /** The cookie expiry is present and not after `now`. */
  predicate CookieExpired(r: Record, now: int) {
    CookieExpiry(r).Some? && CookieExpiry(r).value <= now
  }

  datatype GetReply = GetReply(result: Result<Option<Record>>, store: Store)

  /**
   * `get(sessionId)`: null for an absent id; an expired cookie makes the store
   * delete the document (a failure of that delete is swallowed) and answer null;
   * otherwise the document as stored, however old.
   */
  function Get(store: Store, sid: string, now: int, readUp: bool, deleteUp: bool): (g: GetReply)
    ensures !readUp ==> g.result.Failure? && g.store == store
    ensures readUp && sid !in store ==> g.result == Success(None) && g.store == store
    ensures readUp && sid in store && CookieExpired(store[sid], now) ==>
      && g.result == Success(None)
      && g.store == (if deleteUp then store - {sid} else store)
    ensures readUp && sid in store && !CookieExpired(store[sid], now) ==>
      g.result == Success(Some(store[sid])) && g.store == store
  {
    if !readUp then GetReply(Failure, store)
    else if sid !in store then GetReply(Success(None), store)
    else if CookieExpired(store[sid], now) then
      GetReply(Success(None), if deleteUp then store - {sid} else store)
    else GetReply(Success(Some(store[sid])), store)
  }

  datatype WriteReply = WriteReply(ok: bool, store: Store)

  /** `{ ...session, lastAccess: now, sessionId: sid }` written with `{ merge: true }` over `prior`. */
  function Merge(prior: Option<Record>, sid: string, s: Session, now: int): (r: Record)
    ensures r.cookie == Some(s.cookie) && r.lastAccess == Some(now) && r.sessionId == Some(sid)
    ensures prior.None? ==> r.fields == s.fields
    ensures prior.Some? ==> r.fields.Keys == prior.value.fields.Keys + s.fields.Keys
    ensures forall k | k in s.fields :: k in r.fields && r.fields[k] == s.fields[k]
    ensures prior.Some? ==> forall k | k in prior.value.fields && k !in s.fields :: k in r.fields && r.fields[k] == prior.value.fields[k]
  {
    var base := if prior.Some? then prior.value.fields else map[];
    Record(Some(s.cookie), Some(now), Some(sid), base + s.fields)
  }

  /** `set(sid, session)`: a merge, not a replacement; other documents are untouched. */
  function Set(store: Store, sid: string, s: Session, now: int, up: bool): (w: WriteReply)
    ensures w.ok == up
    ensures !up ==> w.store == store
    ensures up ==> w.store.Keys == store.Keys + {sid}
    ensures up ==> w.store[sid] == Merge(if sid in store then Some(store[sid]) else None, sid, s, now)
    ensures forall k | k in store && k != sid :: k in w.store && w.store[k] == store[k]
  {
    if !up then WriteReply(false, store)
    else WriteReply(true, store[sid := Merge(if sid in store then Some(store[sid]) else None, sid, s, now)])
  }

  /** `destroy(sid)`: deleting is idempotent, so an absent id is no error. */
  function Destroy(store: Store, sid: string, up: bool): (w: WriteReply)
    ensures w.ok == up
    ensures up ==> sid !in w.store && w.store.Keys == store.Keys - {sid}
    ensures !up ==> w.store == store
    ensures forall k | k in w.store :: k in store && w.store[k] == store[k]
  {
    if up then WriteReply(true, store - {sid}) else WriteReply(false, store)
  }

  /** `clear()`: one batch deleting every document; a failure commits nothing. */
  function Clear(store: Store, up: bool): (w: WriteReply)
    ensures w.ok == up
    ensures up ==> w.store == map[]
    ensures !up ==> w.store == store
  {
    if up then WriteReply(true, map[]) else WriteReply(false, store)
  }

  /** `length()`: the number of documents. */
  function Length(store: Store, up: bool): (n: Result<nat>)
    ensures up ==> n == Success(|store.Keys|)
    ensures !up ==> n.Failure?
  {
    if up then Success(|store|) else Failure
  }

  /** `all()`: every stored id mapped to its document. */
  function All(store: Store, up: bool): (r: Result<map<string, Record>>)
    ensures up ==> r.Success? && r.value.Keys == store.Keys
    ensures up ==> forall k | k in store :: r.value[k] == store[k]
    ensures !up ==> r.Failure?
  {
    if up then Success(store) else Failure
  }

  /**
   * `touch(sid, session)`: a Firestore `update` of `lastAccess` and `cookie`
   * only, which fails when the document does not exist.
   */
  function Touch(store: Store, sid: string, s: Session, now: int, up: bool): (w: WriteReply)
    ensures w.ok <==> up && sid in store
    ensures !w.ok ==> w.store == store
    ensures w.ok ==> w.store.Keys == store.Keys
    ensures w.ok ==> w.store[sid].lastAccess == Some(now) && w.store[sid].cookie == Some(s.cookie)
    ensures w.ok ==> w.store[sid].sessionId == store[sid].sessionId && w.store[sid].fields == store[sid].fields
    ensures forall k | k in store && k != sid :: k in w.store && w.store[k] == store[k]
  {
    if up && sid in store then
      WriteReply(true, store[sid := store[sid].(lastAccess := Some(now), cookie := Some(s.cookie))])
    else WriteReply(false, store)
  }

  /** After `destroy`, `get` of the same id answers null. */
  lemma DestroyThenGet(store: Store, sid: string, now: int, readUp: bool, deleteUp: bool)
    requires readUp
    ensures Get(Destroy(store, sid, true).store, sid, now, readUp, deleteUp).result == Success(None)
  {
  }

  /** `set` followed by `get` before the cookie expires returns the merged document. */
  lemma SetThenGet(store: Store, sid: string, s: Session, now: int, later: int)
    requires s.cookie.expires.None? || s.cookie.expires.value > later
    ensures var w := Set(store, sid, s, now, true);
      Get(w.store, sid, later, true, true).result == Success(Some(w.store[sid]))
  {
  }

  // ----- The sweep: cleanupExpiredSessions ---------------------------------

  /** "More than 30 days": `daysDiff > 30`, compared in whole milliseconds. */
  const StaleAfterMs: int := 30 * 1000 * 3600 * 24

  /**
   * The sweep deletes a record whose cookie expiry is present and not after
   * `now`, or, when there is no cookie expiry, whose `lastAccess` is more than
   * 30 days old.
   */
  function Doomed(r: Record, now: int): (doomed: bool)
    ensures CookieExpiry(r).Some? ==> (doomed <==> CookieExpiry(r).value <= now)
    ensures CookieExpiry(r).None? ==> (doomed <==> r.lastAccess.Some? && now - r.lastAccess.value > StaleAfterMs)
    ensures CookieExpiry(r).None? && r.lastAccess.None? ==> !doomed
  {
    if CookieExpiry(r).Some? then CookieExpiry(r).value <= now
    else r.lastAccess.Some? && now - r.lastAccess.value > StaleAfterMs
  }

  function DoomedIds(store: Store, now: int): (ids: set<string>)
    ensures ids <= store.Keys
  {
    set k | k in store && Doomed(store[k], now)
  }

  function Survivors(store: Store, now: int): (s: Store)
    ensures s.Keys == store.Keys - DoomedIds(store, now)
    ensures forall k | k in s :: s[k] == store[k]
  {
    map k | k in store && !Doomed(store[k], now) :: store[k]
  }

  /**
   * What a sweep did: the collection afterwards, how many deletions the batch
   * held, and whether a commit was made.
   */
  datatype SweepReport = SweepReport(store: Store, deleted: nat, committed: bool)

  /**
   * The sweep as a whole. A failed read or commit is caught and logged, never
   * rethrown, and leaves the collection untouched; no commit is attempted when
   * nothing qualifies.
   */
  function Sweep(store: Store, now: int, readUp: bool, commitUp: bool): (r: SweepReport)
    ensures !readUp ==> r.store == store && !r.committed
    ensures readUp ==> r.deleted == |DoomedIds(store, now)|
    ensures r.committed <==> readUp && commitUp && r.deleted > 0
    ensures r.committed ==> r.store == Survivors(store, now)
    ensures !r.committed ==> r.store == store
  {
    if !readUp then SweepReport(store, 0, false)
    else
      var n := |DoomedIds(store, now)|;
      if n > 0 && commitUp then SweepReport(Survivors(store, now), n, true)
      else SweepReport(store, n, false)
  }

  /** A record with a future cookie expiry survives the sweep, however old its last access. */
  lemma FutureCookieSurvives(store: Store, sid: string, now: int)
    requires sid in store
    requires CookieExpiry(store[sid]).Some? && CookieExpiry(store[sid]).value > now
    ensures sid in Sweep(store, now, true, true).store
  {
  }

  /** When nothing qualifies the sweep changes nothing, even with a failing commit path. */
  lemma NothingDoomedNothingChanges(store: Store, now: int, readUp: bool, commitUp: bool)
    requires forall k | k in store :: !Doomed(store[k], now)
    ensures Sweep(store, now, readUp, commitUp).store == store
    ensures !Sweep(store, now, readUp, commitUp).committed
  {
    assert DoomedIds(store, now) == {};
  }

  /** A successful sweep leaves exactly the records that did not qualify. */
  lemma SweepCount(store: Store, now: int)
    ensures |Sweep(store, now, true, true).store| == |store| - |DoomedIds(store, now)|
  {
    var s := Sweep(store, now, true, true).store;
    if |DoomedIds(store, now)| > 0 {
      assert s.Keys == store.Keys - DoomedIds(store, now);
    } else {
      assert s == store;
    }
  }

  /**
   * The source's loop: one pass over the documents, queueing each qualifying
   * one for deletion and counting it, then committing the batch if the count
   * is positive.
   */
  method CleanupExpiredSessions(store: Store, now: int, readUp: bool, commitUp: bool) returns (r: SweepReport)
    ensures r == Sweep(store, now, readUp, commitUp)
  {
    if !readUp {
      return SweepReport(store, 0, false);
    }
    var pending := store.Keys;
    var batch: set<string> := {};
    var deletedCount := 0;
    while pending != {}
      invariant pending <= store.Keys
      invariant batch == set k | k in store && k !in pending && Doomed(store[k], now)
      invariant deletedCount == |batch|
      decreases |pending|
    {
      var id :| id in pending;
      if Doomed(store[id], now) {
        assert batch + {id} == set k | k in store && k !in pending - {id} && Doomed(store[k], now);
        batch := batch + {id};
        deletedCount := deletedCount + 1;
      } else {
        assert batch == set k | k in store && k !in pending - {id} && Doomed(store[k], now);
      }
      pending := pending - {id};
    }
    assert batch == DoomedIds(store, now);
    if deletedCount > 0 && commitUp {
      var kept := map k | k in store && k !in batch :: store[k];
      assert kept == Survivors(store, now);
      r := SweepReport(kept, deletedCount, true);
    } else {
      r := SweepReport(store, deletedCount, false);
    }
  }
}
