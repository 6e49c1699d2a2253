/**
 * The session-record half of src/configs/session/jwtService.ts: the record
 * stored at users/{userId}/sessions/{sessionId} for every login, and the pure
 * operations on it. The clock is the parameter `now` (milliseconds).
 */
module SessionRecords {
  import opened Wrappers

  /** `SESSION_EXPIRY`: 365 days in milliseconds. */
  const SessionExpiry: int := 365 * 24 * 60 * 60 * 1000

  /**
   * The stored document. `loggedOutAt` is the extra field logout writes beside
   * `isActive`; a record fresh from `CreateSessionData` has none.
   */
  datatype SessionData = SessionData(
    userId: string,
    email: string,
    sessionId: string,
    lastActivity: int,
    createdAt: int,
    expiresAt: int,
    isActive: bool,
    loggedOutAt: Option<int>)

  /** `createSessionData(userId, email, sessionId)` at time `now`. */
  function CreateSessionData(userId: string, email: string, sessionId: string, now: int): (r: SessionData)
    ensures r.userId == userId && r.email == email && r.sessionId == sessionId
    ensures r.lastActivity == now && r.createdAt == now
    ensures r.expiresAt == now + SessionExpiry
    ensures r.isActive && r.loggedOutAt.None?
    ensures IsSessionValid(r, now)
  {
    SessionData(userId, email, sessionId, now, now, now + SessionExpiry, true, None)
  }

  /** `updateSessionActivity`: slide the window to start at `now`; nothing else changes. */
  function UpdateSessionActivity(r: SessionData, now: int): (u: SessionData)
    ensures u.lastActivity == now && u.expiresAt == now + SessionExpiry
    ensures u.userId == r.userId && u.email == r.email && u.sessionId == r.sessionId
    ensures u.createdAt == r.createdAt && u.isActive == r.isActive && u.loggedOutAt == r.loggedOutAt
  {
    r.(lastActivity := now, expiresAt := now + SessionExpiry)
  }

  /** `isSessionValid`: active, and expiring strictly after `now`. */
  function IsSessionValid(r: SessionData, now: int): (valid: bool)
    ensures valid ==> r.isActive
    ensures r.expiresAt <= now ==> !valid
    ensures r.isActive && now < r.expiresAt ==> valid
  {
    r.isActive && r.expiresAt > now
  }

  /** `revokeSession`: only the active flag changes, and the result is valid at no time at all. */
  function RevokeSession(r: SessionData): (v: SessionData)
    ensures !v.isActive
    ensures forall now :: !IsSessionValid(v, now)
    ensures v.userId == r.userId && v.email == r.email && v.sessionId == r.sessionId
    ensures v.lastActivity == r.lastActivity && v.createdAt == r.createdAt
    ensures v.expiresAt == r.expiresAt && v.loggedOutAt == r.loggedOutAt
  {
    r.(isActive := false)
  }

  /** A record whose expiry is exactly `now` is already invalid; one an instant later is still valid. */
  lemma ExpiryBoundary(r: SessionData, now: int)
    requires r.isActive
    ensures r.expiresAt == now ==> !IsSessionValid(r, now)
    ensures r.expiresAt == now + 1 ==> IsSessionValid(r, now)
  {
  }

  /** A sequence of activity bumps, at the given instants, in order. */
  function BumpAll(r: SessionData, times: seq<int>): (u: SessionData)
    decreases |times|
  {
    if |times| == 0 then r else BumpAll(UpdateSessionActivity(r, times[0]), times[1..])
  }

  /** Bumps never reactivate: the active flag survives any number of them unchanged. */
  lemma {:induction false} BumpsKeepActiveFlag(r: SessionData, times: seq<int>)
    ensures BumpAll(r, times).isActive == r.isActive
    ensures BumpAll(r, times).userId == r.userId && BumpAll(r, times).sessionId == r.sessionId
    decreases |times|
  {
    if |times| > 0 {
      BumpsKeepActiveFlag(UpdateSessionActivity(r, times[0]), times[1..]);
    }
  }

  /** A revoked record stays invalid at every instant after any number of bumps. */
  lemma RevokedStaysInvalid(r: SessionData, times: seq<int>, now: int)
    ensures !IsSessionValid(BumpAll(RevokeSession(r), times), now)
  {
    BumpsKeepActiveFlag(RevokeSession(r), times);
  }

  /** The rolling-window invariant: expiry is always one lifetime after the last activity. */
  predicate Rolling(r: SessionData) {
    r.expiresAt == r.lastActivity + SessionExpiry
  }

  /** Creation establishes the window, and bumps and revocation keep it. */
  lemma RollingPreserved(r: SessionData, u: string, e: string, sid: string, now: int)
    ensures Rolling(CreateSessionData(u, e, sid, now))
    ensures Rolling(UpdateSessionActivity(r, now))
    ensures Rolling(r) ==> Rolling(RevokeSession(r))
  {
  }

  /** Under the rolling window, a bump at a later instant strictly extends the expiry. */
  lemma BumpExtendsExpiry(r: SessionData, now: int)
    requires Rolling(r)
    requires now > r.lastActivity
    ensures UpdateSessionActivity(r, now).expiresAt > r.expiresAt
  {
  }

  /** A bump of a valid record keeps it valid at the bump instant. */
  lemma BumpKeepsValid(r: SessionData, now: int)
    requires IsSessionValid(r, now)
    ensures IsSessionValid(UpdateSessionActivity(r, now), now)
  {
  }
}
