/**
 * The guards of src/utils/utilities/authMiddleware.ts. A guard either lets
 * the request through (`Next`, with the user it attaches, if any) or answers
 * it (`Halt`). `authenticateJWT` issues three database calls, numbered for
 * `served`: 0 reads the session record, 1 writes the bumped activity window,
 * 2 reads the user document.
 */
module AuthMiddleware {
  import opened Wrappers
  import opened Json
  import opened Http
  import Jwt
  import opened SessionRecords
  import opened Accounts

  /** The parts of a request the guards look at. */
  datatype AuthRequest = AuthRequest(
    authorization: Option<string>,  // the Authorization header
    accessCookie: Option<string>,   // the `accessToken` cookie
    passportAuthenticated: bool)    // `req.isAuthenticated()`

  /** What `authenticateJWT` stores in `req.user`. */
  datatype AuthUser = AuthUser(id: string, email: string, firstname: string, lastname: string, sessionId: string)

  datatype Gate = Next(user: Option<AuthUser>) | Halt(response: Response<()>)

  /** A guard's verdict together with the session records after it ran. */
  datatype Guarded = Guarded(gate: Gate, sessions: map<SessionKey, SessionData>)

  const BearerPrefix: string := "Bearer "
  const TokenRequired: string := "Token d'accès requis"
  const TokenRejected: string := "Token invalide ou expiré"
  const SessionMissing: string := "Session invalide"
  const SessionLapsed: string := "Session expirée"
  const UserMissing: string := "Utilisateur introuvable"
  const AuthFailed: string := "Erreur d'authentification"
  const AuthRequired: string := "Authentification requise"

  /**
   * The bearer token when the header starts with "Bearer ", the access cookie
   * otherwise. An empty bearer token does not fall back to the cookie.
   */
  function ExtractToken(req: AuthRequest): (t: Option<string>)
  {
    if req.authorization.Some? && BearerPrefix <= req.authorization.value
    then Some(req.authorization.value[|BearerPrefix|..])
    else req.accessCookie
  }

  /** A bearer header hands back exactly the text after the prefix, whatever the cookie holds. */
  lemma BearerRoundTrip(token: string, cookie: Option<string>, passport: bool)
    ensures ExtractToken(AuthRequest(Some(BearerPrefix + token), cookie, passport)) == Some(token)
  {
    assert BearerPrefix <= BearerPrefix + token;
  }

  /** Without a bearer header the cookie is used as is. */
  lemma CookieFallback(req: AuthRequest)
    requires req.authorization.None? || !(BearerPrefix <= req.authorization.value)
    ensures ExtractToken(req) == req.accessCookie
  {
  }

  /** The session record a verified access token points at. */
  function KeyOf(p: Jwt.Payload): SessionKey {
    SessionKey(p.userId, p.sessionId)
  }

  /** `doc(id)` throws for an empty id, so the record is reachable only when both ids are non-empty. */
  predicate Addressable(p: Jwt.Payload) {
    p.userId != "" && p.sessionId != ""
  }

  /** `userData?.field || ''`. */
  function TextOrEmpty(v: Option<string>): (s: string)
    ensures Filled(v) ==> s == v.value
    ensures !Filled(v) ==> s == ""
  {
    if Filled(v) then v.value else ""
  }

  /** Everything `authenticateJWT` needs to let the request through. */
  predicate Admits(s: Jwt.Signer, db: Db, token: Option<string>, now: int, served: Served) {
    && Filled(token)
    && Jwt.VerifyAccessToken(s, token.value, now).Some?
    && Addressable(Jwt.VerifyAccessToken(s, token.value, now).value)
    && served(0) && served(1) && served(2)
    && KeyOf(Jwt.VerifyAccessToken(s, token.value, now).value) in db.sessions
    && IsSessionValid(db.sessions[KeyOf(Jwt.VerifyAccessToken(s, token.value, now).value)], now)
    && Jwt.VerifyAccessToken(s, token.value, now).value.userId in db.users
  }

  function AuthenticateJWT(s: Jwt.Signer, db: Db, req: AuthRequest, now: int, served: Served): (r: Guarded)
    ensures r.gate.Next? <==> Admits(s, db, ExtractToken(req), now, served)
    ensures r.gate.Next? ==>
      var p := Jwt.VerifyAccessToken(s, ExtractToken(req).value, now).value;
      var u := db.users[p.userId];
      && r.gate.user == Some(AuthUser(p.userId, p.email, TextOrEmpty(u.firstname), TextOrEmpty(u.lastname), p.sessionId))
      && r.sessions == db.sessions[KeyOf(p) := UpdateSessionActivity(db.sessions[KeyOf(p)], now)]
    ensures r.gate.Halt? ==> r.gate.response.status in {401, 500}
    ensures !Filled(ExtractToken(req)) ==> r == Guarded(Halt(ReturnErrorWithStatus(TokenRequired, 401)), db.sessions)
    ensures Filled(ExtractToken(req)) && Jwt.VerifyAccessToken(s, ExtractToken(req).value, now).Some?
            && !Addressable(Jwt.VerifyAccessToken(s, ExtractToken(req).value, now).value) ==>
      r == Guarded(Halt(ReturnErrorWithStatus(AuthFailed, 500)), db.sessions)
    // Only a record that was valid can be touched, and touching it only slides its window.
    ensures r.sessions.Keys == db.sessions.Keys
    ensures forall k | k in r.sessions && r.sessions[k] != db.sessions[k] ::
      IsSessionValid(db.sessions[k], now) && r.sessions[k] == UpdateSessionActivity(db.sessions[k], now)
  {
    var token := ExtractToken(req);
    if !Filled(token) then Guarded(Halt(ReturnErrorWithStatus(TokenRequired, 401)), db.sessions)
    else
      var p := Jwt.VerifyAccessToken(s, token.value, now);
      if p.None? then Guarded(Halt(ReturnErrorWithStatus(TokenRejected, 401)), db.sessions)
      // An empty id makes the document path invalid, which throws.
      else if !Addressable(p.value) || !served(0) then Guarded(Halt(ReturnErrorWithStatus(AuthFailed, 500)), db.sessions)
      else
        var key := KeyOf(p.value);
        if key !in db.sessions then Guarded(Halt(ReturnErrorWithStatus(SessionMissing, 401)), db.sessions)
        else if !IsSessionValid(db.sessions[key], now) then Guarded(Halt(ReturnErrorWithStatus(SessionLapsed, 401)), db.sessions)
        else if !served(1) then Guarded(Halt(ReturnErrorWithStatus(AuthFailed, 500)), db.sessions)
        else
          var bumped := db.sessions[key := UpdateSessionActivity(db.sessions[key], now)];
          if !served(2) then Guarded(Halt(ReturnErrorWithStatus(AuthFailed, 500)), bumped)
          else if p.value.userId !in db.users then Guarded(Halt(ReturnErrorWithStatus(UserMissing, 401)), bumped)
          else
            var u := db.users[p.value.userId];
            Guarded(Next(Some(AuthUser(p.value.userId, p.value.email, TextOrEmpty(u.firstname), TextOrEmpty(u.lastname), p.value.sessionId))), bumped)
  }

  /** `authenticateSession`: Passport's own session decides. */
  function AuthenticateSession(req: AuthRequest): (g: Gate)
    ensures g.Next? <==> req.passportAuthenticated
    ensures g.Next? ==> g.user.None?
    ensures g.Halt? ==> g.response == ReturnErrorWithStatus(AuthRequired, 401)
  {
    if req.passportAuthenticated then Next(None) else Halt(ReturnErrorWithStatus(AuthRequired, 401))
  }

  /** `authenticate`: any non-empty token commits to the JWT guard; only without one does Passport decide. */
  function Authenticate(s: Jwt.Signer, db: Db, req: AuthRequest, now: int, served: Served): (r: Guarded)
    ensures Filled(ExtractToken(req)) ==> r == AuthenticateJWT(s, db, req, now, served)
    ensures !Filled(ExtractToken(req)) ==> r == Guarded(AuthenticateSession(req), db.sessions)
  {
    if Filled(ExtractToken(req)) then AuthenticateJWT(s, db, req, now, served)
    else Guarded(AuthenticateSession(req), db.sessions)
  }

  /** A stale token is refused even when Passport would have let the request through. */
  lemma BadTokenBeatsPassport(s: Jwt.Signer, db: Db, req: AuthRequest, now: int, served: Served)
    requires req.passportAuthenticated
    requires Filled(ExtractToken(req)) && Jwt.VerifyAccessToken(s, ExtractToken(req).value, now).None?
    ensures Authenticate(s, db, req, now, served).gate == Halt(ReturnErrorWithStatus(TokenRejected, 401))
  {
  }

  /** "Bearer " with nothing after it hides a good cookie: the JWT guard answers 401. */
  lemma EmptyBearerHidesCookie(s: Jwt.Signer, db: Db, cookie: string, now: int, served: Served)
    ensures AuthenticateJWT(s, db, AuthRequest(Some(BearerPrefix), Some(cookie), false), now, served).gate
            == Halt(ReturnErrorWithStatus(TokenRequired, 401))
  {
    assert BearerPrefix <= BearerPrefix;
  }

  /**
   * A request let through by the JWT guard leaves its session valid for a
   * full window from now, so the same token passes again until then (if the
   * token itself has not expired).
   */
  lemma AdmittedSessionStaysValid(s: Jwt.Signer, db: Db, req: AuthRequest, now: int, later: int, served: Served)
    requires AuthenticateJWT(s, db, req, now, served).gate.Next?
    requires now <= later < now + SessionExpiry
    ensures var p := Jwt.VerifyAccessToken(s, ExtractToken(req).value, now).value;
            var r := AuthenticateJWT(s, db, req, now, served);
            KeyOf(p) in r.sessions && IsSessionValid(r.sessions[KeyOf(p)], later)
  {
  }

  /** A deleted user's valid session is still bumped before the guard notices the user is gone. */
  lemma MissingUserStillBumps(s: Jwt.Signer, db: Db, req: AuthRequest, now: int, served: Served)
    requires Filled(ExtractToken(req))
    requires Jwt.VerifyAccessToken(s, ExtractToken(req).value, now).Some?
    requires served(0) && served(1) && served(2)
    requires var p := Jwt.VerifyAccessToken(s, ExtractToken(req).value, now).value;
             Addressable(p) && KeyOf(p) in db.sessions && IsSessionValid(db.sessions[KeyOf(p)], now) && p.userId !in db.users
    ensures var p := Jwt.VerifyAccessToken(s, ExtractToken(req).value, now).value;
            var r := AuthenticateJWT(s, db, req, now, served);
            && r.gate == Halt(ReturnErrorWithStatus(UserMissing, 401))
            && r.sessions[KeyOf(p)].expiresAt == now + SessionExpiry
  {
  }
}
