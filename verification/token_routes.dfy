/**
 * The token handlers: the zod-validated login of
 * src/routes/users/controllers/loginUser.ts, the refresh of
 * src/routes/users/controllers/refreshToken.ts and the logout of
 * src/routes/users/logoutUser.ts. Fresh session ids are parameters; the
 * outcome of Passport's `req.logIn` is the flag `logInOk`.
 */
module TokenRoutes {
  import opened Wrappers
  import opened Json
  import opened Http
  import Jwt
  import opened SessionRecords
  import opened Accounts
  import Schemas
  import LocalStrategy
  import DocOrder
  import AuthMiddleware
  import opened Server

  const InvalidData: string := "Données invalides: "
  const SessionSetupFailed: string := "Erreur lors de la création de la session"
  const RefreshRequired: string := "Refresh token requis"
  const RefreshMalformed: string := "Refresh token invalide"
  const RefreshRejected: string := "Refresh token invalide ou expiré"
  const RefreshFailed: string := "Erreur lors du rafraîchissement du token"
  const NoActiveSession: string := "Aucune session active"
  const LogoutDone: string := "Déconnexion réussie"
  const LogoutFailed: string := "Erreur lors de la déconnexion"

  /** Cookie lifetimes: fifteen minutes and one year, in milliseconds. */
  const AccessMaxAgeMs: int := 15 * 60 * 1000
  const RefreshMaxAgeMs: int := 365 * 24 * 60 * 60 * 1000

  /** The two cookies carrying a fresh pair. */
  function PairCookies(cfg: Config, p: Jwt.TokenPair): (c: seq<CookieOp>)
    ensures |c| == 2
    ensures c[0] == TokenCookie("accessToken", p.accessToken, AccessMaxAgeMs, cfg.production)
    ensures c[1] == TokenCookie("refreshToken", p.refreshToken, RefreshMaxAgeMs, cfg.production)
  {
    [TokenCookie("accessToken", p.accessToken, AccessMaxAgeMs, cfg.production),
     TokenCookie("refreshToken", p.refreshToken, RefreshMaxAgeMs, cfg.production)]
  }

  /**
   * For every pair the service issues, each cookie lives exactly as long as
   * the token it carries, as the pair itself reports and as signed into the
   * token, and the refresh cookie as long as the session record.
   */
  lemma CookieLifetimesMatchTokens(cfg: Config, s: Jwt.Signer, userId: string, email: string, sessionId: string, now: int)
    ensures var p := Jwt.GenerateTokenPair(s, userId, email, sessionId, now);
            var c := PairCookies(cfg, p);
            && c[0].maxAgeMs == p.expiresIn * 1000 == Jwt.AccessTtlSeconds * 1000
            && c[1].maxAgeMs == p.refreshExpiresIn * 1000 == Jwt.RefreshTtlSeconds * 1000
            && c[1].maxAgeMs == SessionExpiry
  {
  }

  // ----- login ----------------------------------------------------------------

  datatype LoginView = LoginView(
    id: string,
    firstname: Option<string>, lastname: Option<string>, email: Option<string>,
    phone: Option<string>, city: Option<string>, country: Option<string>,
    emailVerify: Option<bool>, phoneVerify: Option<bool>,
    sessionId: string)

  datatype IssuedTokens = IssuedTokens(accessToken: string, refreshToken: string, expiresIn: int)

  datatype LoginData = LoginData(user: LoginView, tokens: IssuedTokens)

  /** The answer, the cookies set, the database after the call, and the user Passport now holds. */
  datatype LoginOutcome = LoginOutcome(response: Response<LoginData>, cookies: seq<CookieOp>, db: Db, passportUser: Option<string>)

  /** Every step of a login succeeds. */
  predicate LoginSucceeds(cfg: Config, db: Db, body: Schemas.LoginBody, logInOk: bool, served: Served) {
    && Schemas.ParseLogin(cfg.isEmail, body).Valid?
    && served(0) && served(1) && served(2) && logInOk
    && LocalStrategy.Matching(cfg.sha, db.users, Schemas.ParseLogin(cfg.isEmail, body).data.email,
                              Schemas.ParseLogin(cfg.isEmail, body).data.password) != {}
  }

  /**
   * The session record is written but stamping `lastLoginAt` then fails: the
   * only failure that leaves something behind.
   */
  predicate SessionOrphaned(cfg: Config, db: Db, body: Schemas.LoginBody, logInOk: bool, served: Served) {
    && Schemas.ParseLogin(cfg.isEmail, body).Valid?
    && served(0) && served(1) && !served(2) && logInOk
    && LocalStrategy.Matching(cfg.sha, db.users, Schemas.ParseLogin(cfg.isEmail, body).data.email,
                              Schemas.ParseLogin(cfg.isEmail, body).data.password) != {}
  }

  /**
   * Database calls: 0 the strategy's query by email, 1 writing the session
   * record, 2 stamping `lastLoginAt` on the user.
   */
  function LoginUser(cfg: Config, db: Db, body: Schemas.LoginBody, sessionId: string, logInOk: bool, now: int, served: Served): (o: LoginOutcome)
    ensures o.response.status == 200 <==> LoginSucceeds(cfg, db, body, logInOk, served)
    ensures Schemas.ParseLogin(cfg.isEmail, body).Invalid? ==>
      o == LoginOutcome(ReturnErrorWithStatus(InvalidData + Join(Schemas.ParseLogin(cfg.isEmail, body).issues, ", "), 400), [], db, None)
    ensures Schemas.ParseLogin(cfg.isEmail, body).Valid? && served(0)
            && LocalStrategy.Matching(cfg.sha, db.users, Schemas.ParseLogin(cfg.isEmail, body).data.email,
                                      Schemas.ParseLogin(cfg.isEmail, body).data.password) == {} ==>
      o == LoginOutcome(ReturnErrorWithStatus(LocalStrategy.BadCredentials, 401), [], db, None)
    ensures o.db.otps == db.otps && o.db.users.Keys == db.users.Keys
    ensures o.response.status != 200 ==> o.cookies == [] && o.db.users == db.users
    ensures o.response.status != 200 && !SessionOrphaned(cfg, db, body, logInOk, served) ==> o.db == db
    ensures o.response.status == 200 ==> o.response.body.SuccessBody?
    ensures o.response.status == 200 ==>
      var c := Schemas.ParseLogin(cfg.isEmail, body).data;
      var ok := LocalStrategy.Matching(cfg.sha, db.users, c.email, c.password);
      var k := o.response.body.data.user.id;
      var pair := Jwt.GenerateTokenPair(cfg.signer, k, c.email, sessionId, now);
      && k in ok && (forall j | j in ok :: DocOrder.Below(j, k))
      && o.response.body.data.user.sessionId == sessionId
      && o.response.body.data.tokens == IssuedTokens(pair.accessToken, pair.refreshToken, Jwt.AccessTtlSeconds)
      && o.cookies == PairCookies(cfg, pair)
      && o.db.sessions == db.sessions[SessionKey(k, sessionId) := CreateSessionData(k, c.email, sessionId, now)]
      && o.db.users == db.users[k := db.users[k].(lastLoginAt := Some(now))]
      && o.passportUser == Some(k)
  {
    var parsed := Schemas.ParseLogin(cfg.isEmail, body);
    if parsed.Invalid? then
      LoginOutcome(ReturnErrorWithStatus(InvalidData + Join(parsed.issues, ", "), 400), [], db, None)
    else
      var c := parsed.data;
      match LocalStrategy.Verify(cfg.sha, db.users, c.email, c.password, served(0))
      case StrategyError => LoginOutcome(ReturnErrorObjectWithStatus(500), [], db, None)
      case Rejected(m) => LoginOutcome(ReturnErrorWithStatus(if m != "" then m else LocalStrategy.BadCredentials, 401), [], db, None)
      case Accepted(u) =>
        if !logInOk then LoginOutcome(ReturnErrorObjectWithStatus(500), [], db, None)
        else
          var k := u.id.value;
          // The strategy matched on the email, so `user.email` is the submitted one.
          var pair := Jwt.GenerateTokenPair(cfg.signer, k, c.email, sessionId, now);
          var held := LocalStrategy.SerializeUser(u);
          if !served(1) then LoginOutcome(ReturnErrorWithStatus(SessionSetupFailed, 500), [], db, held)
          else
            var sessions := db.sessions[SessionKey(k, sessionId) := CreateSessionData(k, c.email, sessionId, now)];
            if !served(2) then LoginOutcome(ReturnErrorWithStatus(SessionSetupFailed, 500), [], db.(sessions := sessions), held)
            else
              var users := db.users[k := db.users[k].(lastLoginAt := Some(now))];
              var view := LoginView(k, u.firstname, u.lastname, u.email, u.phone, u.city, u.country,
                                    u.emailVerify, u.phoneVerify, sessionId);
              LoginOutcome(ReturnSuccess(LoginData(view, IssuedTokens(pair.accessToken, pair.refreshToken, pair.expiresIn))),
                           PairCookies(cfg, pair), Db(users, db.otps, sessions), held)
  }

  /**
   * When stamping `lastLoginAt` fails after the session record was written,
   * the client gets a 500 and no tokens, yet the new record stays stored,
   * active and valid, under the user the strategy chose.
   */
  lemma FailedStampLeavesSession(cfg: Config, db: Db, body: Schemas.LoginBody, sessionId: string, logInOk: bool, now: int, served: Served)
    requires SessionOrphaned(cfg, db, body, logInOk, served)
    ensures var o := LoginUser(cfg, db, body, sessionId, logInOk, now, served);
            var c := Schemas.ParseLogin(cfg.isEmail, body).data;
            var k := DocOrder.Last(LocalStrategy.Matching(cfg.sha, db.users, c.email, c.password));
            && o.response == ReturnErrorWithStatus(SessionSetupFailed, 500)
            && o.cookies == []
            && o.db.users == db.users
            && o.db.sessions == db.sessions[SessionKey(k, sessionId) := CreateSessionData(k, c.email, sessionId, now)]
            && o.db.sessions[SessionKey(k, sessionId)].isActive
            && IsSessionValid(o.db.sessions[SessionKey(k, sessionId)], now)
  {
    var c := Schemas.ParseLogin(cfg.isEmail, body).data;
    var ok := LocalStrategy.Matching(cfg.sha, db.users, c.email, c.password);
    assert LocalStrategy.Verify(cfg.sha, db.users, c.email, c.password, served(0)).user.id == Some(DocOrder.Last(ok));
  }

  /**
   * Within fifteen minutes of a login, its access token, sent as a bearer
   * token, gets through the JWT guard as the user who logged in. The session
   * id is a UUID and no document id is empty, so the token's ids are usable
   * document paths.
   */
  lemma LoginThenAuthenticate(cfg: Config, db: Db, body: Schemas.LoginBody, sessionId: string, logInOk: bool,
                              now: int, served: Served, later: int, cookie: Option<string>, served2: Served)
    requires Jwt.Faithful(cfg.signer.codec)
    requires sessionId != "" && "" !in db.users
    requires LoginUser(cfg, db, body, sessionId, logInOk, now, served).response.status == 200
    requires now <= later && Jwt.Seconds(later) < Jwt.Seconds(now) + Jwt.AccessTtlSeconds
    requires served2(0) && served2(1) && served2(2)
    ensures var o := LoginUser(cfg, db, body, sessionId, logInOk, now, served);
            var req := AuthMiddleware.AuthRequest(Some(AuthMiddleware.BearerPrefix + o.response.body.data.tokens.accessToken), cookie, false);
            var g := AuthMiddleware.AuthenticateJWT(cfg.signer, o.db, req, later, served2).gate;
            g.Next? && g.user.Some? && g.user.value.id == o.response.body.data.user.id
            && g.user.value.sessionId == sessionId
  {
    var o := LoginUser(cfg, db, body, sessionId, logInOk, now, served);
    var c := Schemas.ParseLogin(cfg.isEmail, body).data;
    var k := o.response.body.data.user.id;
    var token := o.response.body.data.tokens.accessToken;
    var req := AuthMiddleware.AuthRequest(Some(AuthMiddleware.BearerPrefix + token), cookie, false);
    var pair := Jwt.GenerateTokenPair(cfg.signer, k, c.email, sessionId, now);
    assert token == pair.accessToken;
    assert token != "";
    AuthMiddleware.BearerRoundTrip(token, cookie, false);
    assert AuthMiddleware.ExtractToken(req) == Some(token);
    Jwt.AccessRoundTrip(cfg.signer, k, c.email, sessionId, now, later);
    var p := Jwt.Payload(k, c.email, sessionId, "access");
    assert Jwt.VerifyAccessToken(cfg.signer, token, later) == Some(p);
    assert k in db.users;
    assert AuthMiddleware.Addressable(p);
    var key := SessionKey(k, sessionId);
    assert AuthMiddleware.KeyOf(p) == key;
    assert o.db.sessions[key] == CreateSessionData(k, c.email, sessionId, now);
    assert IsSessionValid(o.db.sessions[key], later);
    assert k in o.db.users;
    assert AuthMiddleware.Admits(cfg.signer, o.db, AuthMiddleware.ExtractToken(req), later, served2);
  }

  // ----- refresh --------------------------------------------------------------

  /** The `refreshToken` cookie and the `refreshToken` field of the JSON body. */
  datatype RefreshRequest = RefreshRequest(cookie: Option<string>, body: Option<Json>)

  datatype RefreshData = RefreshData(accessToken: string, refreshToken: string, expiresIn: int)

  datatype RefreshOutcome = RefreshOutcome(response: Response<RefreshData>, cookies: seq<CookieOp>, sessions: map<SessionKey, SessionData>)

  /** `req.cookies?.refreshToken || req.body.refreshToken`. */
  function Candidate(req: RefreshRequest): (c: Option<Json>)
    ensures Filled(req.cookie) ==> c == Some(JStr(req.cookie.value))
    ensures !Filled(req.cookie) ==> c == req.body
  {
    if Filled(req.cookie) then Some(JStr(req.cookie.value)) else req.body
  }

  /** Everything the refresh needs to issue a new pair. */
  predicate RefreshSucceeds(cfg: Config, sessions: map<SessionKey, SessionData>, req: RefreshRequest, now: int, served: Served) {
    var c := Candidate(req);
    && c.Some? && c.value.JStr? && c.value.str != ""
    && Jwt.VerifyRefreshToken(cfg.signer, c.value.str, now).Some?
    && AuthMiddleware.Addressable(Jwt.VerifyRefreshToken(cfg.signer, c.value.str, now).value)
    && served(0) && served(1)
    && AuthMiddleware.KeyOf(Jwt.VerifyRefreshToken(cfg.signer, c.value.str, now).value) in sessions
    && IsSessionValid(sessions[AuthMiddleware.KeyOf(Jwt.VerifyRefreshToken(cfg.signer, c.value.str, now).value)], now)
  }

  /** Database calls: 0 reads the session record, 1 writes the bumped window. */
  function RefreshToken(cfg: Config, sessions: map<SessionKey, SessionData>, req: RefreshRequest, now: int, served: Served): (o: RefreshOutcome)
    ensures o.response.status == 200 <==> RefreshSucceeds(cfg, sessions, req, now, served)
    ensures !Truthy(Candidate(req)) ==> o == RefreshOutcome(ReturnErrorWithStatus(RefreshRequired, 401), [], sessions)
    ensures o.response.status != 200 ==> o.cookies == [] && o.sessions == sessions
    ensures Truthy(Candidate(req)) && !(Truthy(req.body) && Schemas.ParseRefreshToken(Candidate(req)).Invalid?)
            && Candidate(req).value.JStr?
            && Jwt.VerifyRefreshToken(cfg.signer, Candidate(req).value.str, now).Some?
            && !AuthMiddleware.Addressable(Jwt.VerifyRefreshToken(cfg.signer, Candidate(req).value.str, now).value) ==>
      o == RefreshOutcome(ReturnErrorWithStatus(RefreshFailed, 500), [], sessions)
    ensures o.response.status == 200 ==>
      var p := Jwt.VerifyRefreshToken(cfg.signer, Candidate(req).value.str, now).value;
      var pair := Jwt.GenerateTokenPair(cfg.signer, p.userId, p.email, p.sessionId, now);
      var key := AuthMiddleware.KeyOf(p);
      && o.response == ReturnSuccess(RefreshData(pair.accessToken, pair.refreshToken, pair.expiresIn))
      && o.cookies == PairCookies(cfg, pair)
      && o.sessions == sessions[key := UpdateSessionActivity(sessions[key], now)]
  {
    var c := Candidate(req);
    if !Truthy(c) then RefreshOutcome(ReturnErrorWithStatus(RefreshRequired, 401), [], sessions)
    else if Truthy(req.body) && Schemas.ParseRefreshToken(c).Invalid? then
      RefreshOutcome(ReturnErrorWithStatus(RefreshMalformed, 400), [], sessions)
    else if !c.value.JStr? then
      // `jwt.verify` throws on a non-string token, which `verifyRefreshToken` turns into null.
      RefreshOutcome(ReturnErrorWithStatus(RefreshRejected, 401), [], sessions)
    else
      var p := Jwt.VerifyRefreshToken(cfg.signer, c.value.str, now);
      if p.None? then RefreshOutcome(ReturnErrorWithStatus(RefreshRejected, 401), [], sessions)
      // An empty id makes the document path invalid, which throws.
      else if !AuthMiddleware.Addressable(p.value) || !served(0) then RefreshOutcome(ReturnErrorWithStatus(RefreshFailed, 500), [], sessions)
      else
        var key := AuthMiddleware.KeyOf(p.value);
        if key !in sessions then RefreshOutcome(ReturnErrorWithStatus(AuthMiddleware.SessionMissing, 401), [], sessions)
        else if !IsSessionValid(sessions[key], now) then RefreshOutcome(ReturnErrorWithStatus(AuthMiddleware.SessionLapsed, 401), [], sessions)
        else if !served(1) then RefreshOutcome(ReturnErrorWithStatus(RefreshFailed, 500), [], sessions)
        else
          var pair := Jwt.GenerateTokenPair(cfg.signer, p.value.userId, p.value.email, p.value.sessionId, now);
          RefreshOutcome(ReturnSuccess(RefreshData(pair.accessToken, pair.refreshToken, pair.expiresIn)),
                         PairCookies(cfg, pair), sessions[key := UpdateSessionActivity(sessions[key], now)])
  }

  /** A body token that is not a string is refused as malformed, unless a cookie token takes precedence. */
  lemma NonStringBodyTokenRefused(cfg: Config, sessions: map<SessionKey, SessionData>, n: int, now: int, served: Served)
    requires n != 0
    ensures RefreshToken(cfg, sessions, RefreshRequest(None, Some(JNum(n))), now, served).response
            == ReturnErrorWithStatus(RefreshMalformed, 400)
  {
  }

  /**
   * Refreshing does not retire the refresh token presented: at any later
   * instant at which that token is still unexpired and its bumped session
   * still runs, the same request succeeds again, for the same session, with
   * a pair issued at that instant.
   */
  lemma RefreshTokenReusable(cfg: Config, sessions: map<SessionKey, SessionData>, req: RefreshRequest, now: int, served: Served,
                             later: int, served2: Served)
    requires RefreshToken(cfg, sessions, req, now, served).response.status == 200
    requires now <= later < now + SessionExpiry
    requires Jwt.VerifyRefreshToken(cfg.signer, Candidate(req).value.str, later).Some?
    requires served2(0) && served2(1)
    ensures var p := Jwt.VerifyRefreshToken(cfg.signer, Candidate(req).value.str, now).value;
            var pair := Jwt.GenerateTokenPair(cfg.signer, p.userId, p.email, p.sessionId, later);
            var again := RefreshToken(cfg, RefreshToken(cfg, sessions, req, now, served).sessions, req, later, served2);
            && again.response.status == 200
            && again.response == ReturnSuccess(RefreshData(pair.accessToken, pair.refreshToken, pair.expiresIn))
    ensures later == now ==>
            RefreshToken(cfg, RefreshToken(cfg, sessions, req, now, served).sessions, req, later, served2).response
            == RefreshToken(cfg, sessions, req, now, served).response
  {
    var p := Jwt.VerifyRefreshToken(cfg.signer, Candidate(req).value.str, now).value;
    var key := AuthMiddleware.KeyOf(p);
    var after := RefreshToken(cfg, sessions, req, now, served).sessions;
    assert after[key] == UpdateSessionActivity(sessions[key], now);
    assert Jwt.VerifyRefreshToken(cfg.signer, Candidate(req).value.str, later).value == p;
    assert IsSessionValid(after[key], later);
  }

  // ----- logout ---------------------------------------------------------------

  /** `req.user` as logout reads it: the `_id` and `sessionId` fields, either possibly absent. */
  datatype RequestUser = RequestUser(id: Option<string>, sessionId: Option<string>)

  datatype LogoutOutcome = LogoutOutcome(response: Response<Message>, cookies: seq<CookieOp>, sessions: map<SessionKey, SessionData>)

  const ClearedTokenCookies: seq<CookieOp> := [ClearCookie("accessToken"), ClearCookie("refreshToken")]

  /**
   * Database calls: 0 reads the session record, 1 marks it inactive. A
   * missing record is not an error. An absent or empty `_id` makes the
   * document path invalid, which throws.
   */
  function LogoutUser(sessions: map<SessionKey, SessionData>, user: Option<RequestUser>, now: int, served: Served): (o: LogoutOutcome)
    ensures user.None? || !Filled(user.value.sessionId) ==>
      o == LogoutOutcome(ReturnErrorWithStatus(NoActiveSession, 400), [], sessions)
    ensures o.response.status == 200 <==>
      && user.Some? && Filled(user.value.sessionId) && Filled(user.value.id) && served(0)
      && (SessionKey(user.value.id.value, user.value.sessionId.value) in sessions ==> served(1))
    ensures o.response.status == 200 ==> o.response == ReturnSuccess(Message(LogoutDone)) && o.cookies == ClearedTokenCookies
    ensures o.response.status != 200 ==> o.cookies == [] && o.sessions == sessions
    ensures o.sessions.Keys == sessions.Keys
    ensures forall k | k in sessions && o.sessions[k] != sessions[k] ::
      k == SessionKey(user.value.id.value, user.value.sessionId.value)
      && o.sessions[k] == RevokeSession(sessions[k]).(loggedOutAt := Some(now))
  {
    if user.None? || !Filled(user.value.sessionId) then LogoutOutcome(ReturnErrorWithStatus(NoActiveSession, 400), [], sessions)
    else if !Filled(user.value.id) || !served(0) then LogoutOutcome(ReturnErrorWithStatus(LogoutFailed, 500), [], sessions)
    else
      var key := SessionKey(user.value.id.value, user.value.sessionId.value);
      if key !in sessions then LogoutOutcome(ReturnSuccess(Message(LogoutDone)), ClearedTokenCookies, sessions)
      else if !served(1) then LogoutOutcome(ReturnErrorWithStatus(LogoutFailed, 500), [], sessions)
      else
        var revoked := sessions[key].(isActive := false, loggedOutAt := Some(now));
        LogoutOutcome(ReturnSuccess(Message(LogoutDone)), ClearedTokenCookies, sessions[key := revoked])
  }

  /**
   * After a successful logout of the user the JWT guard let through, neither
   * that session's access token nor its refresh token is accepted any more,
   * at any later time, even though both still verify cryptographically.
   */
  lemma LogoutEndsSession(cfg: Config, db: Db, req: AuthMiddleware.AuthRequest, now: int, served: Served,
                          later: int, served2: Served, refresh: RefreshRequest, served3: Served)
    requires AuthMiddleware.AuthenticateJWT(cfg.signer, db, req, now, served).gate.Next?
    requires var g := AuthMiddleware.AuthenticateJWT(cfg.signer, db, req, now, served);
             LogoutUser(g.sessions, Some(RequestUser(Some(g.gate.user.value.id), Some(g.gate.user.value.sessionId))), now, served2).response.status == 200
    requires var c := Candidate(refresh);
             c.Some? && c.value.JStr? && Jwt.VerifyRefreshToken(cfg.signer, c.value.str, later).Some?
             && AuthMiddleware.KeyOf(Jwt.VerifyRefreshToken(cfg.signer, c.value.str, later).value)
                == AuthMiddleware.KeyOf(Jwt.VerifyAccessToken(cfg.signer, AuthMiddleware.ExtractToken(req).value, now).value)
    ensures var g := AuthMiddleware.AuthenticateJWT(cfg.signer, db, req, now, served);
            var out := LogoutUser(g.sessions, Some(RequestUser(Some(g.gate.user.value.id), Some(g.gate.user.value.sessionId))), now, served2);
            && AuthMiddleware.AuthenticateJWT(cfg.signer, db.(sessions := out.sessions), req, later, served3).gate.Halt?
            && RefreshToken(cfg, out.sessions, refresh, later, served3).response.status != 200
  {
    var g := AuthMiddleware.AuthenticateJWT(cfg.signer, db, req, now, served);
    var p := Jwt.VerifyAccessToken(cfg.signer, AuthMiddleware.ExtractToken(req).value, now).value;
    var key := AuthMiddleware.KeyOf(p);
    var out := LogoutUser(g.sessions, Some(RequestUser(Some(g.gate.user.value.id), Some(g.gate.user.value.sessionId))), now, served2);
    assert key in g.sessions;
    assert key == SessionKey(g.gate.user.value.id, g.gate.user.value.sessionId);
    assert !out.sessions[key].isActive;
    var p2 := Jwt.VerifyAccessToken(cfg.signer, AuthMiddleware.ExtractToken(req).value, later);
    if p2.Some? {
      assert Jwt.VerifyAccessToken(cfg.signer, AuthMiddleware.ExtractToken(req).value, later).value == p;
    }
  }
}
