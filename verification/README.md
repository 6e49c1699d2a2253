# Account and session core of the Talendy backend, in Dafny

This project models the authentication and account core of an Express
backend that keeps its users in Firestore. It covers two credential mechanisms:
- JWT access and refresh tokens bound to session records stored under each user;
- Passport sessions held in a Firestore-backed `express-session` store.

The modules follow the repository's files:

- `SessionRecords`, `Jwt` — src/configs/session/jwtService.ts: session records with rolling expiry, and issuing and verifying token pairs.
- `SessionStore` — src/configs/session/firebaseSessionStore.ts: the `express-session` store and its expiry sweep.
- `CleanupService` — src/configs/session/sessionCleanupService.ts: the periodic sweep and the session statistics.
- `AdminController` — src/routes/admin/sessionController.ts.
- `AuthMiddleware` — src/utils/utilities/authMiddleware.ts: token extraction and the JWT and session gates.
- `TokenRoutes` — the validated login and refresh controllers and src/routes/users/logoutUser.ts.
- `LocalStrategy` — src/configs/passportConfig.ts: the local strategy and user (de)serialisation.
- `PasswordHash`, `Base64` — src/utils/functions/encodedString.ts: salted SHA-256 hashing with Base64 output.
- `Accounts` — the user, OTP and session documents and the lookup helpers under src/routes/users/utils.
- `Schemas` — the zod schemas of src/routes/users/models/validation.schemas.ts.
- `AccountControllers` — the validated controllers under src/routes/users/controllers.
- `LegacyHandlers` — the unvalidated handlers that src/routes/users/router.ts:4-9 actually mounts.
- `Http` — the response envelopes of responseHelper.ts and returnError.ts.
- `Cors` — the origin check of src/app.ts.
- `Json`, `DocOrder`, `Wrappers` — shared vocabulary: JavaScript values and truthiness, Firestore's document order, `Option` and `Result`.

Everything is a pure function over immutable maps. The database is a map per
collection. The per-user `sessions` subcollections form one map keyed by
(user id, session id).
What the code gets from outside becomes a parameter:
- the current time, in integer milliseconds;
- the identifiers `uuid` would generate;
- whether each database call of a handler succeeds (`served(i)` for its i-th call);
- whether the mail was sent;
- whether Passport's `req.logIn` succeeded;
- the SHA-256 function;
- the JWT codec.

Two kinds of parameter are idealised:
- JWT signatures: a token parses back to exactly the claims and signing key it was serialized with.
- Firestore semantics, as the code relies on them:
  - `update` of a missing document throws, and so does `doc(undefined)`;
  - `delete` of a missing document succeeds;
  - a query visits documents in ascending id order;
  - deleting a user leaves its `sessions` subcollection in place.

## Model

| member | source | states |
|---|---|---|
| SessionRecords.CreateSessionData | src/configs/session/jwtService.ts:103-116 | a new record carries the given user id, email and session id; lastActivity and createdAt are `now`, expiresAt is `now` plus 365 days, it is active, and it is valid at its creation instant |
| SessionRecords.UpdateSessionActivity | src/configs/session/jwtService.ts:121-130 | lastActivity becomes `now` and expiresAt `now` plus 365 days; every other field, the active flag included, is kept |
| SessionRecords.RevokeSession | src/configs/session/jwtService.ts:143-148 | only the active flag changes, to false, and the result is invalid at every instant |
| SessionRecords.IsSessionValid | src/configs/session/jwtService.ts:135-138 | a record is valid only while active, never once its expiry instant has come, and always when it is active and that instant is still ahead |
| SessionRecords.ExpiryBoundary | src/configs/session/jwtService.ts:135-138 | an active record whose expiry equals `now` is invalid, one expiring a millisecond later is valid |
| SessionRecords.BumpsKeepActiveFlag | src/configs/session/jwtService.ts:121-130 | any sequence of activity bumps keeps the active flag, user id and session id |
| SessionRecords.RevokedStaysInvalid | src/configs/session/jwtService.ts:121-148 | a revoked record stays invalid at every instant after any number of bumps |
| SessionRecords.RollingPreserved | src/configs/session/jwtService.ts:103-148 | creation establishes expiresAt = lastActivity + 365 days, a bump re-establishes it, and revocation keeps it |
| SessionRecords.BumpExtendsExpiry | src/configs/session/jwtService.ts:121-130 | under that window, a bump at a later instant strictly extends the expiry |
| SessionRecords.BumpKeepsValid | src/configs/session/jwtService.ts:121-138 | bumping a valid record keeps it valid at the bump instant |
| Jwt.SecretsFromEnv | src/configs/session/jwtService.ts:6-7 | each secret is the environment value when that is set and non-empty, else its development default |
| Jwt.Sign | src/configs/session/jwtService.ts:40-50 | with a faithful codec the token is non-empty and decodes to the given payload and key, issuer 'talendy-backend', audience 'talendy-client', issued at the current second and expiring the given number of seconds later |
| Jwt.Verify | src/configs/session/jwtService.ts:65-68 | a token verifies exactly when it parses, its signature was made with the given key, issuer and audience match, and the current second is before its expiry; it then yields its payload |
| Jwt.GenerateTokenPair | src/configs/session/jwtService.ts:52-57 | the pair reports 900 s and 31 536 000 s as its lifetimes |
| Jwt.VerifyAccessToken | src/configs/session/jwtService.ts:63-78 | a payload is returned exactly when the token verifies under the access secret and its type is 'access', and the payload returned is the one the token carries |
| Jwt.VerifyRefreshToken | src/configs/session/jwtService.ts:83-98 | a payload is returned exactly when the token verifies under the refresh secret and its type is 'refresh', and the payload returned is the one the token carries |
| Jwt.PairPayloads | src/configs/session/jwtService.ts:25-50 | both tokens of a pair carry the same user id, email and session id, typed 'access' and 'refresh' and signed with the access and refresh secret respectively |
| Jwt.AccessRoundTrip | src/configs/session/jwtService.ts:25-78 | before its fifteen minutes elapse, the pair's access token verifies to exactly the user id, email and session id it was issued for |
| Jwt.RefreshRoundTrip | src/configs/session/jwtService.ts:25-98 | the refresh token likewise verifies to its issue data within 365 days |
| Jwt.AccessTokenExpires | src/configs/session/jwtService.ts:40-78 | from the fifteenth minute on the access token no longer verifies |
| Jwt.PairTokensNotInterchangeable | src/configs/session/jwtService.ts:25-98 | the pair's access token never verifies as a refresh token, nor the refresh token as an access token |
| Jwt.SecretsSeparateKinds | src/configs/session/jwtService.ts:63-98 | with distinct secrets, a token signed with the access secret never verifies as a refresh token, whatever its type claim, and vice versa |
| Jwt.DefaultSecretsDiffer | src/configs/session/jwtService.ts:6-7 | the two development default secrets differ |
| SessionStore.Get | src/configs/session/firebaseSessionStore.ts:19-43 | an absent id answers null and changes nothing; an expired cookie deletes the document and answers null; any other document is returned unchanged, however old; a read failure is an error |
| SessionStore.Merge | src/configs/session/firebaseSessionStore.ts:50-56 | the written document keeps every earlier top-level field the session does not carry, takes every field it does, and is stamped with `now` and its id; the nested cookie is replaced whole |
| SessionStore.Set | src/configs/session/firebaseSessionStore.ts:48-62 | a successful write stores the merge under the id and leaves every other document; a failed one changes nothing |
| SessionStore.Destroy | src/configs/session/firebaseSessionStore.ts:67-74 | removes exactly the given id, absent or not, and keeps every other document |
| SessionStore.Clear | src/configs/session/firebaseSessionStore.ts:79-93 | success leaves the collection empty, failure leaves it whole |
| SessionStore.Length | src/configs/session/firebaseSessionStore.ts:98-105 | the number of stored documents |
| SessionStore.All | src/configs/session/firebaseSessionStore.ts:110-123 | maps every stored id to its document |
| SessionStore.Touch | src/configs/session/firebaseSessionStore.ts:128-139 | rewrites only lastAccess and cookie of an existing document, and fails on an absent one |
| SessionStore.DestroyThenGet | src/configs/session/firebaseSessionStore.ts:19-25 | after destroy, get of that id answers null |
| SessionStore.SetThenGet | src/configs/session/firebaseSessionStore.ts:19-56 | after set, get before the cookie expires returns the merged document |
| SessionStore.Doomed | src/configs/session/firebaseSessionStore.ts:158-174 | a record with a cookie expiry is deleted exactly when that instant has come; one without is deleted exactly when its lastAccess lies more than 30 days back; one with neither is kept |
| SessionStore.DoomedIds | src/configs/session/firebaseSessionStore.ts:154-175 | the ids the sweep deletes are stored ids |
| SessionStore.Survivors | src/configs/session/firebaseSessionStore.ts:154-175 | the survivors are exactly the stored records that do not qualify, unchanged |
| SessionStore.Sweep | src/configs/session/firebaseSessionStore.ts:144-184 | a commit happens exactly when the read and commit succeed and some record qualifies, and leaves exactly the non-qualifying records; otherwise nothing changes and no error escapes |
| SessionStore.FutureCookieSurvives | src/configs/session/firebaseSessionStore.ts:158-164 | a record with a future cookie expiry survives, however old its last access |
| SessionStore.NothingDoomedNothingChanges | src/configs/session/firebaseSessionStore.ts:177-180 | when nothing qualifies no commit is made and nothing changes |
| SessionStore.SweepCount | src/configs/session/firebaseSessionStore.ts:154-180 | a successful sweep removes exactly the qualifying records |
| SessionStore.CleanupExpiredSessions | src/configs/session/firebaseSessionStore.ts:144-184 | the one-pass loop over the documents, counting and batching deletions, agrees with the sweep |
| CleanupService.GetStatus | src/configs/session/sessionCleanupService.ts:67-72 | reports the running flag and whether an interval is installed |
| CleanupService.Cleanup | src/configs/session/sessionCleanupService.ts:55-62 | a cleanup leaves either the whole store or exactly the survivors of the sweep |
| CleanupService.TimerDelay | src/configs/session/sessionCleanupService.ts:31-33 | the period a timer really uses lies between 1 ms and 2^31 − 1 ms; a requested delay in that range is kept, and NaN or any delay outside it becomes 1 ms |
| CleanupService.Start | src/configs/session/sessionCleanupService.ts:19-37 | a start while running changes nothing and sweeps nothing; otherwise it sweeps once, installs an interval whose period is what the timer makes of intervalHours × 3 600 000 ms, and sets the running flag |
| CleanupService.Stop | src/configs/session/sessionCleanupService.ts:42-50 | afterwards neither the running flag nor an interval is set |
| CleanupService.StopIdempotent | src/configs/session/sessionCleanupService.ts:42-50 | stopping twice is stopping once |
| CleanupService.StatusAfterStartStop | src/configs/session/sessionCleanupService.ts:19-72 | both status flags are up after a start from stopped, and both down after a stop |
| CleanupService.StatsOf | src/configs/session/sessionCleanupService.ts:94-115 | the total is the number of records and active plus expired equals the total |
| CleanupService.AllOf | src/configs/session/firebaseSessionStore.ts:110-123 | the store hands the statistics the whole mapping, or an error when the read fails |
| CleanupService.GetSessionStats | src/configs/session/sessionCleanupService.ts:82-118 | rejects exactly on a store error, yields zeros without a mapping, and otherwise the counts of the mapping |
| CleanupService.CountSessions | src/configs/session/sessionCleanupService.ts:94-115 | the counting loop agrees with the classification: expired iff the cookie expiry is present and not after `now`, active otherwise |
| CleanupService.ExpiredCountedIsDoomed | src/configs/session/sessionCleanupService.ts:98-108 | a record counted as expired is one the sweep deletes, and for records with a cookie expiry the two agree exactly |
| CleanupService.StaleCountsActiveButIsSwept | src/configs/session/sessionCleanupService.ts:106-108 | a stale record without a cookie expiry counts as active although the sweep deletes it |
| CleanupService.StatsPredictSweep | src/configs/session/sessionCleanupService.ts:94-115 | when every record has a cookie expiry, the expired count is what the sweep removes and the active count is what remains |
| CleanupService.GetSessionCleanupService | src/configs/session/sessionCleanupService.ts:122-129 | the first call builds a stopped service on its store; later calls return that same instance |
| CleanupService.SingletonIgnoresLaterStore | src/configs/session/sessionCleanupService.ts:124-129 | a second call with another store yields the first instance, still bound to the first store |
| AdminController.GetSessionStats | src/routes/admin/sessionController.ts:13-30 | answers 200 with the store counts (total, active plus expired equal to total, expired as classified) merged with the service status, or 500 with a fixed message when the store fails; nothing changes |
| AdminController.CleanupSessions | src/routes/admin/sessionController.ts:35-53 | sweeps first and reports statistics of what is left, read at a second instant that also stamps the report: after a successful sweep the total is the old total minus the swept records, and the expired count is the number of records whose cookie expired between the sweep and the statistics, so zero when the statistics read the clock no later than the sweep |
| AdminController.SweptExpiredOnlyInBetween | src/configs/session/sessionCleanupService.ts:94-108 | after a successful sweep at one instant, the records counted as expired at a later instant are exactly those whose cookie expiry falls after the first and no later than the second; none at all when the later reading is not after the sweep's |
| AdminController.ClearAllSessions | src/routes/admin/sessionController.ts:58-78 | answers 200 exactly when the store's clear succeeds, leaving it empty; otherwise 500 with nothing changed |
| AdminController.RestartInterval | src/routes/admin/sessionController.ts:89-90 | a truthy body value is used as it came, whatever its JSON type; a missing or falsy one falls back to 6 in production and 1 otherwise; the result is always truthy |
| AdminController.RestartCleanupService | src/routes/admin/sessionController.ts:83-103 | stop then start always sweeps once and ends running, with the period the timer makes of the chosen value converted to a number of hours, and answers 200 echoing the chosen value as it came |
| AdminController.RestartHonoursHours | src/routes/admin/sessionController.ts:89-93 | a value converting to 1 to 596 hours, a numeric string included, installs exactly that many hours |
| AdminController.RestartOutOfRangeSweepsEveryMillisecond | src/routes/admin/sessionController.ts:89-93 | a truthy value converting to NaN, to zero or fewer hours (the string "0", a negative number) or to 597 hours or more leaves the service sweeping every millisecond |
| AdminController.RestartLeavesRunning | src/routes/admin/sessionController.ts:92-93 | after a restart, even of a running service, both status flags are up |
| Http.ReturnErrorWithStatus | src/utils/utilities/responseHelper.ts:6-11 | the HTTP status is the given one, 500 by default, and the body holds the message and repeats the status |
| Http.ReturnErrorObjectWithStatus | src/utils/utilities/responseHelper.ts:6-11 | handed an Error object instead of a message, the answer has the given status, repeats it in the body, and carries the serialized object rather than a message text |
| Http.ReturnSuccess | src/utils/utilities/responseHelper.ts:16-22 | the HTTP status is the given one, 200 by default, and the body holds success true, the data and the status |
| Http.ReturnError | src/utils/utilities/returnError.ts:3-7 | the status is always 500 and the body's only field is the fixed prefix followed by the error's message when truthy, otherwise the error itself as a string |
| Http.EnvelopesCarryStatus | src/utils/utilities/responseHelper.ts:6-22 | the defaults are 500 and 200 and both envelopes repeat the HTTP status in the body |
| AuthMiddleware.BearerRoundTrip | src/utils/utilities/authMiddleware.ts:18-21 | a header "Bearer " + t yields exactly t, whatever the cookie holds, so the header wins over the cookie |
| AuthMiddleware.CookieFallback | src/utils/utilities/authMiddleware.ts:18-21 | without a header starting with the case-sensitive "Bearer " prefix, the access cookie is the token |
| AuthMiddleware.TextOrEmpty | src/utils/utilities/authMiddleware.ts:69-70 | a truthy name is kept, anything else becomes the empty string |
| AuthMiddleware.AuthenticateJWT | src/utils/utilities/authMiddleware.ts:11-81 | the request passes exactly when a truthy token verifies as an access token whose user and session ids are non-empty, its session record exists and is valid, and the user document exists; it then attaches the payload's ids and the user's names and has slid that one session's window; a verified token with an empty id is 500, since the document path throws; every refusal is 401 or 500; only a valid record is ever written, and only by the activity bump |
| AuthMiddleware.AuthenticateSession | src/utils/utilities/authMiddleware.ts:86-96 | passes exactly when Passport reports an authenticated session, otherwise 401 'Authentification requise' |
| AuthMiddleware.Authenticate | src/utils/utilities/authMiddleware.ts:101-122 | a truthy token always takes the JWT path; only without one does Passport decide |
| AuthMiddleware.BadTokenBeatsPassport | src/utils/utilities/authMiddleware.ts:112-114 | a token that fails verification is refused with 401 even when a Passport session exists |
| AuthMiddleware.EmptyBearerHidesCookie | src/utils/utilities/authMiddleware.ts:18-25 | a bare "Bearer " header yields the empty token and 401, even with an access cookie present |
| AuthMiddleware.AdmittedSessionStaysValid | src/utils/utilities/authMiddleware.ts:48-57 | after the guard lets a request through, its session stays valid for a full window from now |
| AuthMiddleware.MissingUserStillBumps | src/utils/utilities/authMiddleware.ts:52-63 | when the user document is gone, the session window of a token with non-empty ids is still extended before the 401 |
| TokenRoutes.PairCookies | src/routes/users/controllers/loginUser.ts:73-85 | two cookies, accessToken then refreshToken, each HttpOnly, SameSite lax, Secure only in production, living fifteen minutes and one year |
| TokenRoutes.CookieLifetimesMatchTokens | src/routes/users/controllers/refreshToken.ts:81-93 | for every issued pair, each cookie's lifetime in milliseconds is its token's lifetime as the pair reports it and as signed into the token, and the refresh cookie's equals the session lifetime |
| TokenRoutes.LoginUser | src/routes/users/controllers/loginUser.ts:18-119 | answers 200 exactly when the body validates, some user with that email has the matching password hash and every step succeeds; a schema failure is 400 before any lookup; no match is 401 'Email ou mot de passe incorrect'; on success the user is the last matching document, the stored record is the fresh session data for that user and session id, the pair is bound to that session, the cookies carry it, only lastLoginAt of that user changes, and the answer holds no password, salt or token; every failure sets no cookie and leaves the users as they were, and leaves the session records as they were too unless only the lastLoginAt stamp failed |
| TokenRoutes.LoginThenAuthenticate | src/routes/users/controllers/loginUser.ts:48-62 | within fifteen minutes of a login with a non-empty session id, and with no document under the empty id, its access token, sent as a bearer token, passes the JWT guard as the user and session that logged in |
| TokenRoutes.Candidate | src/routes/users/controllers/refreshToken.ts:27 | a truthy cookie is the candidate; otherwise the body field |
| TokenRoutes.RefreshToken | src/routes/users/controllers/refreshToken.ts:20-104 | answers 200 exactly when the candidate is a non-empty string that verifies as a refresh token with non-empty user and session ids, whose session record exists and is valid, and both database calls succeed; a verified token with an empty id is 500 'Erreur lors du rafraîchissement du token', since the document path throws; it then issues a pair for exactly that user, email and session, sets both cookies, and slides only that session's window; no candidate is 401 'Refresh token requis'; every refusal writes nothing |
| TokenRoutes.NonStringBodyTokenRefused | src/routes/users/controllers/refreshToken.ts:34-39 | a truthy non-string body token with no cookie is refused with 400 'Refresh token invalide' |
| TokenRoutes.RefreshTokenReusable | src/routes/users/controllers/refreshToken.ts:42-78 | nothing retires the presented refresh token: at any later instant at which it is unexpired and its bumped session still runs, the same request succeeds again with a pair for the same session, and at the same instant with the very same answer |
| TokenRoutes.FailedStampLeavesSession | src/routes/users/controllers/loginUser.ts:57-70 | when the session record was written but stamping lastLoginAt fails, the answer is 500 'Erreur lors de la création de la session' with no cookies, the users are unchanged, and the new session record stays stored, active and valid under the chosen user |
| TokenRoutes.LogoutUser | src/routes/users/logoutUser.ts:18-67 | no user or no session id is 400 'Aucune session active' with no write; success is reported whether or not the record exists; an existing record is only marked inactive with a logout time; nothing else changes; both token cookies are cleared |
| TokenRoutes.LogoutEndsSession | src/routes/users/logoutUser.ts:31-43 | after logging out a session the guard let through, neither its access token nor a refresh token of that session is accepted at any later time |
| Accounts.WithEmail | src/routes/users/controllers/createUser.ts:41-43 | the ids of exactly the user documents whose email field equals the given text |
| Accounts.WithToken | src/routes/users/utils/getUser.ts:17-18 | the ids of exactly the user documents whose token field equals the given text |
| Accounts.OtpMatches | src/routes/users/controllers/verifyUserEmail.ts:37-38 | the ids of exactly the OTP documents that name both the given owner and the given code |
| Accounts.IfFilled | src/routes/users/utils/getUser.ts:33-37 | a truthy value is kept and anything else is dropped |
| Accounts.View | src/routes/users/utils/getUser.ts:32-46 | gender, phone, birth date, city and country appear only when truthy; token, names, email, both verification flags, lastLoginAt and createAt are always copied; the type has no `_id`, password or salt |
| Accounts.GetUser | src/routes/users/utils/getUser.ts:8-59 | a falsy token is 'Pas de token' with no query, no match is 'Pas de users', a database failure is an error; a user is found exactly when the token is truthy, the query succeeds and some document holds the token, and the answer is the view of the last matching document in document-id order |
| Accounts.GetUserID | src/routes/users/utils/getUserID.ts:8-44 | a falsy token is 'Pas de token', no match 'Pas de users', a failure an error; it succeeds exactly when a truthy token matches some document, and then answers the stored `_id` field of the last match, not its document id |
| Accounts.GetUserIDOfUniqueToken | src/routes/users/utils/getUserID.ts:27-37 | when one document holds the token, the answer is that document's stored `_id` with code 200 |
| Accounts.CreateUserOTP | src/routes/users/utils/createUserOTP.ts:5-28 | stores a record with the fresh id, the owner's id and the generated code under that id and answers the same code; a failed write answers an error and stores nothing |
| Accounts.IssuedOtpMatches | src/routes/users/utils/createUserOTP.ts:9-15 | a freshly issued code is found by the query on owner and code |
| DocOrder.Last | src/routes/users/utils/getUserID.ts:29-32 | the document a forEach over a non-empty query visits last: a member of the matches that every match precedes in document-id order |
| PasswordHash.HashPassword | src/utils/functions/encodedString.ts:6-9 | the result is 44 characters, the last being the only '=' |
| PasswordHash.SameConcatenationSameHash | src/utils/functions/encodedString.ts:7 | the hash depends only on password + salt, so splits of the same text collide |
| PasswordHash.ShiftedSaltCollides | src/utils/functions/encodedString.ts:7 | ('ab', 'c') and ('a', 'bc') hash identically |
| PasswordHash.JsText | src/configs/passportConfig.ts:28 | an undefined salt joins the password as the text "undefined" |
| Base64.Group | src/utils/functions/encodedString.ts:7 | each group of up to three bytes becomes four characters, padded with '=' exactly where bytes are missing |
| Base64.EncodeLength | src/utils/functions/encodedString.ts:7 | the Base64 text of n bytes has 4 × ⌈n / 3⌉ characters |
| Base64.EncodeFullGroupsUnpadded | src/utils/functions/encodedString.ts:7 | input whose length is a multiple of three encodes with no '=' |
| Base64.EncodeOnePad | src/utils/functions/encodedString.ts:7 | input of length 2 modulo 3, such as a 32-byte digest, ends in exactly one '=' and has no other |
| LocalStrategy.Matching | src/configs/passportConfig.ts:26-34 | exactly the users with the given email whose stored hash equals the hash of the password with their stored salt |
| LocalStrategy.Verify | src/configs/passportConfig.ts:12-47 | a database failure is an error; otherwise the user is accepted exactly when some user with that email has a matching hash; the accepted user is the last such document with `_id` set to its document id; every rejection carries 'Email ou mot de passe incorrect' |
| LocalStrategy.FailuresLookAlike | src/configs/passportConfig.ts:19-38 | an unknown email and a wrong password get the identical rejection |
| LocalStrategy.StoredHashAccepted | src/configs/passportConfig.ts:26-34 | a user stored with hashPassword(p, salt) and that salt is accepted with p |
| LocalStrategy.SerializeUser | src/configs/passportConfig.ts:50-52 | the session keeps the user's `_id` |
| LocalStrategy.DeserializeUser | src/configs/passportConfig.ts:55-69 | a missing document yields false, an existing one the stored user with `_id` set to the document id, a failure an error |
| LocalStrategy.SerializeRoundTrip | src/configs/passportConfig.ts:41-69 | deserializing the serialized id of an accepted user restores that same user |
| Json.JsLength | src/routes/users/models/validation.schemas.ts:8-10 | the length zod checks counts UTF-16 code units: between the number of characters and twice it |
| Json.JsLengthOfBmpText | src/routes/users/models/validation.schemas.ts:8-10 | for text of Basic Multilingual Plane characters it is the number of characters |
| Json.FilledIsTruthy | src/routes/users/controllers/refreshToken.ts:27-29 | a string value is truthy exactly when it is present and non-empty |
| Schemas.Bounds | src/routes/users/models/validation.schemas.ts:8-10 | a string passes `min(lo).max(hi)` exactly when its length lies within the bounds |
| Schemas.StringIssues | src/routes/users/models/validation.schemas.ts:15-26 | a required bounded string field passes exactly when it is present, a string, and within its bounds |
| Schemas.EmailIssues | src/routes/users/models/validation.schemas.ts:5-7 | an email field passes exactly when it is a non-empty string the email format accepts |
| Schemas.OptionalStringIssues | src/routes/users/models/validation.schemas.ts:27-30 | an optional string field passes when absent or a string |
| Schemas.ParseLogin | src/routes/users/models/validation.schemas.ts:4-11 | the body validates exactly when the email is a non-empty well-formed string and the password a string of 6 to 100 characters; the data is those two strings and a failure carries at least one issue |
| Schemas.LoginPasswordBounds | src/routes/users/models/validation.schemas.ts:8-10 | a five-character password is refused and a hundred-character one accepted |
| Schemas.GenderIssues | src/routes/users/models/validation.schemas.ts:31 | gender passes exactly when absent or one of 'Homme' and 'Femme' |
| Schemas.BirthDateIssues | src/routes/users/models/validation.schemas.ts:28 | birthDate passes only when absent, since a JSON body carries no Date |
| Schemas.ParseSignup | src/routes/users/models/validation.schemas.ts:14-32 | the body validates exactly when the names are strings of 1 to 50 characters, the email is valid, the password has 6 to 100 characters, the optional fields are strings or absent, birthDate is absent and gender, if given, is 'Homme' or 'Femme'; the data carries exactly the declared fields |
| Schemas.ParseRefreshToken | src/routes/users/models/validation.schemas.ts:35-37 | valid exactly for a non-empty string, which is the data |
| Schemas.ParsePasswordChange | src/routes/users/models/validation.schemas.ts:40-46 | valid exactly when the current password has at least 6 characters and the new one 6 to 100; the data has no token field |
| Schemas.CurrentPasswordUnbounded | src/routes/users/models/validation.schemas.ts:41-42 | a 101-character current password is accepted |
| AccountControllers.Refused | src/routes/users/controllers/createUser.ts:31-36 | a schema failure answers 400 with the error envelope |
| AccountControllers.NewUser | src/routes/users/controllers/createUser.ts:50-65 | the stored user has the fresh id, token and salt, the validated fields, both verification flags false, both dates `now`, and a password hash the local strategy accepts for the chosen password |
| AccountControllers.CreateUser | src/routes/users/controllers/createUser.ts:23-104 | answers 201 exactly when the body validates, no user has that email, and the duplicate query and user write succeed; a schema failure is 400 and a duplicate 409, both with no write; on success the user is written before the OTP, a failed OTP write keeps the user and skips the mail, the message carries exactly one of the three suffixes, the answer has the new token and no password or salt; unique emails stay unique |
| AccountControllers.SignupMessage | src/routes/users/controllers/createUser.ts:67-84 | every message starts 'Utilisateur créé avec succès'; a failed OTP write gets its own suffix whatever the mail did, otherwise a sent and an unsent mail each get theirs, and each suffix is given in exactly its one case |
| AccountControllers.SignupKeepsEmailsUnique | src/routes/users/controllers/createUser.ts:42-48 | writing a user whose email no document carries keeps emails unique |
| AccountControllers.CreateUserAsWritten | src/routes/users/controllers/createUser.ts:54-69 | as written, a signup that passes validation and the duplicate check without a gender answers 500 and writes nothing; every other request behaves as the corrected handler |
| AccountControllers.SignupWithoutGenderFails | src/routes/users/controllers/createUser.ts:54-69 | as written, no signup without a gender ever answers 201 or changes the database |
| AccountControllers.SignupWithoutGenderSucceeds | src/routes/users/controllers/createUser.ts:54-69 | corrected, a signup without a gender answers 201 whenever validation and the database allow it |
| AccountControllers.SignupThenLogin | src/routes/users/controllers/createUser.ts:50-69 | right after a signup the local strategy accepts the new email with the chosen password, as the new user |
| AccountControllers.ChangePassword | src/routes/users/controllers/updateUserPassword.ts:39-58 | answers 200 exactly when the token lookup succeeds and the update reaches an existing document; a failed lookup is 500 'Impossible de modifier le mot de passe !'; success writes exactly fresh token, fresh salt and the new hash to that user; sessions and OTPs are never touched |
| AccountControllers.UpdateUserPasswordAsWritten | src/routes/users/controllers/updateUserPassword.ts:21-59 | as written, a schema failure is 400, and a valid body looks the user up with no token at all |
| AccountControllers.PasswordChangeAlwaysFails | src/routes/users/controllers/updateUserPassword.ts:37-43 | as written, no request ever changes a password: a valid body always ends in 500 'Impossible de modifier le mot de passe !' with no write |
| AccountControllers.TokenText | src/routes/users/controllers/updateUserPassword.ts:37 | the body token's text when it is a string, none otherwise |
| AccountControllers.UpdateUserPassword | src/routes/users/controllers/updateUserPassword.ts:21-59 | corrected, a schema failure is 400 and a valid body changes the password of the user the body's token names |
| AccountControllers.CurrentPasswordIgnored | src/routes/users/controllers/updateUserPassword.ts:37-53 | the value of the current password never affects the outcome |
| AccountControllers.NewPasswordTakesOver | src/routes/users/controllers/updateUserPassword.ts:45-53 | after a corrected change the new password logs in, the old token names no user, and every JWT session is exactly as before |
| AccountControllers.Patch | src/routes/users/controllers/updateUserInfos.ts:43-49 | exactly the defined fields among firstname, lastname, city, country and birthDate take their new values; every other field is kept |
| AccountControllers.UpdateUserInfosAsWritten | src/routes/users/controllers/updateUserInfos.ts:15-24 | as written, every request answers 500 'Erreur lors de la mise à jour des infos' and changes nothing, because the imported schema does not exist |
| AccountControllers.ProfileUpdateAlwaysFails | src/routes/users/controllers/updateUserInfos.ts:15-58 | as written, a request the corrected handler would serve with 200 gets 500 instead and writes nothing |
| AccountControllers.UpdateUserInfos | src/routes/users/controllers/updateUserInfos.ts:17-60 | corrected, with the intended validation's outcome as input: a schema failure is 400 and a failed lookup 500, both with no write; with no defined field nothing is written and the answer is still success; otherwise success writes the patch to the token owner; a refusal never writes |
| AccountControllers.ProfileUpdateApplied | src/routes/users/controllers/updateUserInfos.ts:33-56 | corrected, a valid update carrying a user's unique token answers 200 and writes exactly its defined fields into that user's document, or nothing when no field is defined |
| AccountControllers.EmptyStringIsWritten | src/routes/users/controllers/updateUserInfos.ts:45-49 | a defined empty string is written |
| AccountControllers.InfosKeepCredentials | src/routes/users/controllers/updateUserInfos.ts:44-53 | email, password, salt, token and both verification flags of every user survive a profile update |
| AccountControllers.OtpIdsOf | src/routes/users/controllers/verifyUserEmail.ts:46-49 | the deleted documents are exactly the stored `_id`s of the matches |
| AccountControllers.VerifyUserEmail | src/routes/users/controllers/verifyUserEmail.ts:17-57 | a missing token or code is 400; success exactly when the lookup resolves, some OTP document has that owner and code, and the user update succeeds on a non-empty id naming an existing document; no match is 400 'Code incorrect !' with nothing changed; a match deletes the matching OTP documents; success sets only emailVerify of that user; a failure never changes any user |
| AccountControllers.CodeIsSingleUse | src/routes/users/controllers/verifyUserEmail.ts:37-51 | replaying the request that verified the email is refused as 'Code incorrect !' |
| AccountControllers.ForeignCodeRejected | src/routes/users/controllers/verifyUserEmail.ts:37-42 | a code issued to another user never verifies this one |
| AccountControllers.DeleteUserAccount | src/routes/users/controllers/deleteUserAccount.ts:16-43 | a missing token is 400 and a failed lookup 500, both with no delete; success exactly when the lookup yields a non-empty id and the delete succeeds, so an absent or empty stored `_id` is 500; success removes only that user document, keeping OTP and session records |
| AccountControllers.DeletedAccountLockedOut | src/routes/users/controllers/deleteUserAccount.ts:36 | after deletion a still-valid session of that user is refused with 401 at the user lookup, its window bumped as before |
| AccountControllers.WithNewPassword | src/routes/users/controllers/updateUserPassword.ts:46-53 | the rewritten user carries the fresh token and salt, and the local strategy's password check accepts the new password against it |
| LegacyHandlers.LookupThrown | src/routes/users/loginUser.ts:55-57 | a failed lookup hands on its reason text, or the caught error when the query failed |
| LegacyHandlers.ChosenToken | src/routes/users/loginUser.ts:38-47 | no token without a user whose hash matches; otherwise the token, possibly absent, of the matching document that comes last in document-id order, as the overwriting `forEach` leaves it |
| LegacyHandlers.LoginUser | src/routes/users/loginUser.ts:19-63 | always 200 or 500; a missing email or password is 500 'Paramètres incorrects !'; success exactly when a matching user's token is truthy and both database calls succeed, answering the getUser projection for that token, with no session record and no token pair; no match is "Pas d'utilisateur" |
| LegacyHandlers.LoginFailuresLookAlike | src/routes/users/loginUser.ts:34-51 | an unknown email and a wrong password get the identical answer |
| LegacyHandlers.LoginReturnsOwnProfile | src/routes/users/loginUser.ts:38-59 | a user whose token is unique gets their own profile back |
| LegacyHandlers.Stored | src/routes/users/createUser.ts:33-47 | the body is stored as given except the server-chosen id, token, salt, hash, both flags and both dates, which override it |
| LegacyHandlers.LegacySignupMessage | src/routes/users/createUser.ts:49-64 | empty exactly when both the OTP and the mail succeed; a mail failure overwrites an OTP failure; an OTP failure with a sent mail keeps the OTP message |
| LegacyHandlers.CreateUser | src/routes/users/createUser.ts:21-70 | a missing body is 500; success exactly when the user write succeeds, answering 200 with the token and message; the body is stored under the fresh id with no duplicate check; the OTP outcome decides the OTP map; failures write nothing |
| LegacyHandlers.DuplicateSignup | src/routes/users/createUser.ts:27-51 | signing up twice with one email leaves two accounts with it |
| LegacyHandlers.UpdateUserPassword | src/routes/users/updateUserPassword.ts:19-51 | a missing token or new password is 500 'Paramètres incorrects !'; a failed lookup 500 with no write; success exactly when the update reaches an existing document, writing fresh token, salt and hash; sessions and OTPs stay |
| LegacyHandlers.OneCharacterPasswordAccepted | src/routes/users/updateUserPassword.ts:25-47 | a one-character new password is accepted |
| LegacyHandlers.SetField | src/routes/users/updateUserInfos.ts:49-63 | a single-field update changes that one field only |
| LegacyHandlers.Writes | src/routes/users/updateUserInfos.ts:49-63 | at most five updates are issued, none with an empty value |
| LegacyHandlers.ReplayConcat | src/routes/users/updateUserInfos.ts:49-63 | applying two runs of updates in turn is applying their concatenation |
| LegacyHandlers.ReplayChunk | src/routes/users/updateUserInfos.ts:49-51 | a field's update sets it when the value is truthy and does nothing otherwise |
| LegacyHandlers.ReplayOfWrites | src/routes/users/updateUserInfos.ts:49-63 | all updates of a request together set exactly the truthy fields and keep every other field |
| LegacyHandlers.ApplyWrites | src/routes/users/updateUserInfos.ts:49-63 | the updates run in order until one fails; other documents never change; a full run applies every update to the named document, and only an existing document can be updated |
| LegacyHandlers.UpdateUserInfos | src/routes/users/updateUserInfos.ts:15-69 | a missing token is 500 and a failed lookup 500, both with no write; success exactly when every issued update succeeds; with no truthy field there is no write and still 200 |
| LegacyHandlers.InfosPatchTruthyFields | src/routes/users/updateUserInfos.ts:49-65 | a successful update writes exactly the truthy fields into the token owner's document; empty strings are skipped and nothing else changes |
| LegacyHandlers.VerifyUserEmail | src/routes/users/verifyUserEmail.ts:16-56 | every failure, a wrong code included, is 500; success exactly when the code matches and the user update succeeds on a non-empty id naming an existing document, deleting the matching OTPs and setting only emailVerify |
| LegacyHandlers.VerifyVersionsAgree | src/routes/users/verifyUserEmail.ts:24-50 | the legacy and validated handlers change the database identically and succeed on the same requests; only the answers differ |
| LegacyHandlers.DeleteUserAccount | src/routes/users/deleteUserAccount.ts:15-42 | a missing token or failed lookup is 500 with no delete; success exactly when the lookup yields a non-empty id and the delete succeeds, so an absent or empty stored `_id` is 500; success removes only that user document, with 200 and the fixed message |
| LegacyHandlers.DeleteRemovesTokenOwner | src/routes/users/deleteUserAccount.ts:27-37 | deleting by a unique token removes the user it belongs to, when its `_id` names its own document; when that `_id` is empty nothing is deleted and the answer is the 500 error |
| Cors.CheckOrigin | src/app.ts:24-32 | an origin is allowed exactly when absent, empty or one of the three listed localhost origins; any other is rejected with 'Not allowed by CORS' |
| Cors.ListedOriginsAllowed | src/app.ts:18-22 | each listed localhost origin, spelled exactly, is allowed |
| Cors.NoNormalisation | src/app.ts:26 | for every listed origin, the same text with a trailing slash, or with its scheme in capitals, is rejected |
| Cors.AllowedIsLocalHttp | src/app.ts:18-27 | every allowed non-empty origin is plain http on localhost |

## Left out

- Timers: `setInterval` and `clearInterval` in sessionCleanupService.ts are replaced by a record of the installed period. A start runs its first sweep at once; later ticks are not modelled, because they depend on the event loop.
- Concurrency: every handler runs its awaited calls in sequence, and no two requests interleave. Races between concurrent requests on one document are not modelled.
- Unawaited OTP deletes in verifyUserEmail.ts are assumed to succeed, because the handler never observes their outcome.
- Cryptography is an oracle. SHA-256 is an uninterpreted 32-byte digest function. JWT signing and verification are an ideal codec. UUID generation and the OTP code generator are parameters. Only the Base64 encoding of the digest is written out.
- zod's email regular expression is the oracle `isEmail`, because the model does not contain the regex engine.
- Sending the confirmation mail is the flag `mailOk`, because the mail transport is outside the backend.
- Passport and express-session internals are reduced to booleans: `isAuthenticated()` and the outcome of `req.logIn`. `req.logout` and `req.session.destroy` in logoutUser.ts are not modelled, because their errors are only logged and never change the response.
- Dates and timestamps are integer milliseconds. Within one handler, `Timestamp.now()`, `new Date()` and `toISOString()` are represented by one clock value `now`. The exception is `AdminController.CleanupSessions`, where the sweep (src/configs/session/firebaseSessionStore.ts:145) and the statistics (src/configs/session/sessionCleanupService.ts:94) read the clock on either side of several awaited database calls. There the statistics and the report take a second instant, `statsNow`.
- The sweep's arithmetic on the 30-day staleness threshold uses integer milliseconds rather than floating point.
- The outer `catch` of the validated login handler is not modelled as a separate path, because no modelled step throws past the inner error handling.
- PasswordHash.HashPassword: strings are sequences of Unicode scalar values, so a request text carrying an unpaired UTF-16 surrogate, such as the JSON password `"\ud800abcde"`, cannot be expressed. crypto-js converts its input to UTF-8 with `unescape(encodeURIComponent(s))`, which throws URIError on such text. The source then answers 500: in the validated login through the strategy's `done(error)`, in the validated signup and the corrected password change through their `catch`, and through `returnError` in the legacy handlers. The model has no such path.
- Json.JsLength: counts the UTF-16 code units of scalar-value text only. The unpaired surrogate above counts as one code unit in zod, so that password passes the six-character minimum before hashing throws.
- Firestore document paths: an `_id` read from a stored document or from the request user and used as a path throws when it is absent or empty. This holds in deletion, email verification, the password and profile updates and logout. It also holds for the user and session ids of a verified token in `AuthMiddleware.AuthenticateJWT` and `TokenRoutes.RefreshToken`, which answer 500 for them. Ids that are map keys are taken to be non-empty, as Firestore document ids always are. The model's maps do not enforce that, so the lemmas about a user's own document require a non-empty key. The session id that `TokenRoutes.LoginUser` takes stands for a fresh UUID and is not constrained there. `TokenRoutes.LoginThenAuthenticate` requires it to be non-empty. Other malformed paths, such as an id containing '/', are not modelled.
- JSON numbers in request bodies are integers in this model. A fractional `intervalHours` such as 0.5 cannot be expressed, and JavaScript's conversion of a string or object to a number is the parameter `coerce`.
- The legacy handlers of src/routes/users, and `AccountControllers.VerifyUserEmail` and `AccountControllers.DeleteUserAccount`, take their body fields as strings or absent. The source reads those fields from the raw request body. A non-string JSON value in them is not modelled, because the handlers' own type annotations assume strings.
- SessionStore.Merge: replaces the nested `cookie` object whole. Firestore's `set` with `merge: true` merges nested maps field by field, so a cookie sub-field that the new cookie lacks would survive there. The model keeps the cookie as one value, because the only cookie sub-field the code reads is `expires`. The two behaviours differ only when a new cookie has no `expires` and the stored cookie has one: Firestore would keep the old expiry, and the model drops it.
- controllers/updateUserInfos.ts imports `UpdateUserInfosSchema`, which validation.schemas.ts does not define, so its rules are unknown. The handler as written always fails (see Findings). The corrected `AccountControllers.UpdateUserInfos` therefore takes the outcome of the intended validation as a parameter, and the rules of that schema are not modelled.
- The `sessionConfig` instances that sessionController.ts imports are not part of this model. The admin endpoints take the cleanup service and the store as parameters.
- Routing, file upload, logging, the OpenAPI documents and process start-up are not modelled. The model covers only which handler src/routes/users/router.ts mounts.
- Http.ReturnErrorObjectWithStatus: does not model the content of the serialized error object. That content is each thrown object's own enumerable fields, which the model does not track: `{}` for a plain Error, but `code`, `details` and `metadata` for a Firestore error.
- AuthMiddleware.ExtractToken: carries no `ensures` of its own. Its behaviour is stated by `BearerRoundTrip`, `CookieFallback` and `EmptyBearerHidesCookie`: the header wins, the "Bearer " prefix is case-sensitive, and the cookie is the fallback.
- Removal of per-user JWT session records: no code path removes them, so the model has no such operation. Logout (src/routes/users/logoutUser.ts:31-43) marks the record inactive and keeps it. The periodic sweep (src/configs/session/sessionCleanupService.ts:55-62) works on the express-session store only.
- Email uniqueness across all users: the model does not hold it as an invariant, because only the validated signup checks it (`AccountControllers.SignupKeepsEmailsUnique`). The legacy signup that src/routes/users/router.ts mounts does not check it (`LegacyHandlers.DuplicateSignup`).

## Findings

| source | as written | input that shows it | evidently intended | confidence | as-written member | corrected member |
|---|---|---|---|---|---|---|
| src/routes/users/controllers/updateUserPassword.ts:37-43 | the token is read from the zod-parsed body, but UpdatePasswordSchema declares no token field and zod drops undeclared keys, so the lookup always runs on an undefined token and fails. Reading `.token` is also TypeScript error TS2339, which ts-loader reports (webpack.config.ts:25). A production build then emits no bundle, so this describes the bundle a development build emits despite the error (webpack.config.ts:34) | any body that passes the schema, e.g. `{token: "t", currentPassword: "secret1", newPassword: "secret2"}` with `t` a user's token | look the user up by the request's token | high, not executed | AccountControllers.UpdateUserPasswordAsWritten, AccountControllers.PasswordChangeAlwaysFails | AccountControllers.UpdateUserPassword, AccountControllers.NewPasswordTakesOver |
| src/routes/users/controllers/updateUserInfos.ts:15-24 | the handler imports `UpdateUserInfosSchema`, which validation.schemas.ts never defines; the name is `undefined` at run time, so `safeParse` throws inside the `try` and every request answers 500 'Erreur lors de la mise à jour des infos' without writing. The missing export is also TypeScript error TS2305, which ts-loader reports (webpack.config.ts:25). A production build then emits no bundle, so this describes the bundle a development build emits despite the error (webpack.config.ts:34) | any request, e.g. `{token: t, city: "Paris"}` with `t` a user's token | validate the body with a profile-update schema, then write the defined fields to the token owner | high, not executed | AccountControllers.UpdateUserInfosAsWritten, AccountControllers.ProfileUpdateAlwaysFails | AccountControllers.UpdateUserInfos, AccountControllers.ProfileUpdateApplied |
| src/routes/users/controllers/createUser.ts:54-69 | the new user document always has a `gender` key, which is `undefined` when the optional field is omitted; Firestore rejects `undefined` field values by default, so the write throws and signup answers 500 | a valid signup body without `gender` and with an unused email | gender is optional, so a signup without it should be stored and answer 201 | medium, not executed | AccountControllers.CreateUserAsWritten, AccountControllers.SignupWithoutGenderFails | AccountControllers.CreateUser, AccountControllers.SignupWithoutGenderSucceeds |
