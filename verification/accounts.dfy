/**
 * The Firestore collections behind the account handlers, as maps keyed by
 * document id, and the lookups of src/routes/users/utils: `getUser`,
 * `getUserID` and `createUserOTP`.
 *
 * Deleting users/{id} does not delete its sessions subcollection, so the
 * per-user JWT session records are a map of their own, keyed by
 * (userId, sessionId).
 */
module Accounts {
  import opened Wrappers
  import opened Json
  import DocOrder
  import SessionRecords

  /**
   * A user document. Every field is optional at run time (the legacy signup
   * stores the request body as given); `id` is the stored `_id` field, which
   * need not equal the document id. `extra` holds any other fields.
   */
  datatype User = User(
    id: Option<string>,
    email: Option<string>,
    firstname: Option<string>,
    lastname: Option<string>,
    token: Option<string>,
    salt: Option<string>,
    password: Option<string>,
    gender: Option<string>,
    phone: Option<string>,
    birthDate: Option<string>,
    city: Option<string>,
    country: Option<string>,
    phoneVerify: Option<bool>,
    emailVerify: Option<bool>,
    lastLoginAt: Option<int>,
    createAt: Option<int>,
    extra: map<string, string>)

  /** A mail OTP document: its own `_id`, the owner's id and the code. */
  datatype Otp = Otp(id: string, userId: string, code: string)

  /** users/{userId}/sessions/{sessionId}. */
  datatype SessionKey = SessionKey(userId: string, sessionId: string)

  datatype Db = Db(
    users: map<string, User>,
    otps: map<string, Otp>,
    sessions: map<SessionKey, SessionRecords.SessionData>)

  /**
   * Database availability as seen by one handler: `served(i)` holds when the
   * i-th database call the handler issues succeeds. A failing call throws into
   * the handler's catch block.
   */
  type Served = nat -> bool

  /** `where('email', '==', email)`. */
  function WithEmail(users: map<string, User>, email: string): (ids: set<string>)
    ensures forall k :: k in ids <==> k in users && users[k].email == Some(email)
  {
    set k | k in users && users[k].email == Some(email)
  }

  /** `where('token', '==', token)`. */
  function WithToken(users: map<string, User>, token: string): (ids: set<string>)
    ensures forall k :: k in ids <==> k in users && users[k].token == Some(token)
  {
    set k | k in users && users[k].token == Some(token)
  }

  /** `where('_userID', '==', userId).where('OTP', '==', code)`. */
  function OtpMatches(otps: map<string, Otp>, userId: string, code: string): (ids: set<string>)
    ensures forall k :: k in ids <==> k in otps && otps[k].userId == userId && otps[k].code == code
  {
    set k | k in otps && otps[k].userId == userId && otps[k].code == code
  }

  /** Firestore `update` throws for a document that does not exist, and `doc` for an undefined or empty id. */
  predicate Updatable(users: map<string, User>, id: Option<string>) {
    Filled(id) && id.value in users
  }

  /** The answer shape of the lookup helpers: `{ code: 200, data }` or `{ code: 500, data: reason }`. */
  datatype Lookup<T> = Found(data: T) | NoToken | NoUsers | LookupError {
    function Code(): int {
      if Found? then 200 else 500
    }
    /** The `data` of a failed lookup, as a caller passing it on sees it. */
    function Reason(): string {
      match this
      case Found(_) => ""
      case NoToken => "Pas de token"
      case NoUsers => "Pas de users"
      case LookupError => "database call failed"
    }
  }

  /** What `getUser` returns: the user without `_id`, `password` or `salt`. */
  datatype UserView = UserView(
    gender: Option<string>,
    phone: Option<string>,
    birthDate: Option<string>,
    city: Option<string>,
    country: Option<string>,
    token: Option<string>,
    firstname: Option<string>,
    lastname: Option<string>,
    email: Option<string>,
    phoneVerify: Option<bool>,
    emailVerify: Option<bool>,
    lastLoginAt: Option<int>,
    createAt: Option<int>)

  /** A field copied only when truthy: `...(v ? { f: v } : {})`. */
  function IfFilled(v: Option<string>): (r: Option<string>)
    ensures Filled(v) ==> r == v
    ensures !Filled(v) ==> r.None?
  {
    if Filled(v) then v else None
  }

  /** The projection `getUser` builds for each match. */
  function View(u: User): (v: UserView)
    ensures v.gender == IfFilled(u.gender) && v.phone == IfFilled(u.phone)
    ensures v.birthDate == IfFilled(u.birthDate) && v.city == IfFilled(u.city) && v.country == IfFilled(u.country)
    ensures v.token == u.token && v.firstname == u.firstname && v.lastname == u.lastname && v.email == u.email
    ensures v.phoneVerify == u.phoneVerify && v.emailVerify == u.emailVerify
    ensures v.lastLoginAt == u.lastLoginAt && v.createAt == u.createAt
  {
    UserView(IfFilled(u.gender), IfFilled(u.phone), IfFilled(u.birthDate), IfFilled(u.city), IfFilled(u.country),
             u.token, u.firstname, u.lastname, u.email, u.phoneVerify, u.emailVerify, u.lastLoginAt, u.createAt)
  }

  /**
   * `getUser(token)`: no query for a falsy token; otherwise the projection of
   * the last match in document-id order.
   */
  function GetUser(users: map<string, User>, token: Option<string>, up: bool): (r: Lookup<UserView>)
    ensures !Filled(token) ==> r == NoToken
    ensures Filled(token) && !up ==> r == LookupError
    ensures Filled(token) && up && WithToken(users, token.value) == {} ==> r == NoUsers
    ensures r.Found? <==> Filled(token) && up && WithToken(users, token.value) != {}
    ensures r.Found? ==>
      exists k :: && k in WithToken(users, token.value)
                  && r.data == View(users[k])
                  && forall j | j in WithToken(users, token.value) :: DocOrder.Below(j, k)
  {
    if !Filled(token) then NoToken
    else if !up then LookupError
    else
      var ids := WithToken(users, token.value);
      if ids == {} then NoUsers
      else Found(View(users[DocOrder.Last(ids)]))
  }

  /**
   * `getUserID(token)`: the stored `_id` field (possibly undefined) of the last
   * match, not its document id.
   */
  function GetUserID(users: map<string, User>, token: Option<string>, up: bool): (r: Lookup<Option<string>>)
    ensures !Filled(token) ==> r == NoToken
    ensures Filled(token) && !up ==> r == LookupError
    ensures Filled(token) && up && WithToken(users, token.value) == {} ==> r == NoUsers
    ensures r.Found? <==> Filled(token) && up && WithToken(users, token.value) != {}
    ensures r.Found? ==>
      exists k :: && k in WithToken(users, token.value)
                  && r.data == users[k].id
                  && forall j | j in WithToken(users, token.value) :: DocOrder.Below(j, k)
  {
    if !Filled(token) then NoToken
    else if !up then LookupError
    else
      var ids := WithToken(users, token.value);
      if ids == {} then NoUsers
      else Found(users[DocOrder.Last(ids)].id)
  }

  /** With a single matching document, `getUserID` answers its stored `_id`. */
  lemma GetUserIDOfUniqueToken(users: map<string, User>, k: string, token: string)
    requires token != ""
    requires WithToken(users, token) == {k}
    ensures GetUserID(users, Some(token), true) == Found(users[k].id)
  {
    DocOrder.LastOfSingleton(k);
  }

  datatype OtpIssued = OtpIssued(reply: Result<string>, otps: map<string, Otp>)

  /**
   * `createUserOTP(userId)`: store `{ _id, _userID, OTP }` under its own `_id`
   * and answer the code; a failing write answers an error and stores nothing.
   */
  function CreateUserOTP(otps: map<string, Otp>, userId: string, otpId: string, code: string, up: bool): (r: OtpIssued)
    ensures up ==> r.reply == Success(code)
    ensures up ==> r.otps == otps[otpId := Otp(otpId, userId, code)]
    ensures up ==> r.otps[otpId].id == otpId && r.otps[otpId].userId == userId && r.otps[otpId].code == r.reply.value
    ensures !up ==> r.reply.Failure? && r.otps == otps
  {
    if up then OtpIssued(Success(code), otps[otpId := Otp(otpId, userId, code)])
    else OtpIssued(Failure, otps)
  }

  /** A freshly issued code is found by the very query email verification makes. */
  lemma IssuedOtpMatches(otps: map<string, Otp>, userId: string, otpId: string, code: string)
    ensures otpId in OtpMatches(CreateUserOTP(otps, userId, otpId, code, true).otps, userId, code)
  {
  }
}
