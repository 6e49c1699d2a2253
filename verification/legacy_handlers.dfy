/**
 * The handlers src/routes/users/router.ts mounts: the unvalidated
 * src/routes/users/{createUser,loginUser,updateUserPassword,updateUserInfos,
 * verifyUserEmail,deleteUserAccount}.ts. Body fields are strings or absent;
 * every failure, bad input included, goes through `returnError` and so
 * answers 500. Successes answer a bare `res.status(200).json(...)`.
 */
module LegacyHandlers {
  import opened Wrappers
  import opened Json
  import opened Http
  import opened Accounts
  import PasswordHash
  import LocalStrategy
  import DocOrder
  import AccountControllers

  const BadParameters: string := "Paramètres incorrects !"
  const NoUser: string := "Pas d'utilisateur"

  /** What a failed lookup hands to `returnError`: its reason text, or the error it caught. */
  function LookupThrown<T>(l: Lookup<T>): (e: Thrown)
    ensures l.LookupError? ==> e == DbError
    ensures !l.LookupError? ==> e == Text(l.Reason())
  {
    if l.LookupError? then DbError else Text(l.Reason())
  }

  // ----- login ----------------------------------------------------------------

  /** The login token the handler settles on: that of the last matching document, possibly absent. */
  function ChosenToken(sha: PasswordHash.Sha256, users: map<string, User>, email: string, password: string): (t: Option<string>)
    ensures LocalStrategy.Matching(sha, users, email, password) == {} ==> t.None?
    ensures t.Some? ==> exists k :: k in LocalStrategy.Matching(sha, users, email, password) && users[k].token == t
    ensures LocalStrategy.Matching(sha, users, email, password) != {} ==>
      exists k :: && k in LocalStrategy.Matching(sha, users, email, password)
                  && t == users[k].token
                  && forall j | j in LocalStrategy.Matching(sha, users, email, password) :: DocOrder.Below(j, k)
  {
    var ok := LocalStrategy.Matching(sha, users, email, password);
    if ok == {} then None else users[DocOrder.Last(ok)].token
  }

  /**
   * Database calls: 0 the query by email, 1 `getUser(token)`. The answer is
   * the `getUser` projection of a user holding the chosen token; no session
   * record and no JWT are created.
   */
  function LoginUser(sha: PasswordHash.Sha256, users: map<string, User>, email: Option<string>, password: Option<string>, served: Served): (r: Response<UserView>)
    ensures r.status == 200 || r.status == 500
    ensures !(Filled(email) && Filled(password)) ==> r == ReturnError(Text(BadParameters))
    ensures r.status == 200 <==>
      && Filled(email) && Filled(password) && served(0) && served(1)
      && Filled(ChosenToken(sha, users, email.value, password.value))
    ensures Filled(email) && Filled(password) && served(0) && !Filled(ChosenToken(sha, users, email.value, password.value)) ==>
      r == ReturnError(Text(NoUser))
    ensures r.status == 200 ==>
      && r.body.DataBody?
      && r == JsonReply(GetUser(users, ChosenToken(sha, users, email.value, password.value), true).data, 200)
  {
    if !(Filled(email) && Filled(password)) then ReturnError(Text(BadParameters))
    else if !served(0) then ReturnError(DbError)
    else if WithEmail(users, email.value) == {} then ReturnError(Text(NoUser))
    else
      var token := ChosenToken(sha, users, email.value, password.value);
      if !Filled(token) then ReturnError(Text(NoUser))
      else
        var user := GetUser(users, token, served(1));
        if !user.Found? then ReturnError(LookupThrown(user))
        else JsonReply(user.data, 200)
  }

  /** An unknown email and a wrong password produce the same answer. */
  lemma LoginFailuresLookAlike(sha: PasswordHash.Sha256, users: map<string, User>, e1: string, p1: string, e2: string, p2: string, served: Served)
    requires e1 != "" && p1 != "" && e2 != "" && p2 != "" && served(0)
    requires WithEmail(users, e1) == {}
    requires LocalStrategy.Matching(sha, users, e2, p2) == {}
    ensures LoginUser(sha, users, Some(e1), Some(p1), served) == LoginUser(sha, users, Some(e2), Some(p2), served)
  {
    assert LocalStrategy.Matching(sha, users, e1, p1) == {};
  }

  /** A user with a unique login token, found by email and password, gets their own profile back. */
  lemma LoginReturnsOwnProfile(sha: PasswordHash.Sha256, users: map<string, User>, k: string, email: string, password: string, served: Served)
    requires email != "" && password != "" && served(0) && served(1)
    requires LocalStrategy.Matching(sha, users, email, password) == {k}
    requires users[k].token.Some? && users[k].token.value != ""
    requires WithToken(users, users[k].token.value) == {k}
    ensures LoginUser(sha, users, Some(email), Some(password), served) == JsonReply(View(users[k]), 200)
  {
    DocOrder.LastOfSingleton(k);
    assert k in WithEmail(users, email);
  }

  // ----- signup ---------------------------------------------------------------

  const OtpFailed: string := "Impossible de creer le code de verification du mail!"
  const MailFailed: string := "Email de confirmation non envoyé"

  datatype LegacySignup = LegacySignup(token: string, message: string)

  datatype Outcome<D> = Outcome(response: Response<D>, db: Db)

  /** The body as stored, with the server-chosen fields laid over it. */
  function Stored(sha: PasswordHash.Sha256, b: User, ids: AccountControllers.SignupIds, now: int): (u: User)
    ensures u.id == Some(ids.id) && u.token == Some(ids.token) && u.salt == Some(ids.salt)
    ensures u.password == Some(PasswordHash.HashPassword(sha, PasswordHash.JsText(b.password), ids.salt))
    ensures u.phoneVerify == Some(false) && u.emailVerify == Some(false)
    ensures u.lastLoginAt == Some(now) && u.createAt == Some(now)
    ensures u.email == b.email && u.firstname == b.firstname && u.lastname == b.lastname && u.gender == b.gender
    ensures u.phone == b.phone && u.birthDate == b.birthDate && u.city == b.city && u.country == b.country
    ensures u.extra == b.extra
  {
    b.(id := Some(ids.id), token := Some(ids.token), salt := Some(ids.salt),
       password := Some(PasswordHash.HashPassword(sha, PasswordHash.JsText(b.password), ids.salt)),
       phoneVerify := Some(false), emailVerify := Some(false), lastLoginAt := Some(now), createAt := Some(now))
  }

  /** The message: a mail failure overwrites an OTP failure; both succeeding leaves it empty. */
  function LegacySignupMessage(otpOk: bool, mailOk: bool): (m: string)
    ensures m == "" <==> otpOk && mailOk
    ensures !mailOk ==> m == MailFailed
    ensures mailOk && !otpOk ==> m == OtpFailed
  {
    if !mailOk then MailFailed else if !otpOk then OtpFailed else ""
  }

  /**
   * Database calls: 0 the user write, 1 the OTP write. The confirmation mail
   * is attempted whatever the OTP step did. There is no duplicate check.
   */
  function CreateUser(sha: PasswordHash.Sha256, db: Db, body: Option<User>, ids: AccountControllers.SignupIds, mailOk: bool, now: int, served: Served): (o: Outcome<LegacySignup>)
    ensures body.None? ==> o == Outcome(ReturnError(Text(BadParameters)), db)
    ensures o.response.status == 200 <==> body.Some? && served(0)
    ensures o.response.status != 200 ==> o.db == db && o.response.status == 500
    ensures o.response.status == 200 ==>
      && o.response == JsonReply(LegacySignup(ids.token, LegacySignupMessage(served(1), mailOk)), 200)
      && o.db.users == db.users[ids.id := Stored(sha, body.value, ids, now)]
      && o.db.otps == CreateUserOTP(db.otps, ids.id, ids.otpId, ids.otpCode, served(1)).otps
      && o.db.sessions == db.sessions
  {
    if body.None? then Outcome(ReturnError(Text(BadParameters)), db)
    else if !served(0) then Outcome(ReturnError(DbError), db)
    else
      var otp := CreateUserOTP(db.otps, ids.id, ids.otpId, ids.otpCode, served(1));
      Outcome(JsonReply(LegacySignup(ids.token, LegacySignupMessage(otp.reply.Success?, mailOk)), 200),
              Db(db.users[ids.id := Stored(sha, body.value, ids, now)], otp.otps, db.sessions))
  }

  /** Signing up twice with one email leaves two accounts carrying it. */
  lemma DuplicateSignup(sha: PasswordHash.Sha256, db: Db, body: User, ids1: AccountControllers.SignupIds, ids2: AccountControllers.SignupIds,
                        mailOk: bool, now: int, served: Served)
    requires body.email.Some? && served(0)
    requires ids1.id != ids2.id
    ensures var first := CreateUser(sha, db, Some(body), ids1, mailOk, now, served).db;
            var second := CreateUser(sha, first, Some(body), ids2, mailOk, now, served).db;
            {ids1.id, ids2.id} <= WithEmail(second.users, body.email.value)
            && !AccountControllers.UniqueEmails(second.users)
  {
    var first := CreateUser(sha, db, Some(body), ids1, mailOk, now, served).db;
    var second := CreateUser(sha, first, Some(body), ids2, mailOk, now, served).db;
    assert second.users[ids1.id].email == body.email && second.users[ids2.id].email == body.email;
  }

  // ----- password change --------------------------------------------------------

  /** Database calls: 0 the token lookup, 1 the update. No length rule applies to the new password. */
  function UpdateUserPassword(sha: PasswordHash.Sha256, db: Db, token: Option<string>, newPassword: Option<string>,
                              salt: string, newToken: string, served: Served): (o: Outcome<Message>)
    ensures !(Filled(token) && Filled(newPassword)) ==> o == Outcome(ReturnError(Text(BadParameters)), db)
    ensures Filled(token) && Filled(newPassword) && !GetUserID(db.users, token, served(0)).Found? ==>
      o == Outcome(ReturnError(Text(AccountControllers.PasswordUnchangeable)), db)
    ensures o.response.status == 200 <==>
      && Filled(token) && Filled(newPassword) && served(1)
      && GetUserID(db.users, token, served(0)).Found? && Updatable(db.users, GetUserID(db.users, token, served(0)).data)
    ensures o.response.status != 200 ==> o.db == db && o.response.status == 500
    ensures o.db.sessions == db.sessions && o.db.otps == db.otps
    ensures o.response.status == 200 ==>
      var id := GetUserID(db.users, token, served(0)).data.value;
      && o.response == JsonReply(Message(AccountControllers.PasswordChanged), 200)
      && o.db.users == db.users[id := AccountControllers.WithNewPassword(sha, db.users[id], newPassword.value, salt, newToken)]
  {
    if !(Filled(token) && Filled(newPassword)) then Outcome(ReturnError(Text(BadParameters)), db)
    else
      var lookup := GetUserID(db.users, token, served(0));
      if !lookup.Found? then Outcome(ReturnError(Text(AccountControllers.PasswordUnchangeable)), db)
      else if !served(1) || !Updatable(db.users, lookup.data) then Outcome(ReturnError(DbError), db)
      else
        var id := lookup.data.value;
        Outcome(JsonReply(Message(AccountControllers.PasswordChanged), 200),
                db.(users := db.users[id := AccountControllers.WithNewPassword(sha, db.users[id], newPassword.value, salt, newToken)]))
  }

  /** A one-character password is accepted here, where the validated controller requires six. */
  lemma OneCharacterPasswordAccepted(sha: PasswordHash.Sha256, db: Db, token: string, k: string, salt: string, newToken: string, served: Served)
    requires token != "" && WithToken(db.users, token) == {k} && db.users[k].id == Some(k) && k != ""
    requires served(0) && served(1)
    ensures UpdateUserPassword(sha, db, Some(token), Some("x"), salt, newToken, served).response.status == 200
  {
    GetUserIDOfUniqueToken(db.users, k, token);
  }

  // ----- profile update -----------------------------------------------------------

  const InfosUnchangeable: string := "Impossible de metre à jours les infos !"

  datatype Field = Firstname | Lastname | City | Country | BirthDate

  /** One single-field update. */
  function SetField(u: User, f: Field, v: string): (w: User)
    ensures f == Firstname ==> w == u.(firstname := Some(v))
    ensures f == Lastname ==> w == u.(lastname := Some(v))
    ensures f == City ==> w == u.(city := Some(v))
    ensures f == Country ==> w == u.(country := Some(v))
    ensures f == BirthDate ==> w == u.(birthDate := Some(v))
  {
    match f
    case Firstname => u.(firstname := Some(v))
    case Lastname => u.(lastname := Some(v))
    case City => u.(city := Some(v))
    case Country => u.(country := Some(v))
    case BirthDate => u.(birthDate := Some(v))
  }

  /** The update one field contributes: one write when its value is truthy, none otherwise. */
  function Chunk(f: Field, v: Option<string>): seq<(Field, string)> {
    if Filled(v) then [(f, v.value)] else []
  }

  /** The updates issued, in source order: one per truthy field. */
  function Writes(firstname: Option<string>, lastname: Option<string>, city: Option<string>,
                  country: Option<string>, birthDate: Option<string>): (w: seq<(Field, string)>)
    ensures forall i | 0 <= i < |w| :: w[i].1 != ""
    ensures |w| <= 5
  {
    Chunk(Firstname, firstname) + Chunk(Lastname, lastname) + Chunk(City, city)
    + Chunk(Country, country) + Chunk(BirthDate, birthDate)
  }

  /** The effect of a run of single-field updates on one user, in order. */
  function Replay(u: User, w: seq<(Field, string)>): User
    decreases |w|
  {
    if w == [] then u else Replay(SetField(u, w[0].0, w[0].1), w[1..])
  }

  lemma {:induction false} ReplayConcat(u: User, a: seq<(Field, string)>, b: seq<(Field, string)>)
    ensures Replay(u, a + b) == Replay(Replay(u, a), b)
    decreases |a|
  {
    if a != [] {
      assert (a + b)[0] == a[0];
      assert (a + b)[1..] == a[1..] + b;
      ReplayConcat(SetField(u, a[0].0, a[0].1), a[1..], b);
    } else {
      assert a + b == b;
    }
  }

  /** A truthy value replaces the stored one; a falsy one, empty string included, leaves it. */
  function KeepUnlessFilled(v: Option<string>, stored: Option<string>): Option<string> {
    if Filled(v) then v else stored
  }

  /** The user a request's five optional fields leave behind when every update succeeds. */
  function Patched(u: User, firstname: Option<string>, lastname: Option<string>, city: Option<string>,
                   country: Option<string>, birthDate: Option<string>): User {
    u.(firstname := KeepUnlessFilled(firstname, u.firstname), lastname := KeepUnlessFilled(lastname, u.lastname),
       city := KeepUnlessFilled(city, u.city), country := KeepUnlessFilled(country, u.country),
       birthDate := KeepUnlessFilled(birthDate, u.birthDate))
  }

  lemma ReplayChunk(u: User, f: Field, v: Option<string>)
    ensures Replay(u, Chunk(f, v)) == if Filled(v) then SetField(u, f, v.value) else u
  {
    if Filled(v) {
      assert Chunk(f, v)[1..] == [];
    }
  }

  /**
   * All the updates of one request, applied: exactly the truthy fields take
   * their new values and nothing else of the user changes.
   */
  lemma ReplayOfWrites(u: User, firstname: Option<string>, lastname: Option<string>, city: Option<string>,
                       country: Option<string>, birthDate: Option<string>)
    ensures Replay(u, Writes(firstname, lastname, city, country, birthDate))
            == Patched(u, firstname, lastname, city, country, birthDate)
  {
    var c1, c2, c3, c4, c5 := Chunk(Firstname, firstname), Chunk(Lastname, lastname), Chunk(City, city),
                              Chunk(Country, country), Chunk(BirthDate, birthDate);
    ReplayConcat(u, c1 + c2 + c3 + c4, c5);
    ReplayConcat(u, c1 + c2 + c3, c4);
    ReplayConcat(u, c1 + c2, c3);
    ReplayConcat(u, c1, c2);
    var u1 := Replay(u, c1);
    ReplayChunk(u, Firstname, firstname);
    var u2 := Replay(u1, c2);
    ReplayChunk(u1, Lastname, lastname);
    var u3 := Replay(u2, c3);
    ReplayChunk(u2, City, city);
    var u4 := Replay(u3, c4);
    ReplayChunk(u3, Country, country);
    ReplayChunk(u4, BirthDate, birthDate);
  }

  datatype Applied = Applied(users: map<string, User>, failed: bool)

  /**
   * Issue the updates one after the other, the `call`-th database call first;
   * the first one that fails (an unserved call, or a document that does not
   * exist) stops the run with the earlier ones already written.
   */
  function ApplyWrites(users: map<string, User>, id: Option<string>, w: seq<(Field, string)>, served: Served, call: nat): (a: Applied)
    decreases |w|
    ensures a.users.Keys == users.Keys
    ensures forall k | k in users && (id.None? || k != id.value) :: a.users[k] == users[k]
    ensures !a.failed && w == [] ==> a.users == users
    ensures !a.failed && w != [] ==> id.Some? && id.value in users && a.users == users[id.value := Replay(users[id.value], w)]
    ensures a.failed ==> w != []
  {
    if w == [] then Applied(users, false)
    else if !served(call) || !Updatable(users, id) then Applied(users, true)
    else
      var next := users[id.value := SetField(users[id.value], w[0].0, w[0].1)];
      ApplyWrites(next, id, w[1..], served, call + 1)
  }

  /** Database calls: 0 the token lookup, then one per truthy field. */
  function UpdateUserInfos(db: Db, token: Option<string>, firstname: Option<string>, lastname: Option<string>, city: Option<string>,
                           country: Option<string>, birthDate: Option<string>, served: Served): (o: Outcome<Message>)
    ensures !Filled(token) ==> o == Outcome(ReturnError(Text(BadParameters)), db)
    ensures Filled(token) && !GetUserID(db.users, token, served(0)).Found? ==>
      o == Outcome(ReturnError(Text(InfosUnchangeable)), db)
    ensures o.db.sessions == db.sessions && o.db.otps == db.otps && o.db.users.Keys == db.users.Keys
    ensures o.response.status == 200 || o.response.status == 500
    ensures o.response.status == 200 ==> o.response == JsonReply(Message(AccountControllers.InfosChanged), 200)
    ensures o.response.status == 200 <==>
      Filled(token) && GetUserID(db.users, token, served(0)).Found?
      && !ApplyWrites(db.users, GetUserID(db.users, token, served(0)).data, Writes(firstname, lastname, city, country, birthDate), served, 1).failed
    ensures Filled(token) && GetUserID(db.users, token, served(0)).Found? && Writes(firstname, lastname, city, country, birthDate) == [] ==>
      o == Outcome(JsonReply(Message(AccountControllers.InfosChanged), 200), db)
  {
    if !Filled(token) then Outcome(ReturnError(Text(BadParameters)), db)
    else
      var lookup := GetUserID(db.users, token, served(0));
      if !lookup.Found? then Outcome(ReturnError(Text(InfosUnchangeable)), db)
      else
        var a := ApplyWrites(db.users, lookup.data, Writes(firstname, lastname, city, country, birthDate), served, 1);
        if a.failed then Outcome(ReturnError(DbError), db.(users := a.users))
        else Outcome(JsonReply(Message(AccountControllers.InfosChanged), 200), db.(users := a.users))
  }

  /**
   * A successful profile update writes exactly the truthy fields, each with its
   * new value, into the token owner's document; an empty string is skipped
   * rather than written, and no other document changes.
   */
  lemma InfosPatchTruthyFields(db: Db, token: Option<string>, firstname: Option<string>, lastname: Option<string>,
                               city: Option<string>, country: Option<string>, birthDate: Option<string>, served: Served)
    requires UpdateUserInfos(db, token, firstname, lastname, city, country, birthDate, served).response.status == 200
    requires Writes(firstname, lastname, city, country, birthDate) != []
    ensures var id := GetUserID(db.users, token, served(0)).data;
      && id.Some? && id.value in db.users
      && UpdateUserInfos(db, token, firstname, lastname, city, country, birthDate, served).db.users
         == db.users[id.value := Patched(db.users[id.value], firstname, lastname, city, country, birthDate)]
  {
    var id := GetUserID(db.users, token, served(0)).data;
    var a := ApplyWrites(db.users, id, Writes(firstname, lastname, city, country, birthDate), served, 1);
    assert !a.failed;
    ReplayOfWrites(db.users[id.value], firstname, lastname, city, country, birthDate);
  }

  // ----- email verification ---------------------------------------------------------

  const EmailUnverifiable: string := "Impossible de verifier votre email !"
  const EmailVerified: string := "Email verifié !"

  /** As the validated handler, but every failure answers 500 and success a bare 200. */
  function VerifyUserEmail(db: Db, token: Option<string>, otp: Option<string>, served: Served): (o: Outcome<Message>)
    ensures !(Filled(token) && Filled(otp)) ==> o == Outcome(ReturnError(Text(BadParameters)), db)
    ensures o.response.status == 200 || o.response.status == 500
    ensures o.db.sessions == db.sessions
    ensures o.response.status == 200 <==>
      AccountControllers.CodeMatches(db, token, otp, served) && served(2) && Updatable(db.users, GetUserID(db.users, token, true).data)
    ensures !AccountControllers.CodeMatches(db, token, otp, served) ==> o.db == db
    ensures o.response.status == 200 ==>
      var id := GetUserID(db.users, token, true).data.value;
      && o.response == JsonReply(Message(EmailVerified), 200)
      && o.db.users == db.users[id := db.users[id].(emailVerify := Some(true))]
      && o.db.otps == db.otps - AccountControllers.OtpIdsOf(db.otps, OtpMatches(db.otps, id, otp.value))
  {
    if !(Filled(token) && Filled(otp)) then Outcome(ReturnError(Text(BadParameters)), db)
    else
      var lookup := GetUserID(db.users, token, served(0));
      if !lookup.Found? then Outcome(ReturnError(Text(EmailUnverifiable)), db)
      else if lookup.data.None? || !served(1) then Outcome(ReturnError(DbError), db)
      else
        var id := lookup.data.value;
        var matches := OtpMatches(db.otps, id, otp.value);
        if matches == {} then Outcome(ReturnError(Text(AccountControllers.WrongCode)), db)
        else
          var otps := db.otps - AccountControllers.OtpIdsOf(db.otps, matches);
          if !served(2) || !Updatable(db.users, lookup.data) then Outcome(ReturnError(DbError), db.(otps := otps))
          else Outcome(JsonReply(Message(EmailVerified), 200), Db(db.users[id := db.users[id].(emailVerify := Some(true))], otps, db.sessions))
  }

  /** Both versions change the database identically; only the answers differ. */
  lemma VerifyVersionsAgree(db: Db, token: Option<string>, otp: Option<string>, served: Served)
    ensures VerifyUserEmail(db, token, otp, served).db == AccountControllers.VerifyUserEmail(db, token, otp, served).db
    ensures VerifyUserEmail(db, token, otp, served).response.status == 200
            <==> AccountControllers.VerifyUserEmail(db, token, otp, served).response.status == 200
  {
  }

  // ----- account deletion -----------------------------------------------------------

  const AccountDeleted: string := "Compte supprimer avec succes !"

  /** Database calls: 0 the token lookup, 1 the delete. */
  function DeleteUserAccount(db: Db, token: Option<string>, served: Served): (o: Outcome<Message>)
    ensures !Filled(token) ==> o == Outcome(ReturnError(Text(BadParameters)), db)
    ensures Filled(token) && !GetUserID(db.users, token, served(0)).Found? ==>
      o == Outcome(ReturnError(Text(AccountControllers.DeletionRefused)), db)
    ensures o.db.otps == db.otps && o.db.sessions == db.sessions
    ensures o.response.status == 200 || o.response.status == 500
    ensures o.response.status != 200 ==> o.db == db
    ensures o.response.status == 200 <==>
      Filled(token) && GetUserID(db.users, token, served(0)).Found? && Filled(GetUserID(db.users, token, served(0)).data) && served(1)
    ensures o.response.status == 200 ==>
      o.response == JsonReply(Message(AccountDeleted), 200)
      && o.db.users == db.users - {GetUserID(db.users, token, served(0)).data.value}
  {
    if !Filled(token) then Outcome(ReturnError(Text(BadParameters)), db)
    else
      var lookup := GetUserID(db.users, token, served(0));
      if !lookup.Found? then Outcome(ReturnError(Text(AccountControllers.DeletionRefused)), db)
      else if !Filled(lookup.data) || !served(1) then Outcome(ReturnError(DbError), db)
      else Outcome(JsonReply(Message(AccountDeleted), 200), db.(users := db.users - {lookup.data.value}))
  }

  /**
   * Deleting by token removes the user the token belongs to, when its `_id`
   * names its own document; an empty `_id` is an invalid path, so nothing goes.
   */
  lemma DeleteRemovesTokenOwner(db: Db, token: string, k: string, served: Served)
    requires token != "" && WithToken(db.users, token) == {k} && db.users[k].id == Some(k)
    requires served(0) && served(1)
    ensures k != "" ==> DeleteUserAccount(db, Some(token), served).db.users == db.users - {k}
    ensures k == "" ==> DeleteUserAccount(db, Some(token), served) == Outcome(ReturnError(DbError), db)
  {
    GetUserIDOfUniqueToken(db.users, k, token);
  }
}
