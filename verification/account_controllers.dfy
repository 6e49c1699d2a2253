/**
 * The account handlers of src/routes/users/controllers: signup, password
 * change, profile update, email verification and account deletion. Fresh
 * UUIDs and the OTP code are parameters, the confirmation mail is the flag
 * `mailOk`, and `served(i)` says whether the i-th database call succeeds.
 */
module AccountControllers {
  import opened Wrappers
  import opened Json
  import opened Http
  import opened Accounts
  import Schemas
  import PasswordHash
  import LocalStrategy
  import DocOrder
  import Jwt
  import AuthMiddleware
  import opened SessionRecords
  import opened Server

  /** A handler's answer and the database after it. */
  datatype Handled<D> = Handled(response: Response<D>, db: Db)

  const InvalidData: string := "Données invalides: "
  const ServerError: string := "Internal Server Error"
  const BadParameters: string := "Paramètres incorrects !"

  /** The 400 answer to a body the schema refused: every issue message, comma separated. */
  function Refused<D>(issues: seq<string>): (r: Response<D>)
    ensures r.status == 400 && r.body.ErrorBody?
  {
    ReturnErrorWithStatus(InvalidData + Join(issues, ", "), 400)
  }

  // ----- signup ---------------------------------------------------------------

  const EmailTaken: string := "Un utilisateur avec cet email existe déjà"
  const Created: string := "Utilisateur créé avec succès"
  const OtpFailedSuffix: string := " - Impossible de créer le code de vérification du mail!"
  const MailFailedSuffix: string := " - Email de confirmation non envoyé"
  const MailSentSuffix: string := " - Email de confirmation envoyé"

  /** The fresh values one signup draws: document id, salt, login token, OTP document id and OTP code. */
  datatype SignupIds = SignupIds(id: string, salt: string, token: string, otpId: string, otpCode: string)

  /** The user echoed back: no password, no salt. */
  datatype SignupView = SignupView(
    id: string, firstname: string, lastname: string, email: string,
    phone: Option<string>, city: Option<string>, country: Option<string>,
    emailVerify: bool, phoneVerify: bool)

  datatype SignupData = SignupData(token: string, message: string, user: SignupView)

  datatype SignupOutcome = SignupOutcome(response: Response<SignupData>, db: Db, mailAttempted: bool)

  /** The stored user: the validated fields, fresh credentials, both flags false, both dates now. */
  function NewUser(sha: PasswordHash.Sha256, s: Schemas.Signup, ids: SignupIds, now: int): (u: User)
    ensures u.id == Some(ids.id) && u.token == Some(ids.token) && u.salt == Some(ids.salt)
    ensures u.email == Some(s.email) && u.firstname == Some(s.firstname) && u.lastname == Some(s.lastname)
    ensures u.phone == s.phone && u.city == s.city && u.country == s.country && u.gender == s.gender
    ensures u.phoneVerify == Some(false) && u.emailVerify == Some(false)
    ensures u.lastLoginAt == Some(now) && u.createAt == Some(now)
    ensures LocalStrategy.PasswordMatches(sha, u, s.password)
  {
    User(Some(ids.id), Some(s.email), Some(s.firstname), Some(s.lastname), Some(ids.token), Some(ids.salt),
         Some(PasswordHash.HashPassword(sha, s.password, ids.salt)), s.gender, s.phone, None, s.city, s.country,
         Some(false), Some(false), Some(now), Some(now), map[])
  }

  /** The success message: one of three suffixes; no mail is attempted without an OTP. */
  function SignupMessage(otpOk: bool, mailOk: bool): (m: string)
    ensures |Created| <= |m| && m[..|Created|] == Created
    ensures m == Created + OtpFailedSuffix <==> !otpOk
    ensures m == Created + MailSentSuffix <==> otpOk && mailOk
    ensures m == Created + MailFailedSuffix <==> otpOk && !mailOk
  {
    // The three suffixes have different lengths, so the three messages differ.
    assert |OtpFailedSuffix| == 55 && |MailFailedSuffix| == 35 && |MailSentSuffix| == 31;
    var suffix := if !otpOk then OtpFailedSuffix else if mailOk then MailSentSuffix else MailFailedSuffix;
    assert (Created + suffix)[..|Created|] == Created;
    Created + suffix
  }

  /** No two user documents share an email. */
  predicate UniqueEmails(users: map<string, User>) {
    forall j, k | j in users && k in users && users[j].email.Some? && users[j].email == users[k].email :: j == k
  }

  /** The signup gets past validation, the duplicate check and the user write. */
  predicate SignupAccepted(cfg: Config, db: Db, body: Schemas.SignupBody, served: Served) {
    && Schemas.ParseSignup(cfg.isEmail, body).Valid?
    && served(0) && served(1)
    && WithEmail(db.users, Schemas.ParseSignup(cfg.isEmail, body).data.email) == {}
  }

  /**
   * `createUser` with the absent `gender` left out of the stored document.
   * Database calls: 0 the duplicate-email query, 1 the user write, 2 the OTP
   * write.
   */
  function CreateUser(cfg: Config, db: Db, body: Schemas.SignupBody, ids: SignupIds, mailOk: bool, now: int, served: Served): (o: SignupOutcome)
    ensures o.response.status == 201 <==> SignupAccepted(cfg, db, body, served)
    ensures Schemas.ParseSignup(cfg.isEmail, body).Invalid? ==>
      o == SignupOutcome(Refused(Schemas.ParseSignup(cfg.isEmail, body).issues), db, false)
    ensures Schemas.ParseSignup(cfg.isEmail, body).Valid? && served(0)
            && WithEmail(db.users, Schemas.ParseSignup(cfg.isEmail, body).data.email) != {} ==>
      o == SignupOutcome(ReturnErrorWithStatus(EmailTaken, 409), db, false)
    ensures o.response.status != 201 ==> o.db == db && !o.mailAttempted
    ensures o.response.status == 201 ==> o.response.body.SuccessBody?
    ensures o.response.status == 201 ==>
      var s := Schemas.ParseSignup(cfg.isEmail, body).data;
      && o.db.users == db.users[ids.id := NewUser(cfg.sha, s, ids, now)]
      && o.db.sessions == db.sessions
      && o.db.otps == (if served(2) then db.otps[ids.otpId := Otp(ids.otpId, ids.id, ids.otpCode)] else db.otps)
      && (o.mailAttempted <==> served(2))
      && o.response.body.data.token == ids.token
      && o.response.body.data.message == SignupMessage(served(2), mailOk)
      && o.response.body.data.user == SignupView(ids.id, s.firstname, s.lastname, s.email, s.phone, s.city, s.country, false, false)
    ensures UniqueEmails(db.users) ==> UniqueEmails(o.db.users)
  {
    var parsed := Schemas.ParseSignup(cfg.isEmail, body);
    if parsed.Invalid? then SignupOutcome(Refused(parsed.issues), db, false)
    else if !served(0) then SignupOutcome(ReturnErrorWithStatus(ServerError, 500), db, false)
    else
      var s := parsed.data;
      if WithEmail(db.users, s.email) != {} then SignupOutcome(ReturnErrorWithStatus(EmailTaken, 409), db, false)
      else if !served(1) then SignupOutcome(ReturnErrorWithStatus(ServerError, 500), db, false)
      else
        var u := NewUser(cfg.sha, s, ids, now);
        var users := db.users[ids.id := u];
        SignupKeepsEmailsUnique(db.users, ids.id, u);
        var otp := CreateUserOTP(db.otps, ids.id, ids.otpId, ids.otpCode, served(2));
        var view := SignupView(ids.id, s.firstname, s.lastname, s.email, s.phone, s.city, s.country, false, false);
        SignupOutcome(ReturnSuccess(SignupData(ids.token, SignupMessage(otp.reply.Success?, mailOk), view), 201),
                      Db(users, otp.otps, db.sessions), otp.reply.Success?)
  }

  /** Writing a user whose email no document carries keeps emails unique. */
  lemma SignupKeepsEmailsUnique(users: map<string, User>, id: string, u: User)
    requires u.email.Some? && WithEmail(users, u.email.value) == {}
    ensures UniqueEmails(users) ==> UniqueEmails(users[id := u])
  {
    forall k | k in users ensures users[k].email != u.email {
      assert k !in WithEmail(users, u.email.value);
    }
  }

  /**
   * `createUser` as written: the stored document names `gender` even when the
   * body has none, and Firestore refuses an undefined field value, so the
   * write throws and the handler answers 500.
   */
  function CreateUserAsWritten(cfg: Config, db: Db, body: Schemas.SignupBody, ids: SignupIds, mailOk: bool, now: int, served: Served): (o: SignupOutcome)
    ensures SignupAccepted(cfg, db, body, served) && Schemas.ParseSignup(cfg.isEmail, body).data.gender.None? ==>
      o == SignupOutcome(ReturnErrorWithStatus(ServerError, 500), db, false)
    ensures !(SignupAccepted(cfg, db, body, served) && Schemas.ParseSignup(cfg.isEmail, body).data.gender.None?) ==>
      o == CreateUser(cfg, db, body, ids, mailOk, now, served)
  {
    var parsed := Schemas.ParseSignup(cfg.isEmail, body);
    if parsed.Valid? && served(0) && WithEmail(db.users, parsed.data.email) == {} && parsed.data.gender.None?
    then SignupOutcome(ReturnErrorWithStatus(ServerError, 500), db, false)
    else CreateUser(cfg, db, body, ids, mailOk, now, served)
  }

  /** As written, a signup that leaves out the optional gender never succeeds, however healthy the database. */
  lemma SignupWithoutGenderFails(cfg: Config, db: Db, body: Schemas.SignupBody, ids: SignupIds, mailOk: bool, now: int, served: Served)
    requires body.gender.None?
    ensures CreateUserAsWritten(cfg, db, body, ids, mailOk, now, served).response.status != 201
    ensures CreateUserAsWritten(cfg, db, body, ids, mailOk, now, served).db == db
  {
  }

  /** With the fix, the same signup goes through once validation and the database allow it. */
  lemma SignupWithoutGenderSucceeds(cfg: Config, db: Db, body: Schemas.SignupBody, ids: SignupIds, mailOk: bool, now: int, served: Served)
    requires body.gender.None? && SignupAccepted(cfg, db, body, served)
    ensures CreateUser(cfg, db, body, ids, mailOk, now, served).response.status == 201
  {
  }

  /** Right after a signup, the local strategy accepts the new email with the chosen password, as the new user. */
  lemma SignupThenLogin(cfg: Config, db: Db, body: Schemas.SignupBody, ids: SignupIds, mailOk: bool, now: int, served: Served)
    requires CreateUser(cfg, db, body, ids, mailOk, now, served).response.status == 201
    ensures var s := Schemas.ParseSignup(cfg.isEmail, body).data;
            var after := CreateUser(cfg, db, body, ids, mailOk, now, served).db.users;
            LocalStrategy.Verify(cfg.sha, after, s.email, s.password, true)
              == LocalStrategy.Accepted(NewUser(cfg.sha, s, ids, now))
  {
    var s := Schemas.ParseSignup(cfg.isEmail, body).data;
    var after := CreateUser(cfg, db, body, ids, mailOk, now, served).db.users;
    var ok := LocalStrategy.Matching(cfg.sha, after, s.email, s.password);
    assert ids.id in ok;
    forall k | k in db.users ensures db.users[k].email != Some(s.email) {
      assert k !in WithEmail(db.users, s.email);
    }
    assert ok == {ids.id};
    DocOrder.LastOfSingleton(ids.id);
  }

  // ----- password change --------------------------------------------------------

  const PasswordUnchangeable: string := "Impossible de modifier le mot de passe !"
  const PasswordChanged: string := "Mot de passe mis à jour !"
  const PasswordUpdateFailed: string := "Erreur lors de la mise à jour du mot de passe"

  /** The three fields a password change writes; nothing else of the user changes. */
  function WithNewPassword(sha: PasswordHash.Sha256, u: User, newPassword: string, salt: string, token: string): (v: User)
    ensures v == u.(token := Some(token), salt := Some(salt), password := Some(PasswordHash.HashPassword(sha, newPassword, salt)))
    ensures LocalStrategy.PasswordMatches(sha, v, newPassword)
  {
    u.(token := Some(token), salt := Some(salt), password := Some(PasswordHash.HashPassword(sha, newPassword, salt)))
  }

  /**
   * Look the user up by token (database call 0) and write fresh credentials
   * to the document named by its stored `_id` (call 1). Sessions are not
   * touched.
   */
  function ChangePassword(cfg: Config, db: Db, token: Option<string>, newPassword: string, salt: string, newToken: string, served: Served): (o: Handled<Message>)
    ensures o.db.sessions == db.sessions && o.db.otps == db.otps
    ensures !GetUserID(db.users, token, served(0)).Found? ==>
      o == Handled(ReturnErrorWithStatus(PasswordUnchangeable, 500), db)
    ensures o.response.status == 200 <==>
      GetUserID(db.users, token, served(0)).Found? && served(1) && Updatable(db.users, GetUserID(db.users, token, served(0)).data)
    ensures o.response.status != 200 ==> o.db == db && o.response.status == 500
    ensures o.response.status == 200 ==>
      var id := GetUserID(db.users, token, served(0)).data.value;
      && o.response == ReturnSuccess(Message(PasswordChanged))
      && o.db.users == db.users[id := WithNewPassword(cfg.sha, db.users[id], newPassword, salt, newToken)]
  {
    var lookup := GetUserID(db.users, token, served(0));
    if !lookup.Found? then Handled(ReturnErrorWithStatus(PasswordUnchangeable, 500), db)
    else if !served(1) || !Updatable(db.users, lookup.data) then Handled(ReturnErrorWithStatus(PasswordUpdateFailed, 500), db)
    else
      var id := lookup.data.value;
      Handled(ReturnSuccess(Message(PasswordChanged)),
              db.(users := db.users[id := WithNewPassword(cfg.sha, db.users[id], newPassword, salt, newToken)]))
  }

  /**
   * `updateUserPassword` as written: the token is taken from the parsed data,
   * which the schema stripped of any `token`, so the lookup always lacks one.
   */
  function UpdateUserPasswordAsWritten(cfg: Config, db: Db, body: Schemas.PasswordChangeBody, salt: string, newToken: string, served: Served): (o: Handled<Message>)
    ensures Schemas.ParsePasswordChange(body).Invalid? ==> o == Handled(Refused(Schemas.ParsePasswordChange(body).issues), db)
    ensures Schemas.ParsePasswordChange(body).Valid? ==>
      o == ChangePassword(cfg, db, None, Schemas.ParsePasswordChange(body).data.newPassword, salt, newToken, served)
  {
    var parsed := Schemas.ParsePasswordChange(body);
    if parsed.Invalid? then Handled(Refused(parsed.issues), db)
    else ChangePassword(cfg, db, None, parsed.data.newPassword, salt, newToken, served)
  }

  /** As written, no password change ever succeeds: a valid body always ends in the 500 of a missing token. */
  lemma PasswordChangeAlwaysFails(cfg: Config, db: Db, body: Schemas.PasswordChangeBody, salt: string, newToken: string, served: Served)
    ensures var o := UpdateUserPasswordAsWritten(cfg, db, body, salt, newToken, served);
            o.db == db && o.response.status != 200
    ensures Schemas.ParsePasswordChange(body).Valid? ==>
      UpdateUserPasswordAsWritten(cfg, db, body, salt, newToken, served).response == ReturnErrorWithStatus(PasswordUnchangeable, 500)
  {
  }

  /** The text of the body's `token` field: a non-string token finds no user either way. */
  function TokenText(v: Option<Json>): (t: Option<string>)
    ensures t.Some? <==> v.Some? && v.value.JStr?
    ensures t.Some? ==> t.value == v.value.str
  {
    if v.Some? && v.value.JStr? then Some(v.value.str) else None
  }

  /** `updateUserPassword` reading the token from the request body, where the client sends it. */
  function UpdateUserPassword(cfg: Config, db: Db, body: Schemas.PasswordChangeBody, salt: string, newToken: string, served: Served): (o: Handled<Message>)
    ensures Schemas.ParsePasswordChange(body).Invalid? ==> o == Handled(Refused(Schemas.ParsePasswordChange(body).issues), db)
    ensures Schemas.ParsePasswordChange(body).Valid? ==>
      o == ChangePassword(cfg, db, TokenText(body.token), Schemas.ParsePasswordChange(body).data.newPassword, salt, newToken, served)
  {
    var parsed := Schemas.ParsePasswordChange(body);
    if parsed.Invalid? then Handled(Refused(parsed.issues), db)
    else ChangePassword(cfg, db, TokenText(body.token), parsed.data.newPassword, salt, newToken, served)
  }

  /** The current password is validated for shape only; its value never matters. */
  lemma CurrentPasswordIgnored(cfg: Config, db: Db, b1: Schemas.PasswordChangeBody, b2: Schemas.PasswordChangeBody,
                               salt: string, newToken: string, served: Served)
    requires Schemas.ParsePasswordChange(b1).Valid? && Schemas.ParsePasswordChange(b2).Valid?
    requires b1.newPassword == b2.newPassword && b1.token == b2.token
    ensures UpdateUserPassword(cfg, db, b1, salt, newToken, served) == UpdateUserPassword(cfg, db, b2, salt, newToken, served)
  {
  }

  /**
   * After a change through the corrected handler, the new password logs in,
   * the old login token no longer names the user, and every JWT session of
   * the user is exactly as before.
   */
  lemma NewPasswordTakesOver(cfg: Config, db: Db, body: Schemas.PasswordChangeBody, salt: string, newToken: string,
                             served: Served, k: string, email: string)
    requires Schemas.ParsePasswordChange(body).Valid? && TokenText(body.token).Some? && TokenText(body.token).value != ""
    requires WithToken(db.users, TokenText(body.token).value) == {k} && db.users[k].id == Some(k) && k != ""
    requires WithEmail(db.users, email) == {k}
    requires newToken != TokenText(body.token).value
    requires served(0) && served(1)
    ensures var o := UpdateUserPassword(cfg, db, body, salt, newToken, served);
            && o.response.status == 200
            && LocalStrategy.Verify(cfg.sha, o.db.users, email, Schemas.ParsePasswordChange(body).data.newPassword, true).Accepted?
            && WithToken(o.db.users, TokenText(body.token).value) == {}
            && o.db.sessions == db.sessions
  {
    var t := TokenText(body.token).value;
    GetUserIDOfUniqueToken(db.users, k, t);
    var o := UpdateUserPassword(cfg, db, body, salt, newToken, served);
    var pw := Schemas.ParsePasswordChange(body).data.newPassword;
    assert o.db.users == db.users[k := WithNewPassword(cfg.sha, db.users[k], pw, salt, newToken)];
    assert k in LocalStrategy.Matching(cfg.sha, o.db.users, email, pw);
    forall j | j in o.db.users && j != k ensures o.db.users[j].token != Some(t) {
      assert j !in WithToken(db.users, t);
    }
  }

  // ----- profile update -----------------------------------------------------------

  const InfosUnchangeable: string := "Impossible de mettre à jour les infos !"
  const InfosChanged: string := "Infos mis à jour !"
  const InfosUpdateFailed: string := "Erreur lors de la mise à jour des infos"

  /**
   * The parsed body of a profile update. validation.schemas.ts defines no
   * `UpdateUserInfosSchema`, so the corrected handler below takes the outcome
   * of the intended validation as its parameter.
   */
  datatype InfosUpdate = InfosUpdate(
    token: Option<string>,
    firstname: Option<string>, lastname: Option<string>, city: Option<string>,
    country: Option<string>, birthDate: Option<string>)

  /** Some field is defined (an empty string counts: the test is `!== undefined`). */
  predicate AnyDefined(d: InfosUpdate) {
    d.firstname.Some? || d.lastname.Some? || d.city.Some? || d.country.Some? || d.birthDate.Some?
  }

  /** A defined value replaces the stored one; an undefined one leaves it. */
  function Override(v: Option<string>, stored: Option<string>): Option<string> {
    if v.Some? then v else stored
  }

  /** The one update: exactly the defined fields among the five. */
  function Patch(u: User, d: InfosUpdate): (v: User)
    ensures v.firstname == Override(d.firstname, u.firstname) && v.lastname == Override(d.lastname, u.lastname)
    ensures v.city == Override(d.city, u.city) && v.country == Override(d.country, u.country)
    ensures v.birthDate == Override(d.birthDate, u.birthDate)
    ensures v.(firstname := u.firstname, lastname := u.lastname, city := u.city, country := u.country, birthDate := u.birthDate) == u
  {
    u.(firstname := Override(d.firstname, u.firstname), lastname := Override(d.lastname, u.lastname),
       city := Override(d.city, u.city), country := Override(d.country, u.country),
       birthDate := Override(d.birthDate, u.birthDate))
  }

  /** Database calls: 0 the token lookup, 1 the update (issued only when some field is defined). */
  function UpdateUserInfos(db: Db, parsed: Schemas.Parsed<InfosUpdate>, served: Served): (o: Handled<Message>)
    ensures parsed.Invalid? ==> o == Handled(Refused(parsed.issues), db)
    ensures o.db.sessions == db.sessions && o.db.otps == db.otps
    ensures parsed.Valid? && !GetUserID(db.users, parsed.data.token, served(0)).Found? ==>
      o == Handled(ReturnErrorWithStatus(InfosUnchangeable, 500), db)
    ensures parsed.Valid? && GetUserID(db.users, parsed.data.token, served(0)).Found? && !AnyDefined(parsed.data) ==>
      o == Handled(ReturnSuccess(Message(InfosChanged)), db)
    ensures o.response.status != 200 ==> o.db == db
    ensures o.response.status == 200 && AnyDefined(parsed.data) ==>
      var id := GetUserID(db.users, parsed.data.token, served(0)).data;
      id.Some? && id.value in db.users && o.db.users == db.users[id.value := Patch(db.users[id.value], parsed.data)]
  {
    if parsed.Invalid? then Handled(Refused(parsed.issues), db)
    else
      var d := parsed.data;
      var lookup := GetUserID(db.users, d.token, served(0));
      if !lookup.Found? then Handled(ReturnErrorWithStatus(InfosUnchangeable, 500), db)
      else if !AnyDefined(d) then Handled(ReturnSuccess(Message(InfosChanged)), db)
      else if !served(1) || !Updatable(db.users, lookup.data) then Handled(ReturnErrorWithStatus(InfosUpdateFailed, 500), db)
      else
        var id := lookup.data.value;
        Handled(ReturnSuccess(Message(InfosChanged)), db.(users := db.users[id := Patch(db.users[id], d)]))
  }

  /**
   * `updateUserInfos` as written: the `UpdateUserInfosSchema` it imports is
   * not exported by validation.schemas.ts, so the name is `undefined` at run
   * time and calling `safeParse` on it throws inside the `try`. Every request
   * lands in the catch before any database call.
   */
  function UpdateUserInfosAsWritten(db: Db, parsed: Schemas.Parsed<InfosUpdate>, served: Served): (o: Handled<Message>)
    ensures o.response == ReturnErrorWithStatus(InfosUpdateFailed, 500)
    ensures o.db == db
  {
    Handled(ReturnErrorWithStatus(InfosUpdateFailed, 500), db)
  }

  /** As written, a request the corrected handler would serve is answered 500 and writes nothing. */
  lemma ProfileUpdateAlwaysFails(db: Db, parsed: Schemas.Parsed<InfosUpdate>, served: Served)
    requires UpdateUserInfos(db, parsed, served).response.status == 200
    ensures UpdateUserInfosAsWritten(db, parsed, served).response.status == 500
    ensures UpdateUserInfosAsWritten(db, parsed, served).db == db
    ensures UpdateUserInfosAsWritten(db, parsed, served).response != UpdateUserInfos(db, parsed, served).response
  {
  }

  /**
   * Corrected, a valid update carrying a user's unique token answers 200 and
   * writes exactly its defined fields into that user's document.
   */
  lemma ProfileUpdateApplied(db: Db, d: InfosUpdate, t: string, k: string, served: Served)
    requires d.token == Some(t) && t != ""
    requires WithToken(db.users, t) == {k} && db.users[k].id == Some(k) && k != ""
    requires served(0) && served(1)
    ensures UpdateUserInfos(db, Schemas.Valid(d), served).response == ReturnSuccess(Message(InfosChanged))
    ensures AnyDefined(d) ==> UpdateUserInfos(db, Schemas.Valid(d), served).db.users == db.users[k := Patch(db.users[k], d)]
    ensures !AnyDefined(d) ==> UpdateUserInfos(db, Schemas.Valid(d), served).db == db
  {
    GetUserIDOfUniqueToken(db.users, k, t);
  }

  /** A defined empty string is written as such. */
  lemma EmptyStringIsWritten(u: User, d: InfosUpdate)
    requires d.city == Some("")
    ensures Patch(u, d).city == Some("")
  {
  }

  /** A profile update never touches credentials, email or the verification flags. */
  lemma InfosKeepCredentials(db: Db, parsed: Schemas.Parsed<InfosUpdate>, served: Served, k: string)
    requires k in db.users
    ensures var after := UpdateUserInfos(db, parsed, served).db.users;
            k in after
            && after[k].email == db.users[k].email && after[k].password == db.users[k].password
            && after[k].salt == db.users[k].salt && after[k].token == db.users[k].token
            && after[k].emailVerify == db.users[k].emailVerify && after[k].phoneVerify == db.users[k].phoneVerify
  {
  }

  // ----- email verification ---------------------------------------------------------

  const EmailUnverifiable: string := "Impossible de verifier votre email !"
  const WrongCode: string := "Code incorrect !"
  const EmailVerified: string := "Email vérifié !"
  const VerificationFailed: string := "Erreur lors de la vérification de l'email"

  /** The documents `delete` is called on: each match's own `_id` field. */
  function OtpIdsOf(otps: map<string, Otp>, matches: set<string>): (ids: set<string>)
    requires matches <= otps.Keys
    ensures forall k | k in matches :: otps[k].id in ids
    ensures forall i | i in ids :: exists k :: k in matches && otps[k].id == i
  {
    set k | k in matches :: otps[k].id
  }

  /** Every OTP document is stored under its own `_id`, as `createUserOTP` does. */
  predicate OtpsKeyed(otps: map<string, Otp>) {
    forall k | k in otps :: otps[k].id == k
  }

  /** The user a verification request resolves to and the OTP documents it matches. */
  predicate CodeMatches(db: Db, token: Option<string>, otp: Option<string>, served: Served) {
    && Filled(token) && Filled(otp) && served(0) && served(1)
    && GetUserID(db.users, token, true).Found? && GetUserID(db.users, token, true).data.Some?
    && OtpMatches(db.otps, GetUserID(db.users, token, true).data.value, otp.value) != {}
  }

  /**
   * Database calls: 0 the token lookup, 1 the OTP query, 2 the user update.
   * The deletes of the matching OTP documents are fired without waiting and
   * are taken to succeed.
   */
  function VerifyUserEmail(db: Db, token: Option<string>, otp: Option<string>, served: Served): (o: Handled<Message>)
    ensures !(Filled(token) && Filled(otp)) ==> o == Handled(ReturnErrorWithStatus(BadParameters, 400), db)
    ensures o.db.sessions == db.sessions
    ensures o.response.status == 200 <==>
      CodeMatches(db, token, otp, served) && served(2) && Updatable(db.users, GetUserID(db.users, token, true).data)
    ensures !CodeMatches(db, token, otp, served) ==> o.db == db
    ensures Filled(token) && Filled(otp) && served(0) && served(1)
            && GetUserID(db.users, token, true).Found? && GetUserID(db.users, token, true).data.Some?
            && OtpMatches(db.otps, GetUserID(db.users, token, true).data.value, otp.value) == {} ==>
      o == Handled(ReturnErrorWithStatus(WrongCode, 400), db)
    ensures CodeMatches(db, token, otp, served) ==>
      var id := GetUserID(db.users, token, true).data.value;
      o.db.otps == db.otps - OtpIdsOf(db.otps, OtpMatches(db.otps, id, otp.value))
    ensures o.response.status == 200 ==>
      var id := GetUserID(db.users, token, true).data.value;
      && o.response == ReturnSuccess(Message(EmailVerified))
      && o.db.users == db.users[id := db.users[id].(emailVerify := Some(true))]
    ensures o.response.status != 200 ==> o.db.users == db.users
  {
    if !(Filled(token) && Filled(otp)) then Handled(ReturnErrorWithStatus(BadParameters, 400), db)
    else
      var lookup := GetUserID(db.users, token, served(0));
      if !lookup.Found? then Handled(ReturnErrorWithStatus(EmailUnverifiable, 500), db)
      // A `where` on an undefined `_userID` throws, as does a failed query.
      else if lookup.data.None? || !served(1) then Handled(ReturnErrorWithStatus(VerificationFailed, 500), db)
      else
        var id := lookup.data.value;
        var matches := OtpMatches(db.otps, id, otp.value);
        if matches == {} then Handled(ReturnErrorWithStatus(WrongCode, 400), db)
        else
          var otps := db.otps - OtpIdsOf(db.otps, matches);
          if !served(2) || !Updatable(db.users, lookup.data) then Handled(ReturnErrorWithStatus(VerificationFailed, 500), db.(otps := otps))
          else Handled(ReturnSuccess(Message(EmailVerified)), Db(db.users[id := db.users[id].(emailVerify := Some(true))], otps, db.sessions))
  }

  /** A code is single-use: replaying the request that verified the email is refused as a wrong code. */
  lemma CodeIsSingleUse(db: Db, token: Option<string>, otp: Option<string>, served: Served)
    requires OtpsKeyed(db.otps)
    requires VerifyUserEmail(db, token, otp, served).response.status == 200
    ensures VerifyUserEmail(VerifyUserEmail(db, token, otp, served).db, token, otp, served).response
            == ReturnErrorWithStatus(WrongCode, 400)
  {
    var id := GetUserID(db.users, token, true).data.value;
    var matches := OtpMatches(db.otps, id, otp.value);
    var after := VerifyUserEmail(db, token, otp, served).db;
    assert WithToken(after.users, token.value) == WithToken(db.users, token.value);
    var last := DocOrder.Last(WithToken(db.users, token.value));
    assert after.users[last].id == db.users[last].id;
    assert GetUserID(after.users, token, served(0)) == GetUserID(db.users, token, served(0));
    forall k | k in matches ensures k !in after.otps {
      assert db.otps[k].id == k;
      assert k in OtpIdsOf(db.otps, matches);
    }
    assert OtpMatches(after.otps, id, otp.value) == {};
  }

  /** A code issued to another user never verifies this one. */
  lemma ForeignCodeRejected(db: Db, token: string, userId: string, other: string, otpId: string, code: string, served: Served)
    requires token != "" && code != "" && served(0) && served(1)
    requires GetUserID(db.users, Some(token), true) == Found(Some(userId))
    requires other != userId
    requires OtpMatches(db.otps, userId, code) == {}
    ensures VerifyUserEmail(db.(otps := CreateUserOTP(db.otps, other, otpId, code, true).otps), Some(token), Some(code), served).response
            == ReturnErrorWithStatus(WrongCode, 400)
  {
    var otps := CreateUserOTP(db.otps, other, otpId, code, true).otps;
    forall k | k in otps && k != otpId ensures !(otps[k].userId == userId && otps[k].code == code) {
      assert k !in OtpMatches(db.otps, userId, code);
    }
    assert OtpMatches(otps, userId, code) == {};
  }

  // ----- account deletion -----------------------------------------------------------

  const DeletionRefused: string := "Impossible de supprimer votre compte pour l'instant !"
  const AccountDeleted: string := "Compte supprimé avec succès !"

  /** Database calls: 0 the token lookup, 1 the delete. OTP and session documents stay. */
  function DeleteUserAccount(db: Db, token: Option<string>, served: Served): (o: Handled<Message>)
    ensures !Filled(token) ==> o == Handled(ReturnErrorWithStatus(BadParameters, 400), db)
    ensures Filled(token) && !GetUserID(db.users, token, served(0)).Found? ==>
      o == Handled(ReturnErrorWithStatus(DeletionRefused, 500), db)
    ensures o.db.otps == db.otps && o.db.sessions == db.sessions
    ensures o.response.status == 200 <==>
      Filled(token) && GetUserID(db.users, token, served(0)).Found? && Filled(GetUserID(db.users, token, served(0)).data) && served(1)
    ensures o.response.status != 200 ==> o.db == db
    ensures o.response.status == 200 ==>
      o.response == ReturnSuccess(Message(AccountDeleted))
      && o.db.users == db.users - {GetUserID(db.users, token, served(0)).data.value}
  {
    if !Filled(token) then Handled(ReturnErrorWithStatus(BadParameters, 400), db)
    else
      var lookup := GetUserID(db.users, token, served(0));
      if !lookup.Found? then Handled(ReturnErrorWithStatus(DeletionRefused, 500), db)
      // `doc(undefined)` and `doc("")` throw.
      else if !Filled(lookup.data) || !served(1) then Handled(ReturnErrorWithStatus(ServerError, 500), db)
      else Handled(ReturnSuccess(Message(AccountDeleted)), db.(users := db.users - {lookup.data.value}))
  }

  /**
   * A deleted account keeps its session records, so a still-valid access
   * token passes every session check and is only stopped at the user lookup,
   * after its session has been bumped once more.
   */
  lemma DeletedAccountLockedOut(signer: Jwt.Signer, db: Db, token: Option<string>, served: Served,
                                req: AuthMiddleware.AuthRequest, now: int, served2: Served)
    requires DeleteUserAccount(db, token, served).response.status == 200
    requires AuthMiddleware.AuthenticateJWT(signer, db, req, now, served2).gate.Next?
    requires AuthMiddleware.AuthenticateJWT(signer, db, req, now, served2).gate.user.value.id
             == GetUserID(db.users, token, served(0)).data.value
    ensures var after := DeleteUserAccount(db, token, served).db;
            var r := AuthMiddleware.AuthenticateJWT(signer, after, req, now, served2);
            r.gate == AuthMiddleware.Halt(ReturnErrorWithStatus(AuthMiddleware.UserMissing, 401))
            && r.sessions == AuthMiddleware.AuthenticateJWT(signer, db, req, now, served2).sessions
  {
  }
}
