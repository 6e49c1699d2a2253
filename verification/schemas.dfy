/**
 * The zod schemas of src/routes/users/models/validation.schemas.ts as
 * validators over JSON bodies. Each yields the parsed data (undeclared keys
 * dropped, as `z.object` does by default) or the list of issue messages in
 * zod's order: fields in declaration order, and every failing check of a
 * string field. Lengths are JavaScript lengths (UTF-16 code units). zod's
 * email regular expression is the oracle `isEmail`.
 */
module Schemas {
  import opened Wrappers
  import opened Json

  datatype Parsed<T> = Valid(data: T) | Invalid(issues: seq<string>)

  const BadEmail: string := "Format d'email invalide"
  const EmailRequired: string := "Email requis"
  const PasswordTooShort: string := "Le mot de passe doit contenir au moins 6 caractères"
  const PasswordTooLong: string := "Le mot de passe ne peut pas dépasser 100 caractères"
  const FirstnameRequired: string := "Prénom requis"
  const FirstnameTooLong: string := "Le prénom ne peut pas dépasser 50 caractères"
  const LastnameRequired: string := "Nom requis"
  const LastnameTooLong: string := "Le nom ne peut pas dépasser 50 caractères"
  const RefreshRequired: string := "Refresh token requis"
  const CurrentTooShort: string := "Le mot de passe actuel doit contenir au moins 6 caractères"
  const NewTooShort: string := "Le nouveau mot de passe doit contenir au moins 6 caractères"

  /** zod's issue for a required string that is missing or not a string. */
  function TypeIssues(v: Option<Json>): (issues: seq<string>)
    ensures |issues| == 1
  {
    if v.None? then ["Required"] else ["Expected string, received " + TypeName(v.value)]
  }

  /** The issues of `z.string().min(lo, m1).max(hi, m2)` on a string. */
  function Bounds(s: string, lo: int, tooShort: string, hi: Option<int>, tooLong: string): (issues: seq<string>)
    ensures issues == [] <==> lo <= JsLength(s) && (hi.None? || JsLength(s) <= hi.value)
  {
    (if JsLength(s) < lo then [tooShort] else [])
    + (if hi.Some? && JsLength(s) > hi.value then [tooLong] else [])
  }

  /** A required string field with length bounds. */
  function StringIssues(v: Option<Json>, lo: int, tooShort: string, hi: Option<int>, tooLong: string): (issues: seq<string>)
    ensures issues == [] <==> v.Some? && v.value.JStr? && lo <= JsLength(v.value.str)
                               && (hi.None? || JsLength(v.value.str) <= hi.value)
  {
    if v.Some? && v.value.JStr? then Bounds(v.value.str, lo, tooShort, hi, tooLong) else TypeIssues(v)
  }

  /** `z.string().email(...).min(1, 'Email requis')`. */
  function EmailIssues(isEmail: string -> bool, v: Option<Json>): (issues: seq<string>)
    ensures issues == [] <==> v.Some? && v.value.JStr? && isEmail(v.value.str) && v.value.str != ""
  {
    if v.Some? && v.value.JStr? then
      var s := v.value.str;
      (if isEmail(s) then [] else [BadEmail]) + (if JsLength(s) < 1 then [EmailRequired] else [])
    else TypeIssues(v)
  }

  /** `z.string().optional()`: absent, or a string. */
  function OptionalStringIssues(v: Option<Json>): (issues: seq<string>)
    ensures issues == [] <==> v.None? || v.value.JStr?
  {
    if v.None? || v.value.JStr? then [] else TypeIssues(v)
  }

  /** The text of an optional string field that passed validation. */
  function OptionalText(v: Option<Json>): Option<string> {
    if v.Some? && v.value.JStr? then Some(v.value.str) else None
  }

  // ----- LoginSchema --------------------------------------------------------

  datatype LoginBody = LoginBody(email: Option<Json>, password: Option<Json>)
  datatype Credentials = Credentials(email: string, password: string)

  function ParseLogin(isEmail: string -> bool, b: LoginBody): (r: Parsed<Credentials>)
    ensures r.Valid? <==>
      && b.email.Some? && b.email.value.JStr? && isEmail(b.email.value.str) && b.email.value.str != ""
      && b.password.Some? && b.password.value.JStr?
      && 6 <= JsLength(b.password.value.str) <= 100
    ensures r.Valid? ==> r.data == Credentials(b.email.value.str, b.password.value.str)
    ensures r.Invalid? ==> |r.issues| > 0
  {
    var issues := EmailIssues(isEmail, b.email) + StringIssues(b.password, 6, PasswordTooShort, Some(100), PasswordTooLong);
    if issues == [] then Valid(Credentials(b.email.value.str, b.password.value.str)) else Invalid(issues)
  }

  /** A five-character password is refused and a 100-character one accepted. */
  lemma LoginPasswordBounds(isEmail: string -> bool, e: string)
    requires isEmail(e) && e != ""
    ensures ParseLogin(isEmail, LoginBody(Some(JStr(e)), Some(JStr("12345")))).Invalid?
    ensures ParseLogin(isEmail, LoginBody(Some(JStr(e)), Some(JStr(seq(100, _ => 'x'))))).Valid?
  {
    JsLengthOfBmpText("12345");
    JsLengthOfBmpText(seq(100, _ => 'x'));
  }

  // ----- CreateUserSchema ---------------------------------------------------

  /** A signup body; `extra` stands for any undeclared keys. */
  datatype SignupBody = SignupBody(
    firstname: Option<Json>, lastname: Option<Json>, email: Option<Json>, password: Option<Json>,
    phone: Option<Json>, birthDate: Option<Json>, city: Option<Json>, country: Option<Json>,
    gender: Option<Json>, extra: map<string, Json>)

  datatype Signup = Signup(
    firstname: string, lastname: string, email: string, password: string,
    phone: Option<string>, city: Option<string>, country: Option<string>, gender: Option<string>)

  const Genders: seq<string> := ["Homme", "Femme"]

  /** `z.enum(['Homme', 'Femme']).optional()`. */
  function GenderIssues(v: Option<Json>): (issues: seq<string>)
    ensures issues == [] <==> v.None? || (v.value.JStr? && v.value.str in Genders)
  {
    if v.None? then []
    else if !v.value.JStr? then ["Expected 'Homme' | 'Femme', received " + TypeName(v.value)]
    else if v.value.str in Genders then []
    else ["Invalid enum value. Expected 'Homme' | 'Femme', received '" + v.value.str + "'"]
  }

  /** `z.date().optional()`: a JSON body never carries a Date, so any value is refused. */
  function BirthDateIssues(v: Option<Json>): (issues: seq<string>)
    ensures issues == [] <==> v.None?
  {
    if v.None? then [] else ["Expected date, received " + TypeName(v.value)]
  }

  predicate SignupAcceptable(isEmail: string -> bool, b: SignupBody) {
    && b.firstname.Some? && b.firstname.value.JStr? && 1 <= JsLength(b.firstname.value.str) <= 50
    && b.lastname.Some? && b.lastname.value.JStr? && 1 <= JsLength(b.lastname.value.str) <= 50
    && b.email.Some? && b.email.value.JStr? && isEmail(b.email.value.str) && b.email.value.str != ""
    && b.password.Some? && b.password.value.JStr? && 6 <= JsLength(b.password.value.str) <= 100
    && (b.phone.None? || b.phone.value.JStr?)
    && b.birthDate.None?
    && (b.city.None? || b.city.value.JStr?)
    && (b.country.None? || b.country.value.JStr?)
    && (b.gender.None? || (b.gender.value.JStr? && b.gender.value.str in Genders))
  }

  function ParseSignup(isEmail: string -> bool, b: SignupBody): (r: Parsed<Signup>)
    ensures r.Valid? <==> SignupAcceptable(isEmail, b)
    ensures r.Valid? ==>
      && r.data.firstname == b.firstname.value.str && r.data.lastname == b.lastname.value.str
      && r.data.email == b.email.value.str && r.data.password == b.password.value.str
      && r.data.phone == OptionalText(b.phone) && r.data.city == OptionalText(b.city)
      && r.data.country == OptionalText(b.country) && r.data.gender == OptionalText(b.gender)
    ensures r.Invalid? ==> |r.issues| > 0
  {
    var issues :=
      StringIssues(b.firstname, 1, FirstnameRequired, Some(50), FirstnameTooLong)
      + StringIssues(b.lastname, 1, LastnameRequired, Some(50), LastnameTooLong)
      + EmailIssues(isEmail, b.email)
      + StringIssues(b.password, 6, PasswordTooShort, Some(100), PasswordTooLong)
      + OptionalStringIssues(b.phone)
      + BirthDateIssues(b.birthDate)
      + OptionalStringIssues(b.city)
      + OptionalStringIssues(b.country)
      + GenderIssues(b.gender);
    if issues == [] then
      Valid(Signup(b.firstname.value.str, b.lastname.value.str, b.email.value.str, b.password.value.str,
                   OptionalText(b.phone), OptionalText(b.city), OptionalText(b.country), OptionalText(b.gender)))
    else Invalid(issues)
  }

  // ----- RefreshTokenSchema -------------------------------------------------

  /** `z.string().min(1)`: any non-empty string. */
  function ParseRefreshToken(v: Option<Json>): (r: Parsed<string>)
    ensures r.Valid? <==> v.Some? && v.value.JStr? && v.value.str != ""
    ensures r.Valid? ==> r.data == v.value.str
  {
    var issues := StringIssues(v, 1, RefreshRequired, None, "");
    if issues == [] then Valid(v.value.str) else Invalid(issues)
  }

  // ----- UpdatePasswordSchema -----------------------------------------------

  datatype PasswordChangeBody = PasswordChangeBody(currentPassword: Option<Json>, newPassword: Option<Json>, token: Option<Json>)

  /** The parsed data: the schema declares no `token`, so none survives parsing. */
  datatype PasswordChange = PasswordChange(currentPassword: string, newPassword: string)

  function ParsePasswordChange(b: PasswordChangeBody): (r: Parsed<PasswordChange>)
    ensures r.Valid? <==>
      && b.currentPassword.Some? && b.currentPassword.value.JStr? && 6 <= JsLength(b.currentPassword.value.str)
      && b.newPassword.Some? && b.newPassword.value.JStr? && 6 <= JsLength(b.newPassword.value.str) <= 100
    ensures r.Valid? ==> r.data == PasswordChange(b.currentPassword.value.str, b.newPassword.value.str)
  {
    var issues :=
      StringIssues(b.currentPassword, 6, CurrentTooShort, None, "")
      + StringIssues(b.newPassword, 6, NewTooShort, Some(100), PasswordTooLong);
    if issues == [] then Valid(PasswordChange(b.currentPassword.value.str, b.newPassword.value.str))
    else Invalid(issues)
  }

  /** The current password has no upper bound, unlike the new one. */
  lemma CurrentPasswordUnbounded(b: PasswordChangeBody)
    requires b.currentPassword == Some(JStr(seq(101, _ => 'x')))
    requires b.newPassword == Some(JStr("secret1"))
    ensures ParsePasswordChange(b).Valid?
  {
    JsLengthOfBmpText(seq(101, _ => 'x'));
    JsLengthOfBmpText("secret1");
  }
}
