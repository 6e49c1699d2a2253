/**
 * The Passport configuration of src/configs/passportConfig.ts: the local
 * strategy's verify callback, and user (de)serialization for the session.
 */
module LocalStrategy {
  import opened Wrappers
  import opened Accounts
  import DocOrder
  import PasswordHash

  /** The one message for both an unknown email and a wrong password. */
  const BadCredentials: string := "Email ou mot de passe incorrect"

  /** `done(error)`, `done(null, false, { message })` or `done(null, user)`. */
  datatype Verdict = StrategyError | Rejected(message: string) | Accepted(user: User)

  /** The stored hash equals `hashPassword(password, salt)` recomputed with the stored salt. */
  predicate PasswordMatches(sha: PasswordHash.Sha256, u: User, password: string) {
    u.password == Some(PasswordHash.HashPassword(sha, password, PasswordHash.JsText(u.salt)))
  }

  function Matching(sha: PasswordHash.Sha256, users: map<string, User>, email: string, password: string): (ids: set<string>)
    ensures ids <= WithEmail(users, email)
    ensures forall k :: k in ids <==> k in users && users[k].email == Some(email) && PasswordMatches(sha, users[k], password)
  {
    set k | k in users && users[k].email == Some(email) && PasswordMatches(sha, users[k], password)
  }

  /**
   * The verify callback: query by email (database call 0); among the matches
   * keep the last, in document-id order, whose stored hash matches; return it
   * with `_id` set to its document id.
   */
  function Verify(sha: PasswordHash.Sha256, users: map<string, User>, email: string, password: string, up: bool): (v: Verdict)
    ensures !up <==> v.StrategyError?
    ensures v.Rejected? ==> v.message == BadCredentials
    ensures up ==> (v.Accepted? <==> Matching(sha, users, email, password) != {})
    ensures v.Accepted? ==>
      exists k :: && k in Matching(sha, users, email, password)
                  && v.user == users[k].(id := Some(k))
                  && forall j | j in Matching(sha, users, email, password) :: DocOrder.Below(j, k)
  {
    if !up then StrategyError
    else if WithEmail(users, email) == {} then Rejected(BadCredentials)
    else
      var ok := Matching(sha, users, email, password);
      if ok == {} then Rejected(BadCredentials)
      else
        var k := DocOrder.Last(ok);
        Accepted(users[k].(id := Some(k)))
  }

  /** An unknown email and a wrong password are indistinguishable to the caller. */
  lemma FailuresLookAlike(sha: PasswordHash.Sha256, users: map<string, User>, e1: string, p1: string, e2: string, p2: string)
    requires WithEmail(users, e1) == {}
    requires WithEmail(users, e2) != {} && Matching(sha, users, e2, p2) == {}
    ensures Verify(sha, users, e1, p1, true) == Verify(sha, users, e2, p2, true) == Rejected(BadCredentials)
  {
  }

  /** A user stored with `hashPassword(p, salt)` and salt `salt` is accepted with `p`. */
  lemma StoredHashAccepted(sha: PasswordHash.Sha256, users: map<string, User>, k: string, email: string, p: string, salt: string)
    requires k in users && users[k].email == Some(email)
    requires users[k].salt == Some(salt) && users[k].password == Some(PasswordHash.HashPassword(sha, p, salt))
    ensures Verify(sha, users, email, p, true).Accepted?
  {
    assert k in Matching(sha, users, email, p);
  }

  /** `serializeUser`: the session keeps the user's `_id`. */
  function SerializeUser(u: User): (id: Option<string>)
    ensures id == u.id
  {
    u.id
  }

  datatype Deserialized = DeserializeError | NoSuchUser | Restored(user: User)

  /** `deserializeUser(id)`: false for a missing document, else the document with `_id` set to its id. */
  function DeserializeUser(users: map<string, User>, id: string, up: bool): (d: Deserialized)
    ensures !up ==> d == DeserializeError
    ensures up && id !in users ==> d == NoSuchUser
    ensures up && id in users ==> d.Restored? && d.user.id == Some(id)
    ensures d.Restored? ==> d.user == users[id].(id := Some(id))
  {
    if !up then DeserializeError
    else if id !in users then NoSuchUser
    else Restored(users[id].(id := Some(id)))
  }

  /** Serializing an accepted user and deserializing its id restores that same document. */
  lemma SerializeRoundTrip(sha: PasswordHash.Sha256, users: map<string, User>, email: string, password: string)
    requires Verify(sha, users, email, password, true).Accepted?
    ensures var u := Verify(sha, users, email, password, true).user;
      SerializeUser(u).Some? && DeserializeUser(users, SerializeUser(u).value, true) == Restored(u)
  {
  }
}
