/**
 * Response envelopes: `returnErrorWithStatus` and `returnSuccess` of
 * src/utils/utilities/responseHelper.ts, the legacy `returnError` of
 * src/utils/utilities/returnError.ts, plain `res.status(n).json(data)`, and
 * the cookies a handler sets or clears.
 */
module Http {
  import opened Wrappers

  /** A JSON response body; `D` is the handler's payload type. */
  datatype Body<D> =
    | ErrorBody(error: string, statusCode: int)           // { error, statusCode }
    | SuccessBody(success: bool, data: D, statusCode: int) // { success: true, data, statusCode }
    | LegacyErrorBody(error: string)                       // { error: 'Internal Server Error : ...' }
    | DataBody(data: D)                                    // the payload itself
    | OpaqueErrorBody(statusCode: int)                     // { error: <a serialized Error>, statusCode }

  datatype Response<D> = Response(status: int, body: Body<D>)

  /** `returnErrorWithStatus(res, message, statusCode = 500)`. */
  function ReturnErrorWithStatus<D>(message: string, statusCode: int := 500): (r: Response<D>)
    ensures r.status == statusCode
    ensures r.body.ErrorBody? && r.body.error == message && r.body.statusCode == r.status
  {
    Response(statusCode, ErrorBody(message, statusCode))
  }

  /**
   * `returnErrorWithStatus(res, err, statusCode)` called with an Error object
   * instead of a string. The body's `error` is whatever `JSON.stringify` makes
   * of that object: its own enumerable fields, `{}` for a plain Error but
   * `code`, `details` and `metadata` for a Firestore error. The model keeps
   * only that the message is not a string.
   */
  function ReturnErrorObjectWithStatus<D>(statusCode: int): (r: Response<D>)
    ensures r.status == statusCode && r.body.OpaqueErrorBody? && r.body.statusCode == statusCode
  {
    Response(statusCode, OpaqueErrorBody(statusCode))
  }

  /** The `{ message }` payload most handlers answer with. */
  datatype Message = Message(message: string)

  /** `returnSuccess(res, data, statusCode = 200)`. */
  function ReturnSuccess<D>(data: D, statusCode: int := 200): (r: Response<D>)
    ensures r.status == statusCode
    ensures r.body.SuccessBody? && r.body.success && r.body.data == data
    ensures r.body.statusCode == r.status
  {
    Response(statusCode, SuccessBody(true, data, statusCode))
  }

  /** `res.status(statusCode).json(data)`. */
  function JsonReply<D>(data: D, statusCode: int): (r: Response<D>)
    ensures r.status == statusCode && r.body == DataBody(data)
  {
    Response(statusCode, DataBody(data))
  }

  /**
   * What `returnError` receives: a string, or an Error object with a name and
   * a message. Other thrown values are not distinguished.
   */
  datatype Thrown = Text(text: string) | ErrorObject(name: string, message: string)

  /** A Firestore or library failure, as handed to a catch block. */
  const DbError: Thrown := ErrorObject("Error", "database call failed")

  /** `String(error)` for the values above: `Error.prototype.toString` gives the name when the message is empty. */
  function Stringify(e: Thrown): string {
    match e
    case Text(t) => t
    case ErrorObject(name, message) => if message == "" then name else name + ": " + message
  }

  const LegacyPrefix: string := "Internal Server Error : "

  /** `returnError(res, error)`: always 500, with `error.message || error` after a fixed prefix. */
  function ReturnError<D>(e: Thrown): (r: Response<D>)
    ensures r.status == 500
    ensures r.body.LegacyErrorBody?
    ensures e.ErrorObject? && e.message != "" ==> r.body.error == LegacyPrefix + e.message
    ensures e.Text? ==> r.body.error == LegacyPrefix + e.text
    ensures e.ErrorObject? && e.message == "" ==> r.body.error == LegacyPrefix + e.name
  {
    var msg := if e.ErrorObject? && e.message != "" then e.message else Stringify(e);
    Response(500, LegacyErrorBody(LegacyPrefix + msg))
  }

  /** `res.cookie(name, value, options)` and `res.clearCookie(name)`. */
  datatype CookieOp =
    | SetCookie(name: string, value: string, maxAgeMs: int, httpOnly: bool, secure: bool, sameSite: string)
    | ClearCookie(name: string)

  /** The options the token handlers use: HttpOnly, Secure in production, SameSite=Lax. */
  function TokenCookie(name: string, value: string, maxAgeMs: int, production: bool): (c: CookieOp)
    ensures c.SetCookie? && c.name == name && c.value == value && c.maxAgeMs == maxAgeMs
    ensures c.httpOnly && c.sameSite == "lax" && (c.secure <==> production)
  {
    SetCookie(name, value, maxAgeMs, true, production, "lax")
  }

  /** The two envelopes of responseHelper.ts always repeat the HTTP status inside the body. */
  lemma EnvelopesCarryStatus<D>(message: string, data: D, status: int)
    ensures ReturnErrorWithStatus<D>(message).status == 500
    ensures ReturnSuccess(data).status == 200
    ensures ReturnErrorWithStatus<D>(message, status).body.statusCode == status
    ensures ReturnSuccess(data, status).body.statusCode == status
  {
  }
}
