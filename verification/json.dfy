/** JSON request values and the JavaScript truthiness tests the handlers apply to them. */
module Json {
  import opened Wrappers

  /** A JSON value as it arrives in a request body; objects and arrays are not looked into. */
  datatype Json = JStr(str: string) | JNum(num: int) | JBool(flag: bool) | JNull | JComposite

  /** JavaScript truthiness of a body field that may be `undefined` (None). */
  predicate Truthy(v: Option<Json>) {
    match v
    case None => false
    case Some(JStr(s)) => s != ""
    case Some(JNum(n)) => n != 0
    case Some(JBool(b)) => b
    case Some(JNull) => false
    case Some(JComposite) => true
  }

  /** JavaScript truthiness of a field known to be a string or `undefined`. */
  predicate Filled(s: Option<string>) {
    s.Some? && s.value != ""
  }

  /**
   * JavaScript's `Number(v)`, as arithmetic applies it to a body value: a
   * number stays itself, a boolean is 1 or 0 and null is 0; strings, objects
   * and arrays go through `coerce`, the engine's own conversion, with None
   * standing for NaN.
   */
  function ToNumber(v: Json, coerce: Json -> Option<int>): Option<int> {
    match v
    case JNum(n) => Some(n)
    case JBool(b) => Some(if b then 1 else 0)
    case JNull => Some(0)
    case _ => coerce(v)
  }

  /** The name zod reports for the type of a value it did not expect. */
  function TypeName(v: Json): string {
    match v
    case JStr(_) => "string"
    case JNum(_) => "number"
    case JBool(_) => "boolean"
    case JNull => "null"
    case JComposite => "object"
  }

  /** A string-valued field is truthy exactly when, seen as JSON, it is a truthy value. */
  lemma FilledIsTruthy(s: Option<string>)
    ensures Filled(s) <==> Truthy(if s.Some? then Some(JStr(s.value)) else None)
  {
  }

  /** `String.prototype.length`: UTF-16 code units, so a character outside the BMP counts twice. */
  function JsLength(s: string): (n: nat)
    ensures |s| <= n <= 2 * |s|
  {
    if |s| == 0 then 0
    else (if s[0] as int > 0xFFFF then 2 else 1) + JsLength(s[1..])
  }

  /** For text made only of BMP characters, JavaScript and Dafny agree on the length. */
  lemma {:induction false} JsLengthOfBmpText(s: string)
    requires forall i | 0 <= i < |s| :: s[i] as int <= 0xFFFF
    ensures JsLength(s) == |s|
  {
    if |s| > 0 {
      assert forall i | 0 <= i < |s[1..]| :: s[1..][i] == s[i + 1];
      JsLengthOfBmpText(s[1..]);
    }
  }

  /** The messages of a list of issues, joined the way `issues.map(...).join(', ')` does. */
  function Join(parts: seq<string>, sep: string): (r: string)
    ensures |parts| == 0 ==> r == ""
    ensures |parts| == 1 ==> r == parts[0]
  {
    if |parts| == 0 then ""
    else if |parts| == 1 then parts[0]
    else parts[0] + sep + Join(parts[1..], sep)
  }
}
