/**
 * The CORS origin callback of src/app.ts: which `Origin` header values the
 * server accepts.
 */
module Cors {
  import opened Wrappers

  /** The development origins; no production domain is listed. */
  const AllowedOrigins: seq<string> := ["http://localhost:3000", "http://localhost:3001", "http://localhost:3002"]

  const Rejection: string := "Not allowed by CORS"

  /** The callback's answer: allowed, or the error it is called with. */
  datatype Decision = Allow | Reject(message: string)

  /**
   * A falsy origin (no header, or an empty one) is allowed; otherwise the
   * origin must be one of the listed strings exactly.
   */
  function CheckOrigin(origin: Option<string>): (d: Decision)
    ensures d.Allow? <==> origin.None? || origin.value == "" || origin.value in AllowedOrigins
    ensures d.Reject? ==> d.message == Rejection
  {
    if origin.None? || origin.value == "" then Allow
    else if exists i | 0 <= i < |AllowedOrigins| :: AllowedOrigins[i] == origin.value then Allow
    else Reject(Rejection)
  }

  /** Each of the three localhost origins, spelled exactly, is allowed. */
  lemma ListedOriginsAllowed()
    ensures CheckOrigin(Some("http://localhost:3000")) == Allow
    ensures CheckOrigin(Some("http://localhost:3001")) == Allow
    ensures CheckOrigin(Some("http://localhost:3002")) == Allow
  {
    assert AllowedOrigins[0] == "http://localhost:3000";
    assert AllowedOrigins[1] == "http://localhost:3001";
    assert AllowedOrigins[2] == "http://localhost:3002";
  }

  /**
   * Matching does not normalise: an allowed origin with a trailing slash, or
   * with its scheme in capitals, is rejected.
   */
  lemma NoNormalisation(o: string)
    requires o in AllowedOrigins
    ensures CheckOrigin(Some(o + "/")) == Reject(Rejection)
    ensures CheckOrigin(Some("HTTP" + o[4..])) == Reject(Rejection)
  {
    forall a | a in AllowedOrigins ensures |a| == 21 && a[0] == 'h' {
    }
    assert |o + "/"| == 22;
    assert ("HTTP" + o[4..])[0] == 'H';
  }

  /** Every allowed, non-empty origin is plain `http` on localhost. */
  lemma AllowedIsLocalHttp(origin: string)
    requires origin != ""
    requires CheckOrigin(Some(origin)) == Allow
    ensures |origin| == 21 && origin[..17] == "http://localhost:"
  {
  }
}
