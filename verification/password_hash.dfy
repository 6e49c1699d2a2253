/**
 * `hashPassword` of src/utils/functions/encodedString.ts: the Base64 text of
 * the SHA-256 digest of the password followed by the salt. SHA-256 itself is
 * an oracle returning a 32-byte digest; Base64 is written out.
 */
module PasswordHash {
  import Base64
  import opened Wrappers

  type Digest = d: seq<Base64.Byte> | |d| == 32 witness seq(32, _ => 0)

  /** SHA-256 (FIPS 180-4) of the UTF-8 bytes of a string. */
  type Sha256 = string -> Digest

  function HashPassword(sha: Sha256, password: string, salt: string): (h: string)
    ensures |h| == 44
    ensures h[43] == '='
    ensures forall i | 0 <= i < 43 :: h[i] != '='
  {
    var d := sha(password + salt);
    Base64.EncodeLength(d);
    Base64.EncodeOnePad(d);
    Base64.Encode(d)
  }

  /** The digest depends on the concatenation only: moving characters between password and salt changes nothing. */
  lemma SameConcatenationSameHash(sha: Sha256, p1: string, s1: string, p2: string, s2: string)
    requires p1 + s1 == p2 + s2
    ensures HashPassword(sha, p1, s1) == HashPassword(sha, p2, s2)
  {
  }

  lemma ShiftedSaltCollides(sha: Sha256)
    ensures HashPassword(sha, "ab", "c") == HashPassword(sha, "a", "bc")
  {
    assert "ab" + "c" == "a" + "bc";
  }

  /**
   * An operand of JavaScript's `password + salt` that may be `undefined`: it
   * contributes the word "undefined".
   */
  function JsText(v: Option<string>): (t: string)
    ensures v.Some? ==> t == v.value
    ensures v.None? ==> t == "undefined"
  {
    if v.Some? then v.value else "undefined"
  }

}
