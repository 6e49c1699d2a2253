/**
 * The Base64 encoding of section 4 of RFC 4648, as `crypto-js/enc-base64`
 * writes it: three bytes become four characters of the standard alphabet, and
 * a final group of one or two bytes is padded with `=`.
 */
module Base64 {

  import opened Wrappers

  type Byte = b: int | 0 <= b < 256

  /** The character for a 6-bit value: `A`-`Z`, `a`-`z`, `0`-`9`, `+`, `/`. */
  function Symbol(v: int): (c: char)
    requires 0 <= v < 64
    ensures c != '='
  {
    if v < 26 then ('A' as int + v) as char
    else if v < 52 then ('a' as int + (v - 26)) as char
    else if v < 62 then ('0' as int + (v - 52)) as char
    else if v == 62 then '+'
    else '/'
  }

  /** The four characters of a group; a missing second or third byte becomes padding. */
  function Group(b0: Byte, b1: Option<Byte>, b2: Option<Byte>): (g: string)
    requires b1.None? ==> b2.None?
    ensures |g| == 4
    ensures g[0] != '=' && g[1] != '='
    ensures g[2] == '=' <==> b1.None?
    ensures g[3] == '=' <==> b2.None?
  {
    var x1 := b1.GetOr(0);
    var x2 := b2.GetOr(0);
    [Symbol(b0 / 4),
     Symbol((b0 % 4) * 16 + x1 / 16),
     if b1.None? then '=' else Symbol((x1 % 16) * 4 + x2 / 64),
     if b2.None? then '=' else Symbol(x2 % 64)]
  }

  function Encode(b: seq<Byte>): (r: string)
    decreases |b|
  {
    if |b| == 0 then ""
    else if |b| == 1 then Group(b[0], None, None)
    else if |b| == 2 then Group(b[0], Some(b[1]), None)
    else Group(b[0], Some(b[1]), Some(b[2])) + Encode(b[3..])
  }

  /** Four characters for every started group of three bytes. */
  lemma {:induction false} EncodeLength(b: seq<Byte>)
    ensures |Encode(b)| == 4 * ((|b| + 2) / 3)
    decreases |b|
  {
    if |b| >= 3 {
      EncodeLength(b[3..]);
    }
  }

  /** Padding appears only in the last group: a whole number of groups has none. */
  lemma {:induction false} EncodeFullGroupsUnpadded(b: seq<Byte>)
    requires |b| % 3 == 0
    ensures forall i | 0 <= i < |Encode(b)| :: Encode(b)[i] != '='
    decreases |b|
  {
    if |b| >= 3 {
      EncodeFullGroupsUnpadded(b[3..]);
    }
  }

  /**
   * When the input length leaves a remainder of two bytes, the text ends in
   * exactly one `=`: the last character is `=` and no other one is.
   */
  lemma {:induction false} EncodeOnePad(b: seq<Byte>)
    requires |b| % 3 == 2
    ensures |Encode(b)| >= 4
    ensures Encode(b)[|Encode(b)| - 1] == '='
    ensures forall i | 0 <= i < |Encode(b)| - 1 :: Encode(b)[i] != '='
    decreases |b|
  {
    if |b| > 2 {
      EncodeOnePad(b[3..]);
      var g := Group(b[0], Some(b[1]), Some(b[2]));
      assert Encode(b) == g + Encode(b[3..]);
    }
  }
}
