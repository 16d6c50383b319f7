/**
 * Identifiers of the ledger (types/guid.go): a GUID is the hexadecimal text
 * of 16 bytes. Bytes decodes it as encoding/hex does and then checks the
 * length; NewGUID's last step hex-encodes a 16-byte digest.
 */
module Guid {
  import opened Wrappers

  type Byte = b: int | 0 <= b < 256

  type GUID = string

  predicate IsHex(c: char)
  {
    '0' <= c <= '9' || 'a' <= c <= 'f' || 'A' <= c <= 'F'
  }

  predicate AllHex(s: string) { forall i :: 0 <= i < |s| ==> IsHex(s[i]) }

  /** The value of one hexadecimal digit, in either case. */
  function HexValue(c: char): (v: nat)
    requires IsHex(c)
    ensures v < 16
  {
    if '0' <= c <= '9' then (c as int - '0' as int) as nat
    else if 'a' <= c <= 'f' then (c as int - 'a' as int + 10) as nat
    else (c as int - 'A' as int + 10) as nat
  }

  /** The lower-case digit encoding/hex writes for a value below 16. */
  function HexChar(v: nat): (c: char)
    requires v < 16
    ensures IsHex(c) && HexValue(c) == v
  {
    if v < 10 then (v + '0' as int) as char else (v - 10 + 'a' as int) as char
  }

  /** The errors of encoding/hex: a non-hex character, or an odd length. */
  datatype HexError = InvalidByte(c: char) | OddLength

  /**
   * hex.DecodeString: pairs of digits, left to right. The first bad character
   * is reported; a trailing unpaired digit gives OddLength, an unpaired
   * non-digit gives InvalidByte.
   */
  function HexDecode(s: string): (r: Result<seq<Byte>, HexError>)
    ensures r.Ok? <==> AllHex(s) && |s| % 2 == 0
    ensures r.Ok? ==> |r.value| == |s| / 2
    ensures r == Err(OddLength) <==> AllHex(s) && |s| % 2 == 1
  {
    if |s| == 0 then Ok([])
    else if !IsHex(s[0]) then Err(InvalidByte(s[0]))
    else if |s| == 1 then Err(OddLength)
    else if !IsHex(s[1]) then Err(InvalidByte(s[1]))
    else
      var tail := HexDecode(s[2..]);
      assert AllHex(s) <==> AllHex(s[2..]) by {
        assert forall k :: 2 <= k < |s| ==> s[k] == s[2..][k - 2];
      }
      match tail
      case Err(e) => Err(e)
      case Ok(rest) => Ok([16 * HexValue(s[0]) + HexValue(s[1])] + rest)
  }

  /** Byte i of a successful decode is the value of the digit pair at 2i. */
  lemma {:induction false} HexDecodeBytes(s: string, i: nat)
    requires HexDecode(s).Ok? && i < |s| / 2
    ensures HexDecode(s).value[i] == 16 * HexValue(s[2 * i]) + HexValue(s[2 * i + 1])
  {
    if i > 0 {
      HexDecodeBytes(s[2..], i - 1);
      assert s[2 * i] == s[2..][2 * (i - 1)] && s[2 * i + 1] == s[2..][2 * (i - 1) + 1];
    }
  }

  /** hex.EncodeToString: two lower-case digits per byte, high nibble first. */
  function HexEncode(b: seq<Byte>): (s: string)
    ensures |s| == 2 * |b|
  {
    if b == [] then [] else [HexChar(b[0] / 16), HexChar(b[0] % 16)] + HexEncode(b[1..])
  }

  /** Character pair i of the encoding is byte i's high and low nibble. */
  lemma {:induction false} HexEncodeDigits(b: seq<Byte>, i: nat)
    requires i < |b|
    ensures HexEncode(b)[2 * i] == HexChar(b[i] / 16) && HexEncode(b)[2 * i + 1] == HexChar(b[i] % 16)
  {
    if i > 0 {
      HexEncodeDigits(b[1..], i - 1);
    }
  }

  lemma HexEncodeIsHex(b: seq<Byte>)
    ensures AllHex(HexEncode(b))
  {
    var s := HexEncode(b);
    forall k | 0 <= k < |s| ensures IsHex(s[k]) {
      HexEncodeDigits(b, k / 2);
    }
  }

  datatype GuidError =
    | Hex(cause: HexError)        // the error of hex.DecodeString
    | InvalidLength(length: nat)  // "invalid GUID of length ..."

  /** GUID.Bytes: decode the text; valid hex of any length but 16 bytes is an error. */
  function Bytes(g: GUID): (r: Result<seq<Byte>, GuidError>)
    ensures r.Ok? <==> |g| == 32 && AllHex(g)
    ensures r.Ok? ==> |r.value| == 16 && forall i :: 0 <= i < 16 ==>
                        r.value[i] == 16 * HexValue(g[2 * i]) + HexValue(g[2 * i + 1])
    ensures r.Err? && r.error.InvalidLength? <==> AllHex(g) && |g| % 2 == 0 && |g| != 32
    ensures r.Err? && r.error.InvalidLength? ==> r.error.length == |g| / 2
    ensures r.Err? && r.error.Hex? <==> !AllHex(g) || |g| % 2 == 1
  {
    match HexDecode(g)
    case Err(e) => Err(Hex(e))
    case Ok(x) =>
      if |x| != 16 then Err(InvalidLength(|x|))
      else
        assert forall i :: 0 <= i < 16 ==> x[i] == 16 * HexValue(g[2 * i]) + HexValue(g[2 * i + 1]) by {
          forall i | 0 <= i < 16 ensures x[i] == 16 * HexValue(g[2 * i]) + HexValue(g[2 * i + 1]) {
            HexDecodeBytes(g, i);
          }
        }
        Ok(x)
  }

  lemma {:induction false} HexDecodeOfEncode(b: seq<Byte>)
    ensures HexDecode(HexEncode(b)) == Ok(b)
  {
    var s := HexEncode(b);
    HexEncodeIsHex(b);
    var r := HexDecode(s);
    assert |r.value| == |b|;
    forall i | 0 <= i < |b| ensures r.value[i] == b[i] {
      HexEncodeDigits(b, i);
      HexDecodeBytes(s, i);
      assert HexValue(s[2 * i]) == b[i] / 16 && HexValue(s[2 * i + 1]) == b[i] % 16;
    }
    assert r.value == b;
  }

  /**
   * NewGUID ends with hex.EncodeToString of a 16-byte MD5 digest: the
   * identifier has 32 characters and Bytes gives the digest back.
   */
  lemma NewGuidText(digest: seq<Byte>)
    requires |digest| == 16
    ensures |HexEncode(digest)| == 32
    ensures Bytes(HexEncode(digest)) == Ok(digest)
  {
    HexDecodeOfEncode(digest);
  }
}
