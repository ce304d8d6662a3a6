/**
 * Digit strings: the hexadecimal text of encoding/hex (used for the text
 * form of a transaction and of a hash) and the decimal text of
 * strconv.FormatUint (used for an outpoint's index).
 */
module Digits {
  import opened Wire

  /** A lowercase hexadecimal digit, as encoding/hex writes one. */
  predicate IsLowerHex(c: char)
  {
    '0' <= c <= '9' || 'a' <= c <= 'f'
  }

  /** The lowercase digit for a nibble. */
  function HexDigit(d: nat): (c: char)
    requires d < 16
    ensures IsLowerHex(c) && HexValue(c) == d
  {
    if d < 10 then (d + '0' as int) as char else (d - 10 + 'a' as int) as char
  }

  /** Lowercase hexadecimal, two digits per byte, high nibble first. */
  function HexEncode(b: seq<byte>): (s: string)
    ensures |s| == 2 * |b|
  {
    if b == [] then "" else [HexDigit(b[0] / 16), HexDigit(b[0] % 16)] + HexEncode(b[1..])
  }

  /** The value of a hexadecimal digit in either case, or -1. */
  function HexValue(c: char): (v: int)
    ensures -1 <= v < 16
  {
    if '0' <= c <= '9' then c as int - '0' as int
    else if 'a' <= c <= 'f' then c as int - 'a' as int + 10
    else if 'A' <= c <= 'F' then c as int - 'A' as int + 10
    else -1
  }

  /** hex.Decode: an odd length or a non-hexadecimal character is an error. */
  function HexDecode(s: string): (r: Result<seq<byte>>)
    ensures r.Ok? ==> 2 * |r.value| == |s|
  {
    if |s| % 2 == 1 then Err(InvalidHexText)
    else if s == [] then Ok([])
    else
      var hi, lo := HexValue(s[0]), HexValue(s[1]);
      if hi < 0 || lo < 0 then Err(InvalidHexText)
      else
        match HexDecode(s[2..])
        case Err(e) => Err(e)
        case Ok(rest) => Ok([hi * 16 + lo] + rest)
  }

  lemma {:induction false} HexRoundTrip(b: seq<byte>)
    ensures HexDecode(HexEncode(b)) == Ok(b)
  {
    if b != [] {
      var s := HexEncode(b);
      assert s[2..] == HexEncode(b[1..]);
      HexRoundTrip(b[1..]);
      assert [b[0]] + b[1..] == b;
    }
  }

  lemma {:induction false} HexEncodeIsLowercase(b: seq<byte>)
    ensures forall i :: 0 <= i < |HexEncode(b)| ==> IsLowerHex(HexEncode(b)[i])
  {
    if b != [] {
      HexEncodeIsLowercase(b[1..]);
      var s := HexEncode(b);
      forall i | 0 <= i < |s| ensures IsLowerHex(s[i]) {
        if i >= 2 {
          assert s[i] == HexEncode(b[1..])[i - 2];
        }
      }
    }
  }

  /** A character that is no hexadecimal digit, anywhere in the text, makes
      the whole text invalid. */
  lemma {:induction false} NonHexRefused(s: string, i: nat)
    requires i < |s| && HexValue(s[i]) < 0
    ensures HexDecode(s) == Err(InvalidHexText)
    decreases |s|
  {
    if |s| % 2 == 0 && i >= 2 {
      assert s[2..][i - 2] == s[i];
      NonHexRefused(s[2..], i - 2);
    }
  }

  /** Text of odd length is invalid. */
  lemma OddLengthRefused(s: string)
    requires |s| % 2 == 1
    ensures HexDecode(s) == Err(InvalidHexText)
  {
  }

  predicate IsDigit(c: char)
  {
    '0' <= c <= '9'
  }

  function DigitChar(d: nat): (c: char)
    requires d < 10
    ensures IsDigit(c) && c as int - '0' as int == d
  {
    (d + '0' as int) as char
  }

  /** strconv.FormatUint(n, 10): decimal digits, no leading zero. */
  function DecimalString(n: nat): (s: string)
    ensures |s| >= 1
    ensures forall i :: 0 <= i < |s| ==> IsDigit(s[i])
    ensures s[0] == '0' ==> n == 0 && s == "0"
    decreases n
  {
    if n < 10 then [DigitChar(n)] else DecimalString(n / 10) + [DigitChar(n % 10)]
  }

  /** The number a string of decimal digits denotes. */
  function DecimalValue(s: string): nat
    requires forall i :: 0 <= i < |s| ==> IsDigit(s[i])
  {
    if s == [] then 0
    else
      assert IsDigit(s[|s| - 1]);
      DecimalValue(s[..|s| - 1]) * 10 + (s[|s| - 1] as int - '0' as int)
  }

  lemma {:induction false} DecimalRoundTrip(n: nat)
    ensures DecimalValue(DecimalString(n)) == n
    decreases n
  {
    if n >= 10 {
      var s := DecimalString(n);
      assert s[..|s| - 1] == DecimalString(n / 10);
      DecimalRoundTrip(n / 10);
    }
  }
}
