/** Lower-case hexadecimal encoding of byte strings, as `hex.EncodeToString`
    produces it, with the decoding that inverts it. */
module Hex {
  import opened Wrappers

  type Byte = b: int | 0 <= b < 256
  type Bytes = seq<Byte>

  /** The sixteen digits, in the order of their values. */
  const HexTable: string := "0123456789abcdef"

  /** The digit for a value below sixteen. */
  function Digit(n: int): (c: char)
    requires 0 <= n < 16
    ensures c in HexTable
  {
    HexTable[n]
  }

  /** The value of a hexadecimal digit; both cases are accepted, anything
      else is rejected. */
  function DigitValue(c: char): (r: Option<int>)
    ensures r.Some? ==> 0 <= r.value < 16
    ensures r.Some? <==> ('0' <= c <= '9' || 'a' <= c <= 'f' || 'A' <= c <= 'F')
  {
    if '0' <= c <= '9' then Some(c as int - '0' as int)
    else if 'a' <= c <= 'f' then Some(c as int - 'a' as int + 10)
    else if 'A' <= c <= 'F' then Some(c as int - 'A' as int + 10)
    else None
  }

  /** Each byte becomes its high digit followed by its low digit. */
  function Encode(s: Bytes): (r: string)
    ensures |r| == 2 * |s|
    ensures forall i :: 0 <= i < |r| ==> r[i] in HexTable
    decreases |s|
  {
    if s == [] then ""
    else [Digit(s[0] / 16), Digit(s[0] % 16)] + Encode(s[1..])
  }

  /** Reads pairs of digits back into bytes; an odd length or a character
      that is not a digit is an error. */
  function Decode(h: string): (r: Option<Bytes>)
    ensures r.Some? ==> |h| == 2 * |r.value|
    decreases |h|
  {
    if |h| == 0 then Some([])
    else if |h| == 1 then None
    else
      match (DigitValue(h[0]), DigitValue(h[1]), Decode(h[2..]))
      case (Some(hi), Some(lo), Some(rest)) => Some([hi * 16 + lo] + rest)
      case _ => None
  }

  lemma DigitRoundTrip(n: int)
    requires 0 <= n < 16
    ensures DigitValue(Digit(n)) == Some(n)
  {
  }

  /** Character `2 * i` is the high digit of byte `i` and character
      `2 * i + 1` its low digit. */
  lemma {:induction false} EncodeAt(s: Bytes, i: int)
    requires 0 <= i < |s|
    ensures Encode(s)[2 * i] == Digit(s[i] / 16)
    ensures Encode(s)[2 * i + 1] == Digit(s[i] % 16)
    decreases |s|
  {
    var head: string := [Digit(s[0] / 16), Digit(s[0] % 16)];
    var tail := Encode(s[1..]);
    assert Encode(s) == head + tail;
    if i > 0 {
      EncodeAt(s[1..], i - 1);
      assert s[1..][i - 1] == s[i];
    }
  }

  /** Decoding undoes encoding. */
  lemma {:induction false} DecodeEncode(s: Bytes)
    ensures Decode(Encode(s)) == Some(s)
    decreases |s|
  {
    if s != [] {
      var hi, lo := s[0] / 16, s[0] % 16;
      assert hi * 16 + lo == s[0];
      var tail := Encode(s[1..]);
      assert Encode(s) == [Digit(hi), Digit(lo)] + tail;
      DigitRoundTrip(hi);
      DigitRoundTrip(lo);
      DecodeEncode(s[1..]);
      DecodePair(Digit(hi), Digit(lo), tail, hi, lo, s[1..]);
      assert [hi * 16 + lo] + s[1..] == s;
    }
  }

  /** Decoding a string that starts with two digits. */
  lemma DecodePair(a: char, b: char, t: string, hi: int, lo: int, rest: Bytes)
    requires DigitValue(a) == Some(hi) && DigitValue(b) == Some(lo)
    requires Decode(t) == Some(rest)
    ensures 0 <= hi * 16 + lo < 256
    ensures Decode([a, b] + t) == Some([hi * 16 + lo] + rest)
  {
  }

  /** Two byte strings with the same encoding are equal. */
  lemma EncodeInjective(a: Bytes, b: Bytes)
    requires Encode(a) == Encode(b)
    ensures a == b
  {
    DecodeEncode(a);
    DecodeEncode(b);
  }
}
