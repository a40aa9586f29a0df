/** Lower-case hexadecimal text of a byte string, as Node's `Buffer.toString('hex')`
    writes it, and the decoding that inverts it. */
module Hex {
  import opened Seqs

  type Byte = b: int | 0 <= b < 256

  const Digits: string := "0123456789abcdef"

  /** Two digits per byte, high nibble first. */
  function HexEncode(bytes: seq<Byte>): (s: string)
    ensures |s| == 2 * |bytes|
    ensures forall i :: 0 <= i < |s| ==> s[i] in Digits
  {
    if bytes == [] then []
    else [Digits[bytes[0] / 16], Digits[bytes[0] % 16]] + HexEncode(bytes[1..])
  }

  /** The value of a lower-case hexadecimal digit, or -1 for any other character. */
  function DigitValue(c: char): (v: int)
    ensures -1 <= v < 16
    ensures 0 <= v ==> Digits[v] == c
    ensures c in Digits ==> 0 <= v
  {
    if '0' <= c <= '9' then c as int - '0' as int
    else if 'a' <= c <= 'f' then c as int - 'a' as int + 10
    else -1
  }

  /** The bytes written by s, or None when s has odd length or a character that is not a digit. */
  function HexDecode(s: string): (r: Option<seq<Byte>>)
    ensures r.Some? ==> |s| == 2 * |r.value|
  {
    if s == [] then Some([])
    else if |s| == 1 then None
    else
      var hi, lo := DigitValue(s[0]), DigitValue(s[1]);
      if hi < 0 || lo < 0 then None
      else
        match HexDecode(s[2..])
        case None => None
        case Some(rest) => Some([(hi * 16 + lo) as Byte] + rest)
  }

  lemma DigitValueOfDigit(n: int)
    requires 0 <= n < 16
    ensures DigitValue(Digits[n]) == n
  {
    assert Digits[n] in Digits;
  }

  lemma HexDecodeCons(s: string, rest: seq<Byte>)
    requires |s| >= 2 && DigitValue(s[0]) >= 0 && DigitValue(s[1]) >= 0
    requires HexDecode(s[2..]) == Some(rest)
    ensures HexDecode(s) == Some([(DigitValue(s[0]) * 16 + DigitValue(s[1])) as Byte] + rest)
  {
  }

  /** The two digits of a byte give the byte back. */
  lemma DigitsOfByte(b: Byte)
    ensures DigitValue(Digits[b / 16]) * 16 + DigitValue(Digits[b % 16]) == b
  {
    DigitValueOfDigit(b / 16);
    DigitValueOfDigit(b % 16);
  }

  /** Decoding the two digits of a byte in front of decodable text. */
  lemma HexDecodePair(b: Byte, tail: string, rest: seq<Byte>)
    requires HexDecode(tail) == Some(rest)
    ensures HexDecode([Digits[b / 16], Digits[b % 16]] + tail) == Some([b] + rest)
  {
    var s := [Digits[b / 16], Digits[b % 16]] + tail;
    assert s[2..] == tail;
    DigitsOfByte(b);
    DigitValueOfDigit(b / 16);
    DigitValueOfDigit(b % 16);
    HexDecodeCons(s, rest);
  }

  /** Decoding the hexadecimal text of a byte string gives the byte string back. */
  lemma {:induction false} HexRoundTrip(bytes: seq<Byte>)
    ensures HexDecode(HexEncode(bytes)) == Some(bytes)
  {
    if bytes != [] {
      HexRoundTrip(bytes[1..]);
      HexDecodePair(bytes[0], HexEncode(bytes[1..]), bytes[1..]);
      assert bytes == [bytes[0]] + bytes[1..];
    }
  }
}
