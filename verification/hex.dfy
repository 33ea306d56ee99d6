/** Upper-case hexadecimal rendering of a byte string, as `bytes.hex().upper()` produces it. */
module Hex {
  import opened Wrappers

  newtype byte = x: int | 0 <= x < 256

  /** The sixteen digits `bytes.hex().upper()` draws from, in value order. */
  const HexDigits: string := "0123456789ABCDEF"

  /** The two digits of one byte, high nibble first. */
  function ByteDigits(b: byte): (r: string)
    ensures |r| == 2 && r[0] in HexDigits && r[1] in HexDigits
  {
    [HexDigits[b as int / 16], HexDigits[b as int % 16]]
  }

  /** Two upper-case hex digits per byte, in byte order. */
  function HexUpper(bs: seq<byte>): (r: string)
    ensures |r| == 2 * |bs|
    ensures forall i | 0 <= i < |r| :: r[i] in HexDigits
  {
    if bs == [] then [] else ByteDigits(bs[0]) + HexUpper(bs[1..])
  }

  /** The value of one upper-case hex digit, or None for any other character. */
  function DigitValue(c: char): (r: Option<nat>)
    ensures r.Some? <==> c in HexDigits
    ensures r.Some? ==> r.value < 16 && HexDigits[r.value] == c
  {
    if '0' <= c <= '9' then Some(c as int - '0' as int)
    else if 'A' <= c <= 'F' then Some(c as int - 'A' as int + 10)
    else None
  }

  /** The byte whose high and low nibbles are `hi` and `lo`. */
  function Join(hi: nat, lo: nat): (b: byte)
    requires hi < 16 && lo < 16
    ensures b as int / 16 == hi && b as int % 16 == lo
  {
    (hi * 16 + lo) as byte
  }

  /** The inverse of HexUpper, pairs of upper-case digits back to bytes; it serves only to show the rendering injective. */
  function HexDecode(s: string): (r: Option<seq<byte>>)
    ensures r.Some? ==> 2 * |r.value| == |s|
    decreases |s|
  {
    if |s| < 2 then (if s == [] then Some([]) else None)
    else
      var hi := DigitValue(s[0]);
      var lo := DigitValue(s[1]);
      var rest := HexDecode(s[2..]);
      if hi.Some? && lo.Some? && rest.Some? then Some([Join(hi.value, lo.value)] + rest.value)
      else None
  }

  /** Each digit of HexDigits reads back as its own position. */
  lemma DigitRoundTrip(d: nat)
    requires d < 16
    ensures DigitValue(HexDigits[d]) == Some(d)
  {
  }

  /** Decoding the two digits of a byte gives the byte back. */
  lemma ByteRoundTrip(b: byte)
    ensures DigitValue(ByteDigits(b)[0]) == Some(b as int / 16)
    ensures DigitValue(ByteDigits(b)[1]) == Some(b as int % 16)
    ensures Join(b as int / 16, b as int % 16) == b
  {
    DigitRoundTrip(b as int / 16);
    DigitRoundTrip(b as int % 16);
  }

  /** Decoding what HexUpper rendered gives back the original bytes. */
  lemma {:induction false} HexRoundTrip(bs: seq<byte>)
    ensures HexDecode(HexUpper(bs)) == Some(bs)
  {
    if bs != [] {
      var s := HexUpper(bs);
      var d := ByteDigits(bs[0]);
      assert s == d + HexUpper(bs[1..]);
      assert s[0] == d[0] && s[1] == d[1];
      assert s[2..] == HexUpper(bs[1..]);
      ByteRoundTrip(bs[0]);
      HexRoundTrip(bs[1..]);
      assert [bs[0]] + bs[1..] == bs;
    }
  }

  /** One zero byte renders as "00". */
  lemma ZeroByteHex()
    ensures HexUpper([0]) == "00"
  {
  }

  /** Nothing but one zero byte renders as "00". */
  lemma OnlyZeroByteRendersZero(bs: seq<byte>)
    requires HexUpper(bs) == "00"
    ensures bs == [0]
  {
    assert |bs| == 1;
    var b := bs[0];
    assert bs[1..] == [];
    assert ByteDigits(b) == HexUpper(bs) == "00";
    ByteRoundTrip(b);
    assert b as int / 16 == 0 && b as int % 16 == 0;
    assert bs == [b];
  }
}
