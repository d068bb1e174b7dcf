/**
 * Bytes and their lower-case hexadecimal text, as Python's `bytes.hex()`
 * writes it: two digits per byte, most significant digit first.
 */
module HexText {

  newtype byte = x: int | 0 <= x < 256

  predicate IsHexDigit(c: char) {
    '0' <= c <= '9' || 'a' <= c <= 'f'
  }

  function HexDigit(d: nat): (c: char)
    requires d < 16
    ensures IsHexDigit(c)
  {
    if d < 10 then ('0' as int + d) as char else ('a' as int + d - 10) as char
  }

  function HexDigitValue(c: char): (d: nat)
    requires IsHexDigit(c)
    ensures d < 16
  {
    if '0' <= c <= '9' then c as int - '0' as int else c as int - 'a' as int + 10
  }

  lemma HexDigitRoundTrip(d: nat)
    requires d < 16
    ensures HexDigitValue(HexDigit(d)) == d
  {
  }

  /** `bytes.hex()`. */
  function Hex(b: seq<byte>): string {
    if b == [] then []
    else [HexDigit(b[0] as int / 16), HexDigit(b[0] as int % 16)] + Hex(b[1..])
  }

  /** A hex text: an even number of lower-case hex digits. */
  predicate IsHexText(h: string) {
    |h| % 2 == 0 && forall i :: 0 <= i < |h| ==> IsHexDigit(h[i])
  }

  /** `bytes.fromhex()` on a lower-case hex text. */
  function Unhex(h: string): seq<byte>
    requires IsHexText(h)
    decreases |h|
  {
    if h == [] then []
    else
      assert IsHexText(h[2..]) by { assert forall i :: 0 <= i < |h| - 2 ==> h[2..][i] == h[i + 2]; }
      [(HexDigitValue(h[0]) * 16 + HexDigitValue(h[1])) as byte] + Unhex(h[2..])
  }

  /** Two digits per byte, every one a lower-case hex digit. */
  lemma {:induction false} HexIsHexText(b: seq<byte>)
    ensures |Hex(b)| == 2 * |b|
    ensures IsHexText(Hex(b))
  {
    if b != [] {
      HexIsHexText(b[1..]);
      var h := Hex(b);
      assert forall i :: 2 <= i < |h| ==> h[i] == Hex(b[1..])[i - 2];
    }
  }

  /** The hex of a concatenation is the concatenation of the hexes. */
  lemma {:induction false} HexConcat(a: seq<byte>, b: seq<byte>)
    ensures Hex(a + b) == Hex(a) + Hex(b)
  {
    if a == [] {
      assert a + b == b;
    } else {
      assert (a + b)[1..] == a[1..] + b;
      HexConcat(a[1..], b);
    }
  }

  /** Reading the hex text back gives the bytes. */
  lemma {:induction false} HexRoundTrip(b: seq<byte>)
    ensures IsHexText(Hex(b)) && Unhex(Hex(b)) == b
  {
    HexIsHexText(b);
    if b != [] {
      var h := Hex(b);
      var x := b[0] as int;
      HexDigitRoundTrip(x / 16);
      HexDigitRoundTrip(x % 16);
      assert h[2..] == Hex(b[1..]);
      HexRoundTrip(b[1..]);
      assert (x / 16 * 16 + x % 16) as byte == b[0];
    }
  }
}
