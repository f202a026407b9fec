/** Bytes, little-endian numbers and hexadecimal text. */
module Bytes {
  import opened Results

  type Byte = b: int | 0 <= b < 256

  // ---------------------------------------------------------------- little endian

  function Pow256(n: nat): nat {
    if n == 0 then 1 else 256 * Pow256(n - 1)
  }

  function FromLe(bytes: seq<Byte>): nat {
    if bytes == [] then 0 else bytes[0] + 256 * FromLe(bytes[1..])
  }

  function ToLe(n: nat, width: nat): (bytes: seq<Byte>)
    ensures |bytes| == width
  {
    if width == 0 then [] else [n % 256] + ToLe(n / 256, width - 1)
  }

  lemma {:induction false} FromLeBound(bytes: seq<Byte>)
    ensures FromLe(bytes) < Pow256(|bytes|)
  {
    if bytes != [] {
      FromLeBound(bytes[1..]);
    }
  }

  lemma {:induction false} LeRoundTrip(n: nat, width: nat)
    requires n < Pow256(width)
    ensures FromLe(ToLe(n, width)) == n
  {
    if width > 0 {
      LeRoundTrip(n / 256, width - 1);
      assert ToLe(n, width)[1..] == ToLe(n / 256, width - 1);
    }
  }

  lemma {:induction false} LeRoundTripBack(bytes: seq<Byte>)
    ensures ToLe(FromLe(bytes), |bytes|) == bytes
  {
    if bytes != [] {
      LeRoundTripBack(bytes[1..]);
      assert FromLe(bytes) % 256 == bytes[0] && FromLe(bytes) / 256 == FromLe(bytes[1..]);
    }
  }

  lemma WidthBounds()
    ensures Pow256(4) == 0x1_0000_0000
    ensures Pow256(7) == 0x100_0000_0000_0000
    ensures Pow256(8) == 0x1_0000_0000_0000_0000
  {
    assert Pow256(1) == 256;
    assert Pow256(2) == 0x1_0000;
    assert Pow256(3) == 0x100_0000;
    assert Pow256(4) == 0x1_0000_0000;
    assert Pow256(5) == 0x100_0000_0000;
    assert Pow256(6) == 0x1_0000_0000_0000;
    assert Pow256(7) == 0x100_0000_0000_0000;
  }

  // ---------------------------------------------------------------- hexadecimal text

  const DIGITS: string := "0123456789abcdef"

  function DigitValue(c: char): Option<int> {
    if '0' <= c <= '9' then Some(c as int - '0' as int)
    else if 'a' <= c <= 'f' then Some(10 + (c as int - 'a' as int))
    else None
  }

  /** Lower case of the hexadecimal letters; other characters matter only in being rejected. */
  function Lower(c: char): char {
    if 'A' <= c <= 'Z' then ((c as int - 'A' as int) + 'a' as int) as char else c
  }

  function LowerAll(s: string): (r: string)
    ensures |r| == |s|
  {
    if s == "" then "" else [Lower(s[0])] + LowerAll(s[1..])
  }

  /** The same character, or the two forms of one hexadecimal letter. */
  predicate SameHexLetter(a: char, b: char) {
    || a == b
    || ('a' <= a <= 'f' && b as int == a as int - 32)
    || ('a' <= b <= 'f' && a as int == b as int - 32)
  }

  lemma {:induction false} LowerForgetsCase(some: string, other: string)
    requires |some| == |other| && forall i | 0 <= i < |some| :: SameHexLetter(some[i], other[i])
    ensures LowerAll(some) == LowerAll(other)
  {
    if some != "" {
      assert SameHexLetter(some[0], other[0]);
      forall i | 0 <= i < |some| - 1 ensures SameHexLetter(some[1..][i], other[1..][i]) {
        assert SameHexLetter(some[i + 1], other[i + 1]);
      }
      LowerForgetsCase(some[1..], other[1..]);
    }
  }

  function ToHex(bytes: seq<Byte>): (s: string)
    ensures |s| == 2 * |bytes|
  {
    if bytes == [] then "" else [DIGITS[bytes[0] / 16], DIGITS[bytes[0] % 16]] + ToHex(bytes[1..])
  }

  /** Lower-case digits, two for each byte. */
  function FromHex(s: string): (bytes: Option<seq<Byte>>)
    ensures bytes.Some? ==> |s| == 2 * |bytes.value|
  {
    if s == "" then Some([])
    else if |s| == 1 then None
    else
      var high, low, rest := DigitValue(s[0]), DigitValue(s[1]), FromHex(s[2..]);
      if high.None? || low.None? || rest.None? then None
      else Some([16 * high.value + low.value] + rest.value)
  }

  lemma {:induction false} HexRoundTrip(bytes: seq<Byte>)
    ensures FromHex(ToHex(bytes)) == Some(bytes)
  {
    if bytes != [] {
      hide DigitValue;
      HexRoundTrip(bytes[1..]);
      var s := ToHex(bytes);
      assert s[2..] == ToHex(bytes[1..]) && s[0] == DIGITS[bytes[0] / 16] && s[1] == DIGITS[bytes[0] % 16];
      DigitRoundTrip(bytes[0] / 16);
      DigitRoundTrip(bytes[0] % 16);
      assert [16 * (bytes[0] / 16) + bytes[0] % 16] + bytes[1..] == bytes;
    }
  }

  lemma DigitRoundTrip(d: int)
    requires 0 <= d < 16
    ensures DigitValue(DIGITS[d]) == Some(d)
  {
  }

  lemma DigitIsPrinted(c: char)
    requires DigitValue(c).Some?
    ensures 0 <= DigitValue(c).value < 16 && DIGITS[DigitValue(c).value] == c
  {
  }

  lemma ByteOfDigits(high: int, low: int)
    requires 0 <= high < 16 && 0 <= low < 16
    ensures (16 * high + low) / 16 == high && (16 * high + low) % 16 == low
  {
  }

  lemma {:induction false} HexRoundTripBack(s: string)
    requires FromHex(s).Some?
    ensures ToHex(FromHex(s).value) == s
  {
    if |s| > 1 {
      HexRoundTripBack(s[2..]);
      DigitIsPrinted(s[0]);
      DigitIsPrinted(s[1]);
      ByteOfDigits(DigitValue(s[0]).value, DigitValue(s[1]).value);
      var bytes := FromHex(s).value;
      hide DigitValue;
      assert bytes[1..] == FromHex(s[2..]).value;
      hide FromHex;
      assert ToHex(bytes) == [DIGITS[bytes[0] / 16], DIGITS[bytes[0] % 16]] + ToHex(bytes[1..]);
      assert s == [s[0], s[1]] + s[2..];
    }
  }

  lemma {:induction false} HexIsLower(s: string)
    requires FromHex(s).Some?
    ensures LowerAll(s) == s
  {
    if |s| > 1 {
      HexIsLower(s[2..]);
      assert s == [s[0], s[1]] + s[2..] && s[1..][1..] == s[2..];
      assert LowerAll(s[1..]) == [Lower(s[1])] + LowerAll(s[2..]);
    }
  }

  lemma {:induction false} HexConcat(a: string, b: string)
    requires FromHex(a).Some? && FromHex(b).Some?
    ensures FromHex(a + b) == Some(FromHex(a).value + FromHex(b).value)
  {
    hide DigitValue;
    if a == "" {
      assert a + b == b && FromHex(a).value + FromHex(b).value == FromHex(b).value;
    } else {
      HexConcat(a[2..], b);
      var both := a + b;
      assert both[2..] == a[2..] + b && both[0] == a[0] && both[1] == a[1];
      var digits := [16 * DigitValue(a[0]).value + DigitValue(a[1]).value];
      assert FromHex(a).value + FromHex(b).value == digits + (FromHex(a[2..]).value + FromHex(b).value);
    }
  }
}
