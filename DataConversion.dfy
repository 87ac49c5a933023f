/**
 * The two pure encoders of `utils/data_converstion.py`:
 * `int_to_hex(v) = hex(v)[2:]` and `string_to_hex(s) = s.encode("utf-8").hex()`.
 */
module DataConversion {
  import opened Common

  /** An element of a Python `str`: any code point, lone surrogates included. */
  type CodePoint = c: int | 0 <= c < 0x11_0000

  type Byte = b: int | 0 <= b < 0x100

  predicate IsSurrogate(c: CodePoint) {
    0xD800 <= c <= 0xDFFF
  }

  predicate IsHexDigit(c: char) {
    '0' <= c <= '9' || 'a' <= c <= 'f'
  }

  predicate IsHexString(s: string) {
    forall i :: 0 <= i < |s| ==> IsHexDigit(s[i])
  }

  /** The lowercase hexadecimal digit of value `d`. */
  function HexDigit(d: nat): (c: char)
    requires d < 16
    ensures IsHexDigit(c)
  {
    if d < 10 then ('0' as int + d) as char else ('a' as int + d - 10) as char
  }

  /** The value of a lowercase hexadecimal digit; the inverse of `HexDigit`. */
  function DigitValue(c: char): (d: nat)
    requires IsHexDigit(c)
    ensures d < 16 && HexDigit(d) == c
  {
    if c <= '9' then c as int - '0' as int else c as int - 'a' as int + 10
  }

  // ---------------------------------------------------------------------------
  // int_to_hex

  /** Python's `format(v, "x")`: the lowercase base-16 digits of `v`, most
    * significant first, without prefix and without leading zeros. */
  function NatToHex(v: nat): (r: string)
    ensures r != [] && IsHexString(r)
    ensures r[0] == '0' <==> v == 0
    ensures v == 0 ==> r == "0"
    decreases v
  {
    if v < 16 then [HexDigit(v)] else NatToHex(v / 16) + [HexDigit(v % 16)]
  }

  /** Python's built-in `hex(v)`: a sign for negative values, then `0x`, then the digits of `|v|`. */
  function PyHex(v: int): string {
    (if v < 0 then "-" else "") + "0x" + NatToHex(if v < 0 then -v else v)
  }

  /** `int_to_hex(v) = hex(v)[2:]`. For `v >= 0` this drops the `0x` prefix; for
    * `v < 0` it drops `-0`, leaving `x` followed by the digits of `-v`. */
  function IntToHex(v: int): (r: string)
    ensures v >= 0 ==> r == NatToHex(v)
    ensures v < 0 ==> r == "x" + NatToHex(-v)
  {
    PyHex(v)[2..]
  }

  /** The value of a string of hexadecimal digits read in base 16. */
  function HexValue(s: string): nat
    requires IsHexString(s)
  {
    if s == [] then 0 else HexValue(s[..|s| - 1]) * 16 + DigitValue(s[|s| - 1])
  }

  /** For `v >= 0` the output is lowercase hex digits only, with no prefix and no
    * leading zero (`"0"` for zero). */
  lemma IntToHexShape(v: int)
    requires v >= 0
    ensures IntToHex(v) != [] && IsHexString(IntToHex(v))
    ensures IntToHex(v)[0] != '0' || IntToHex(v) == "0"
    ensures IntToHex(0) == "0"
  {
  }

  /** Reading `int_to_hex(v)` back in base 16 gives `v`. */
  lemma {:induction false} IntToHexRoundTrip(v: nat)
    ensures HexValue(IntToHex(v)) == v
  {
    var r := NatToHex(v);
    if v >= 16 {
      IntToHexRoundTrip(v / 16);
      assert r[..|r| - 1] == NatToHex(v / 16);
    }
  }

  /** A value whose leading digit is not zero is positive. */
  lemma {:induction false} HexValuePositive(s: string)
    requires IsHexString(s) && s != [] && s[0] != '0'
    ensures HexValue(s) > 0
  {
    if |s| > 1 {
      HexValuePositive(s[..|s| - 1]);
    } else {
      assert DigitValue(s[0]) != 0;
    }
  }

  /** Conversely, every canonical hex string (no leading zero unless it is `"0"`)
    * is the `int_to_hex` of its value: the encoding is onto the canonical forms. */
  lemma {:induction false} IntToHexCanonical(s: string)
    requires s != [] && IsHexString(s)
    requires s[0] != '0' || s == "0"
    ensures IntToHex(HexValue(s)) == s
  {
    var p, c := s[..|s| - 1], s[|s| - 1];
    var d := DigitValue(c);
    if p == [] {
      assert s == [c];
    } else {
      assert p[0] == s[0];
      HexValuePositive(p);
      var x := HexValue(p);
      var v := x * 16 + d;
      assert v / 16 == x && v % 16 == d;
      IntToHexCanonical(p);
      assert s == p + [c];
    }
  }

  // ---------------------------------------------------------------------------
  // UTF-8 (RFC 3629) encoding of a code point

  /** The number of UTF-8 bytes of a non-surrogate code point. */
  function Utf8Width(c: CodePoint): nat {
    if c < 0x80 then 1 else if c < 0x800 then 2 else if c < 0x1_0000 then 3 else 4
  }

  /** The UTF-8 bytes of one non-surrogate code point. */
  function Utf8Char(c: CodePoint): (bs: seq<Byte>)
    requires !IsSurrogate(c)
    ensures |bs| == Utf8Width(c)
  {
    if c < 0x80 then [c]
    else if c < 0x800 then [0xC0 + c / 64, 0x80 + c % 64]
    else if c < 0x1_0000 then [0xE0 + c / 4096, 0x80 + (c / 64) % 64, 0x80 + c % 64]
    else [0xF0 + c / 262144, 0x80 + (c / 4096) % 64, 0x80 + (c / 64) % 64, 0x80 + c % 64]
  }

  /** `s.encode("utf-8")`: `None` stands for the `UnicodeEncodeError` raised
    * exactly when `s` holds a lone surrogate. */
  function Utf8Encode(s: seq<CodePoint>): (r: Option<seq<Byte>>)
    ensures r.None? <==> exists i :: 0 <= i < |s| && IsSurrogate(s[i])
  {
    if s == [] then Some([])
    else if IsSurrogate(s[0]) then None
    else match Utf8Encode(s[1..])
      case None =>
        assert exists i :: 0 <= i < |s[1..]| && IsSurrogate(s[1..][i]);
        None
      case Some(rest) =>
        assert forall i :: 0 <= i < |s| ==> !IsSurrogate(s[i]) by {
          forall i | 0 <= i < |s| ensures !IsSurrogate(s[i]) { if i > 0 { assert s[i] == s[1..][i - 1]; } }
        }
        Some(Utf8Char(s[0]) + rest)
  }

  /** The total UTF-8 length of a surrogate-free string. */
  function Utf8Length(s: seq<CodePoint>): nat {
    if s == [] then 0 else (if IsSurrogate(s[0]) then 0 else Utf8Width(s[0])) + Utf8Length(s[1..])
  }

  /** The encoded length is the sum of the widths of the code points. */
  lemma {:induction false} Utf8EncodeLength(s: seq<CodePoint>)
    requires Utf8Encode(s).Some?
    ensures |Utf8Encode(s).value| == Utf8Length(s)
    ensures |s| <= Utf8Length(s) <= 4 * |s|
  {
    if s != [] {
      Utf8EncodeLength(s[1..]);
    }
  }

  /** Encoding distributes over concatenation. */
  lemma {:induction false} Utf8EncodeConcat(a: seq<CodePoint>, b: seq<CodePoint>)
    requires Utf8Encode(a).Some? && Utf8Encode(b).Some?
    ensures Utf8Encode(a + b) == Some(Utf8Encode(a).value + Utf8Encode(b).value)
  {
    if a == [] {
      assert a + b == b;
      assert Utf8Encode(a).value + Utf8Encode(b).value == Utf8Encode(b).value;
    } else {
      assert (a + b)[0] == a[0];
      assert (a + b)[1..] == a[1..] + b;
      assert !IsSurrogate(a[0]);
      Utf8EncodeConcat(a[1..], b);
      var e, x, y := Utf8Char(a[0]), Utf8Encode(a[1..]).value, Utf8Encode(b).value;
      assert Utf8Encode(a) == Some(e + x);
      assert Utf8Encode(a + b) == Some(e + (x + y));
      assert e + (x + y) == (e + x) + y;
    }
  }

  predicate IsContinuation(b: Byte) {
    0x80 <= b < 0xC0
  }

  /** A UTF-8 decoder by lead byte, the reference partner of `Utf8Encode`. */
  function Utf8Decode(bs: seq<Byte>): Option<seq<CodePoint>>
    decreases |bs|
  {
    if bs == [] then Some([])
    else
      var b0: int := bs[0];
      var n := if b0 < 0x80 then 1 else if 0xC0 <= b0 < 0xE0 then 2
               else if 0xE0 <= b0 < 0xF0 then 3 else if 0xF0 <= b0 < 0xF8 then 4 else 0;
      if n == 0 || |bs| < n then None
      else if exists k :: 1 <= k < n && !IsContinuation(bs[k]) then None
      else
        var c :=
          if n == 1 then b0
          else if n == 2 then (b0 - 0xC0) * 64 + (bs[1] as int - 0x80)
          else if n == 3 then (b0 - 0xE0) * 4096 + (bs[1] as int - 0x80) * 64 + (bs[2] as int - 0x80)
          else (b0 - 0xF0) * 262144 + (bs[1] as int - 0x80) * 4096 + (bs[2] as int - 0x80) * 64
               + (bs[3] as int - 0x80);
        if c >= 0x11_0000 then None
        else match Utf8Decode(bs[n..])
          case None => None
          case Some(rest) => Some([c as CodePoint] + rest)
  }

  /** The bytes of one code point decode back to it, whatever follows them. */
  lemma Utf8CharDecodes(c: CodePoint, rest: seq<Byte>)
    requires !IsSurrogate(c)
    ensures Utf8Decode(Utf8Char(c) + rest) ==
      match Utf8Decode(rest) case None => None case Some(cs) => Some([c] + cs)
  {
    if c < 0x80 {
      assert (Utf8Char(c) + rest)[1..] == rest;
    } else if c < 0x800 {
      Utf8TwoBytesDecode(c, rest);
    } else if c < 0x1_0000 {
      Utf8ThreeBytesDecode(c, rest);
    } else {
      Utf8FourBytesDecode(c, rest);
    }
  }

  lemma Utf8TwoBytesDecode(c: CodePoint, rest: seq<Byte>)
    requires 0x80 <= c < 0x800
    ensures Utf8Decode(Utf8Char(c) + rest) ==
      match Utf8Decode(rest) case None => None case Some(cs) => Some([c] + cs)
  {
    var bs := Utf8Char(c) + rest;
    assert bs[0] == 0xC0 + c / 64 && bs[1] == 0x80 + c % 64;
    assert bs[2..] == rest;
    assert (c / 64) * 64 + c % 64 == c;
  }

  lemma Utf8ThreeBytesDecode(c: CodePoint, rest: seq<Byte>)
    requires 0x800 <= c < 0x1_0000 && !IsSurrogate(c)
    ensures Utf8Decode(Utf8Char(c) + rest) ==
      match Utf8Decode(rest) case None => None case Some(cs) => Some([c] + cs)
  {
    var bs := Utf8Char(c) + rest;
    assert bs[0] == 0xE0 + c / 4096 && bs[1] == 0x80 + (c / 64) % 64 && bs[2] == 0x80 + c % 64;
    assert bs[3..] == rest;
    var q := c / 64;
    assert q / 64 == c / 4096;
    assert (c / 4096) * 4096 + (q % 64) * 64 + c % 64 == c;
  }

  lemma Utf8FourBytesDecode(c: CodePoint, rest: seq<Byte>)
    requires 0x1_0000 <= c
    ensures Utf8Decode(Utf8Char(c) + rest) ==
      match Utf8Decode(rest) case None => None case Some(cs) => Some([c] + cs)
  {
    var bs := Utf8Char(c) + rest;
    assert bs[0] == 0xF0 + c / 262144 && bs[1] == 0x80 + (c / 4096) % 64;
    assert bs[2] == 0x80 + (c / 64) % 64 && bs[3] == 0x80 + c % 64;
    assert bs[4..] == rest;
    var q := c / 64;
    var p := q / 64;
    assert p == c / 4096 && p / 64 == c / 262144;
    assert (c / 262144) * 262144 + (p % 64) * 4096 + (q % 64) * 64 + c % 64 == c;
  }

  /** UTF-8 decoding inverts UTF-8 encoding. */
  lemma {:induction false} Utf8RoundTrip(s: seq<CodePoint>)
    requires Utf8Encode(s).Some?
    ensures Utf8Decode(Utf8Encode(s).value) == Some(s)
  {
    if s != [] {
      Utf8RoundTrip(s[1..]);
      Utf8CharDecodes(s[0], Utf8Encode(s[1..]).value);
      assert s == [s[0]] + s[1..];
    }
  }

  // ---------------------------------------------------------------------------
  // bytes.hex() and string_to_hex

  /** `bytes.hex()`: every byte becomes two lowercase hex digits, high nibble first, in order. */
  function BytesToHex(bs: seq<Byte>): (r: string)
    ensures |r| == 2 * |bs| && IsHexString(r)
    ensures forall i :: 0 <= i < |bs| ==>
      r[2 * i] == HexDigit(bs[i] / 16) && r[2 * i + 1] == HexDigit(bs[i] % 16)
  {
    if bs == [] then "" else [HexDigit(bs[0] / 16), HexDigit(bs[0] % 16)] + BytesToHex(bs[1..])
  }

  /** `bytes.fromhex(h)` for lowercase input of even length: the partner of `BytesToHex`. */
  function HexToBytes(h: string): (bs: seq<Byte>)
    requires |h| % 2 == 0 && IsHexString(h)
    ensures |bs| * 2 == |h|
  {
    if h == [] then [] else [DigitValue(h[0]) * 16 + DigitValue(h[1])] + HexToBytes(h[2..])
  }

  lemma {:induction false} BytesToHexRoundTrip(bs: seq<Byte>)
    ensures HexToBytes(BytesToHex(bs)) == bs
  {
    if bs != [] {
      var h := BytesToHex(bs);
      assert h[2..] == BytesToHex(bs[1..]);
      BytesToHexRoundTrip(bs[1..]);
      var b := bs[0];
      assert (b / 16) * 16 + b % 16 == b;
    }
  }

  lemma {:induction false} BytesToHexConcat(a: seq<Byte>, b: seq<Byte>)
    ensures BytesToHex(a + b) == BytesToHex(a) + BytesToHex(b)
  {
    if a == [] {
      assert a + b == b;
    } else {
      assert (a + b)[0] == a[0];
      assert (a + b)[1..] == a[1..] + b;
      BytesToHexConcat(a[1..], b);
    }
  }

  /** `string_to_hex(s)`: the hex of the UTF-8 bytes of `s`, or `None` when the
    * encoding raises (the `except` branch returns `None`). */
  function StringToHex(s: seq<CodePoint>): (r: Option<string>)
    ensures r.None? <==> exists i :: 0 <= i < |s| && IsSurrogate(s[i])
    ensures r.Some? ==> IsHexString(r.value) && |r.value| % 2 == 0
  {
    match Utf8Encode(s)
    case None => None
    case Some(bs) => Some(BytesToHex(bs))
  }

  /** `string_to_hex` fails exactly on strings holding a lone surrogate; otherwise
    * its output has twice as many characters as `s` has UTF-8 bytes, and decoding
    * the hex then the UTF-8 gives `s` back. */
  lemma StringToHexSpec(s: seq<CodePoint>)
    ensures StringToHex(s).None? <==> exists i :: 0 <= i < |s| && IsSurrogate(s[i])
    ensures StringToHex(s).Some? ==>
      var h := StringToHex(s).value;
      |h| == 2 * Utf8Length(s) && IsHexString(h) && Utf8Decode(HexToBytes(h)) == Some(s)
  {
    if Utf8Encode(s).Some? {
      var bs := Utf8Encode(s).value;
      Utf8EncodeLength(s);
      BytesToHexRoundTrip(bs);
      Utf8RoundTrip(s);
    }
  }

  /** `string_to_hex("") == ""`, and for encodable strings the hex of a
    * concatenation is the concatenation of the hexes. */
  lemma StringToHexConcat(a: seq<CodePoint>, b: seq<CodePoint>)
    requires StringToHex(a).Some? && StringToHex(b).Some?
    ensures StringToHex([]) == Some("")
    ensures StringToHex(a + b) == Some(StringToHex(a).value + StringToHex(b).value)
  {
    Utf8EncodeConcat(a, b);
    BytesToHexConcat(Utf8Encode(a).value, Utf8Encode(b).value);
  }
}
