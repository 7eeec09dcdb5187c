/**
 * UTF-8 (RFC 3629) over Unicode scalar values. Swift strings and Dafny strings are both
 * sequences of scalar values; `Data` is a sequence of octets.
 */
module Utf8 {
  import opened Wrappers

  /** One octet of a `Data` value. */
  type byte = x: int | 0 <= x < 256

  predicate IsContinuation(b: byte) {
    0x80 <= b < 0xC0
  }

  /** The UTF-8 encoding of one scalar value: one to four octets (RFC 3629 section 3). */
  function EncodeChar(c: char): (r: seq<byte>)
    ensures 1 <= |r| <= 4
    ensures r[0] < 0x80 <==> |r| == 1
    ensures |r| == 1 ==> r[0] == c as int
    ensures forall i :: 1 <= i < |r| ==> IsContinuation(r[i])
  {
    var cp := c as int;
    if cp < 0x80 then [cp]
    else if cp < 0x800 then [0xC0 + cp / 0x40, 0x80 + cp % 0x40]
    else if cp < 0x10000 then [0xE0 + cp / 0x40 / 0x40, 0x80 + cp / 0x40 % 0x40, 0x80 + cp % 0x40]
    else [0xF0 + cp / 0x40 / 0x40 / 0x40, 0x80 + cp / 0x40 / 0x40 % 0x40, 0x80 + cp / 0x40 % 0x40, 0x80 + cp % 0x40]
  }

  /** The UTF-8 encoding of a string, character by character. */
  function EncodeString(s: string): (r: seq<byte>)
    ensures s == [] <==> r == []
  {
    if s == [] then [] else EncodeChar(s[0]) + EncodeString(s[1..])
  }

  /**
   * The scalar value encoded by the well-formed octet sequence at the start of `b`, and
   * that sequence's length; None when `b` does not start with one (a stray continuation
   * octet, a truncated sequence, an overlong form, a surrogate or a value beyond U+10FFFF).
   */
  function DecodeFirst(b: seq<byte>): (r: Option<(char, nat)>)
    ensures r.Some? ==> 1 <= r.value.1 <= |b| && r.value.1 <= 4
  {
    if |b| == 0 then None
    else if b[0] < 0x80 then Some((b[0] as char, 1))
    else if 0xC0 <= b[0] < 0xE0 then
      if |b| >= 2 && IsContinuation(b[1]) then
        var cp := (b[0] as int - 0xC0) * 0x40 + (b[1] as int - 0x80);
        if 0x80 <= cp then Some((cp as char, 2)) else None
      else None
    else if 0xE0 <= b[0] < 0xF0 then
      if |b| >= 3 && IsContinuation(b[1]) && IsContinuation(b[2]) then
        var cp := (b[0] as int - 0xE0) * 0x1000 + (b[1] as int - 0x80) * 0x40 + (b[2] as int - 0x80);
        if 0x800 <= cp && !(0xD800 <= cp < 0xE000) then Some((cp as char, 3)) else None
      else None
    else if 0xF0 <= b[0] < 0xF8 then
      if |b| >= 4 && IsContinuation(b[1]) && IsContinuation(b[2]) && IsContinuation(b[3]) then
        var cp := (b[0] as int - 0xF0) * 0x40000 + (b[1] as int - 0x80) * 0x1000 + (b[2] as int - 0x80) * 0x40 + (b[3] as int - 0x80);
        if 0x10000 <= cp < 0x110000 then Some((cp as char, 4)) else None
      else None
    else None
  }

  /** Interprets `b` as UTF-8: the string it encodes, or None when it is not well-formed. */
  function Decode(b: seq<byte>): (r: Option<string>)
    decreases |b|
  {
    if b == [] then Some([])
    else match DecodeFirst(b)
      case None => None
      case Some((c, n)) =>
        match Decode(b[n..])
        case None => None
        case Some(s) => Some([c] + s)
  }

  lemma {:induction false} EncodeStringAppend(s: string, t: string)
    ensures EncodeString(s + t) == EncodeString(s) + EncodeString(t)
  {
    if s != [] {
      assert (s + t)[0] == s[0] && (s + t)[1..] == s[1..] + t;
      EncodeStringAppend(s[1..], t);
      calc {
        EncodeString(s + t);
        EncodeChar(s[0]) + EncodeString(s[1..] + t);
        EncodeChar(s[0]) + (EncodeString(s[1..]) + EncodeString(t));
      }
    } else {
      assert s + t == t;
    }
  }

  /** Division by 64 is determined by quotient and remainder. */
  lemma DivMod64(x: int, q: int, r: int)
    requires x == q * 64 + r && 0 <= r < 64
    ensures x / 64 == q && x % 64 == r
  {
  }

  /** Decoding reads back exactly the character that was encoded, whatever follows it. */
  lemma DecodeFirstOfEncoded(c: char, rest: seq<byte>)
    ensures DecodeFirst(EncodeChar(c) + rest) == Some((c, |EncodeChar(c)|))
  {
    var cp := c as int;
    if cp < 0x80 {
    } else if cp < 0x800 {
      DecodeFirstOfTwo(c, rest);
    } else if cp < 0x10000 {
      DecodeFirstOfThree(c, rest);
    } else {
      DecodeFirstOfFour(c, rest);
    }
  }

  lemma DecodeFirstOfTwo(c: char, rest: seq<byte>)
    requires 0x80 <= c as int < 0x800
    ensures DecodeFirst(EncodeChar(c) + rest) == Some((c, 2))
  {
    var cp := c as int;
    var b := EncodeChar(c) + rest;
    var q1, l := cp / 64, cp % 64;
    assert b[0] as int == 0xC0 + q1 && b[1] as int == 0x80 + l;
    assert (b[0] as int - 0xC0) * 0x40 + (b[1] as int - 0x80) == cp;
  }

  lemma DecodeFirstOfThree(c: char, rest: seq<byte>)
    requires 0x800 <= c as int < 0x10000
    ensures DecodeFirst(EncodeChar(c) + rest) == Some((c, 3))
  {
    var cp := c as int;
    var b := EncodeChar(c) + rest;
    var q1, l := cp / 64, cp % 64;
    var q2, m := q1 / 64, q1 % 64;
    assert b[0] as int == 0xE0 + q2 && b[1] as int == 0x80 + m && b[2] as int == 0x80 + l;
    assert (b[0] as int - 0xE0) * 0x1000 + (b[1] as int - 0x80) * 0x40 + (b[2] as int - 0x80) == cp;
  }

  lemma DecodeFirstOfFour(c: char, rest: seq<byte>)
    requires 0x10000 <= c as int
    ensures DecodeFirst(EncodeChar(c) + rest) == Some((c, 4))
  {
    var cp := c as int;
    var b := EncodeChar(c) + rest;
    var q1, l := cp / 64, cp % 64;
    var q2, m := q1 / 64, q1 % 64;
    var q3, k := q2 / 64, q2 % 64;
    assert b[0] as int == 0xF0 + q3 && b[1] as int == 0x80 + k;
    assert b[2] as int == 0x80 + m && b[3] as int == 0x80 + l;
    assert (b[0] as int - 0xF0) * 0x40000 + (b[1] as int - 0x80) * 0x1000 + (b[2] as int - 0x80) * 0x40 + (b[3] as int - 0x80) == cp;
  }

  /** Every well-formed sequence the decoder accepts is the encoding of the character it returns. */
  lemma EncodeOfDecodedFirst(b: seq<byte>)
    requires DecodeFirst(b).Some?
    ensures EncodeChar(DecodeFirst(b).value.0) == b[..DecodeFirst(b).value.1]
  {
    var (c, n) := DecodeFirst(b).value;
    var cp := c as int;
    if n == 2 {
      DivMod64(cp, b[0] as int - 0xC0, b[1] as int - 0x80);
    } else if n == 3 {
      var q1 := (b[0] as int - 0xE0) * 0x40 + (b[1] as int - 0x80);
      DivMod64(cp, q1, b[2] as int - 0x80);
      DivMod64(q1, b[0] as int - 0xE0, b[1] as int - 0x80);
    } else if n == 4 {
      var q2 := (b[0] as int - 0xF0) * 0x40 + (b[1] as int - 0x80);
      var q1 := q2 * 0x40 + (b[2] as int - 0x80);
      DivMod64(cp, q1, b[3] as int - 0x80);
      DivMod64(q1, q2, b[2] as int - 0x80);
      DivMod64(q2, b[0] as int - 0xF0, b[1] as int - 0x80);
    }
  }

  /** Decoding inverts encoding: every string survives a trip through UTF-8. */
  lemma {:induction false} DecodeEncoded(s: string)
    ensures Decode(EncodeString(s)) == Some(s)
  {
    if s != [] {
      var e := EncodeChar(s[0]);
      var rest := EncodeString(s[1..]);
      DecodeFirstOfEncoded(s[0], rest);
      assert (e + rest)[|e|..] == rest;
      DecodeEncoded(s[1..]);
      assert [s[0]] + s[1..] == s;
    }
  }

  /** One step of `Decode`: a decodable non-empty input is its first character followed by the decoding of the rest. */
  lemma DecodeStep(b: seq<byte>)
    requires b != [] && Decode(b).Some?
    ensures DecodeFirst(b).Some?
    ensures Decode(b[DecodeFirst(b).value.1..]).Some?
    ensures Decode(b).value == [DecodeFirst(b).value.0] + Decode(b[DecodeFirst(b).value.1..]).value
  {
  }

  /** One step of `EncodeString`. */
  lemma EncodeCons(c: char, s: string)
    ensures EncodeString([c] + s) == EncodeChar(c) + EncodeString(s)
  {
    assert ([c] + s)[0] == c && ([c] + s)[1..] == s;
  }

  /** Encoding inverts decoding: the decoder accepts exactly the encodings of strings. */
  lemma {:induction false} EncodeDecoded(b: seq<byte>)
    requires Decode(b).Some?
    ensures EncodeString(Decode(b).value) == b
    decreases |b|
  {
    if b != [] {
      DecodeStep(b);
      var (c, n) := DecodeFirst(b).value;
      EncodeOfDecodedFirst(b);
      EncodeDecoded(b[n..]);
      var s := Decode(b[n..]).value;
      EncodeCons(c, s);
      assert b == b[..n] + b[n..];
    }
  }
}
