/**
 * Percent-encoding as defined in section 2.1 of RFC 3986: an octet is written "%" followed
 * by two hexadecimal digits. Text is turned into octets by UTF-8, as Foundation does for
 * `addingPercentEncoding(withAllowedCharacters:)` and `removingPercentEncoding`.
 */
module PercentCoding {
  import opened Wrappers
  import opened Utf8

  predicate IsHexDigit(c: char) {
    '0' <= c <= '9' || 'A' <= c <= 'F' || 'a' <= c <= 'f'
  }

  function HexValue(c: char): (v: nat)
    requires IsHexDigit(c)
    ensures v < 16
  {
    if '0' <= c <= '9' then c as int - '0' as int
    else if 'A' <= c <= 'F' then c as int - 'A' as int + 10
    else c as int - 'a' as int + 10
  }

  /** The upper-case hexadecimal digit Foundation writes for `v`. */
  function HexDigit(v: nat): (c: char)
    requires v < 16
    ensures IsHexDigit(c) && HexValue(c) == v
  {
    if v < 10 then ('0' as int + v) as char else ('A' as int + v - 10) as char
  }

  /**
   * The characters Foundation's `CharacterSet.urlQueryAllowed` leaves unescaped: those that
   * section 3.4 of RFC 3986 admits in a query (unreserved characters, sub-delimiters,
   * ':', '@', '/' and '?'). '%' is not among them.
   */
  predicate QueryAllowed(c: char) {
    || 'a' <= c <= 'z' || 'A' <= c <= 'Z' || '0' <= c <= '9'
    || c == '-' || c == '.' || c == '_' || c == '~'
    || c == '!' || c == '$' || c == '&' || c == '\'' || c == '(' || c == ')'
    || c == '*' || c == '+' || c == ',' || c == ';' || c == '='
    || c == ':' || c == '@' || c == '/' || c == '?'
  }

  /** The triplet "%XY" for one octet. */
  function EscapeByte(b: byte): (r: string)
    ensures |r| == 3 && r[0] == '%' && IsHexDigit(r[1]) && IsHexDigit(r[2])
    ensures HexValue(r[1]) * 16 + HexValue(r[2]) == b
  {
    ['%', HexDigit(b / 16), HexDigit(b % 16)]
  }

  function EscapeBytes(bs: seq<byte>): string {
    if bs == [] then [] else EscapeByte(bs[0]) + EscapeBytes(bs[1..])
  }

  /**
   * `addingPercentEncoding(withAllowedCharacters: .urlQueryAllowed)`: every character
   * outside the allowed set is replaced by the triplets of its UTF-8 octets.
   */
  function PercentEncode(s: string): (r: string)
    ensures forall i :: 0 <= i < |r| ==> QueryAllowed(r[i]) || r[i] == '%'
    ensures (forall i :: 0 <= i < |s| ==> QueryAllowed(s[i])) ==> r == s
  {
    if s == [] then []
    else
      var head := if QueryAllowed(s[0]) then [s[0]] else EscapeBytes(EncodeChar(s[0]));
      assert forall i :: 0 <= i < |head| ==> QueryAllowed(head[i]) || head[i] == '%' by {
        if !QueryAllowed(s[0]) { EscapedBytesAreAllowed(EncodeChar(s[0])); }
      }
      head + PercentEncode(s[1..])
  }

  lemma {:induction false} EscapedBytesAreAllowed(bs: seq<byte>)
    ensures forall i :: 0 <= i < |EscapeBytes(bs)| ==> QueryAllowed(EscapeBytes(bs)[i]) || EscapeBytes(bs)[i] == '%'
  {
    if bs != [] {
      EscapedBytesAreAllowed(bs[1..]);
    }
  }

  /**
   * The octets a percent-encoded string stands for: a triplet "%XY" is the octet 0xXY and
   * any other character stands for its UTF-8 octets. None when some '%' is not followed by
   * two hexadecimal digits.
   */
  function Unescape(s: string): (r: Option<seq<byte>>)
  {
    if s == [] then Some([])
    else if s[0] == '%' then
      if |s| >= 3 && IsHexDigit(s[1]) && IsHexDigit(s[2]) then
        match Unescape(s[3..])
        case None => None
        case Some(rest) => Some([HexValue(s[1]) * 16 + HexValue(s[2])] + rest)
      else None
    else
      match Unescape(s[1..])
      case None => None
      case Some(rest) => Some(EncodeChar(s[0]) + rest)
  }

  /**
   * `removingPercentEncoding`: the text whose UTF-8 octets the string stands for. None on a
   * malformed triplet, and None when the octets are not well-formed UTF-8.
   */
  function PercentDecode(s: string): Option<string> {
    match Unescape(s)
    case None => None
    case Some(bs) => Utf8.Decode(bs)
  }

  lemma {:induction false} UnescapeEscaped(bs: seq<byte>, rest: string)
    ensures Unescape(EscapeBytes(bs) + rest) ==
            match Unescape(rest) case None => None case Some(r) => Some(bs + r)
  {
    if bs != [] {
      var t := EscapeByte(bs[0]);
      var s := EscapeBytes(bs) + rest;
      assert s == t + (EscapeBytes(bs[1..]) + rest);
      assert s[0] == '%' && s[1] == t[1] && s[2] == t[2];
      assert s[3..] == EscapeBytes(bs[1..]) + rest;
      UnescapeEscaped(bs[1..], rest);
      match Unescape(rest)
      case None =>
      case Some(r) =>
        assert [bs[0]] + (bs[1..] + r) == bs + r;
    } else {
      assert EscapeBytes(bs) + rest == rest;
      match Unescape(rest)
      case None =>
      case Some(r) => assert bs + r == r;
    }
  }

  /** Unescaping an encoded string yields the UTF-8 octets of the original text. */
  lemma {:induction false} UnescapeEncoded(s: string)
    ensures Unescape(PercentEncode(s)) == Some(EncodeString(s))
  {
    if s != [] {
      UnescapeEncoded(s[1..]);
      var rest := PercentEncode(s[1..]);
      if QueryAllowed(s[0]) {
        var e := [s[0]] + rest;
        assert e[0] == s[0] && e[1..] == rest;
      } else {
        UnescapeEscaped(EncodeChar(s[0]), rest);
      }
    }
  }

  /** Percent-decoding inverts percent-encoding (section 2.1 of RFC 3986). */
  lemma DecodeEncoded(s: string)
    ensures PercentDecode(PercentEncode(s)) == Some(s)
  {
    UnescapeEncoded(s);
    Utf8.DecodeEncoded(s);
  }

  /** A string without '%' stands for its own UTF-8 octets. */
  lemma {:induction false} UnescapeWithoutPercent(s: string)
    requires forall i :: 0 <= i < |s| ==> s[i] != '%'
    ensures Unescape(s) == Some(EncodeString(s))
  {
    if s != [] {
      UnescapeWithoutPercent(s[1..]);
    }
  }

  /** Percent-decoding leaves a string without '%' unchanged. */
  lemma DecodeWithoutPercent(s: string)
    requires forall i :: 0 <= i < |s| ==> s[i] != '%'
    ensures PercentDecode(s) == Some(s)
  {
    UnescapeWithoutPercent(s);
    Utf8.DecodeEncoded(s);
  }

  lemma {:induction false} UnescapeMalformedTriplet(prefix: string, rest: string)
    requires forall i :: 0 <= i < |prefix| ==> prefix[i] != '%'
    requires |rest| < 2 || !IsHexDigit(rest[0]) || !IsHexDigit(rest[1])
    ensures Unescape(prefix + "%" + rest) == None
  {
    var s := prefix + "%" + rest;
    if prefix == [] {
      assert s == "%" + rest;
      assert |s| >= 3 ==> s[1] == rest[0] && s[2] == rest[1];
    } else {
      assert s[0] == prefix[0] && s[1..] == prefix[1..] + "%" + rest;
      UnescapeMalformedTriplet(prefix[1..], rest);
    }
  }

  /** A '%' that does not begin a triplet makes decoding fail, whatever '%'-free text precedes it. */
  lemma DecodeMalformedTriplet(prefix: string, rest: string)
    requires forall i :: 0 <= i < |prefix| ==> prefix[i] != '%'
    requires |rest| < 2 || !IsHexDigit(rest[0]) || !IsHexDigit(rest[1])
    ensures PercentDecode(prefix + "%" + rest) == None
  {
    UnescapeMalformedTriplet(prefix, rest);
  }

  /** When decoding succeeds, the triplets stood for well-formed UTF-8 of the result. */
  lemma DecodedStandsForOctets(s: string)
    requires PercentDecode(s).Some?
    ensures Unescape(s).Some? && EncodeString(PercentDecode(s).value) == Unescape(s).value
  {
    Utf8.EncodeDecoded(Unescape(s).value);
  }
}
