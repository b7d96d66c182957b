/**
 * `encodeURIComponent`: a string's UTF-8 bytes, each written as itself when
 * it is an unreserved ASCII character and as `%XX` (upper-case hex)
 * otherwise; and the decoding that undoes it.
 */
module PercentEncoding {
  import opened Maybe
  import opened Text

  type Byte = b: int | 0 <= b < 256

  // --------------------------------------------------------------- UTF-8

  /** The UTF-8 bytes of one scalar value: one to four of them. */
  function Utf8Char(c: char): (r: seq<Byte>)
    ensures 1 <= |r| <= 4
  {
    var v := c as int;
    if v < 0x80 then [v]
    else
      var q1, r1 := v / 64, v % 64;
      if v < 0x800 then [0xC0 + q1, 0x80 + r1]
      else
        var q2, r2 := q1 / 64, q1 % 64;
        if v < 0x10000 then [0xE0 + q2, 0x80 + r2, 0x80 + r1]
        else [0xF0 + q2 / 64, 0x80 + q2 % 64, 0x80 + r2, 0x80 + r1]
  }

  function Utf8(s: string): seq<Byte> {
    if s == [] then [] else Utf8Char(s[0]) + Utf8(s[1..])
  }

  predicate IsContinuation(b: Byte) {
    0x80 <= b < 0xC0
  }

  predicate IsScalar(v: int) {
    (0 <= v < 0xD800) || (0xE000 <= v < 0x11_0000)
  }

  /** The first character of a UTF-8 byte sequence and how many bytes it took; `None` on a malformed or overlong sequence. */
  function DecodeFirst(bs: seq<Byte>): Option<(char, nat)>
    requires bs != []
  {
    var b0: int := bs[0];
    if b0 < 0x80 then Some((b0 as char, 1))
    else if 0xC0 <= b0 < 0xE0 && |bs| >= 2 && IsContinuation(bs[1]) then
      var v := (b0 - 0xC0) * 64 + (bs[1] as int - 0x80);
      if 0x80 <= v then Some((v as char, 2)) else None
    else if 0xE0 <= b0 < 0xF0 && |bs| >= 3 && IsContinuation(bs[1]) && IsContinuation(bs[2]) then
      var v := ((b0 - 0xE0) * 64 + (bs[1] as int - 0x80)) * 64 + (bs[2] as int - 0x80);
      if 0x800 <= v && IsScalar(v) then Some((v as char, 3)) else None
    else if 0xF0 <= b0 < 0xF8 && |bs| >= 4 && IsContinuation(bs[1]) && IsContinuation(bs[2]) && IsContinuation(bs[3]) then
      var v := (((b0 - 0xF0) * 64 + (bs[1] as int - 0x80)) * 64 + (bs[2] as int - 0x80)) * 64 + (bs[3] as int - 0x80);
      if 0x1_0000 <= v && IsScalar(v) then Some((v as char, 4)) else None
    else None
  }

  /** A UTF-8 decoder: `None` unless the bytes are well formed. */
  function DecodeUtf8(bs: seq<Byte>): Option<string>
    decreases |bs|
  {
    if bs == [] then Some([])
    else
      match DecodeFirst(bs)
      case None => None
      case Some((c, n)) =>
        if 1 <= n <= |bs| then
          match DecodeUtf8(bs[n..])
          case None => None
          case Some(rest) => Some([c] + rest)
        else None
  }

  /** The decoder reads a character's bytes back as that character. */
  lemma DecodeFirstUtf8(c: char, rest: seq<Byte>)
    ensures DecodeFirst(Utf8Char(c) + rest) == Some((c, |Utf8Char(c)|))
  {
    var bs := Utf8Char(c) + rest;
    var v := c as int;
    if v >= 0x80 {
      var q1, r1 := v / 64, v % 64;
      assert v == q1 * 64 + r1;
      if v >= 0x800 {
        var q2, r2 := q1 / 64, q1 % 64;
        assert q1 == q2 * 64 + r2;
        if v >= 0x1_0000 {
          assert q2 == (q2 / 64) * 64 + q2 % 64;
        }
      }
    }
  }

  /** Decoding the UTF-8 of a string gives the string back. */
  lemma {:induction false} Utf8RoundTrip(s: string)
    ensures DecodeUtf8(Utf8(s)) == Some(s)
  {
    if s != [] {
      var head := Utf8Char(s[0]);
      Utf8RoundTrip(s[1..]);
      DecodeFirstUtf8(s[0], Utf8(s[1..]));
      assert (head + Utf8(s[1..]))[|head|..] == Utf8(s[1..]);
      assert s == [s[0]] + s[1..];
    }
  }

  // ------------------------------------------------------- percent-encoding

  /** The characters `encodeURIComponent` leaves alone: `A-Z a-z 0-9 - _ . ! ~ * ' ( )`. */
  predicate IsUnreserved(c: char) {
    || ('A' <= c <= 'Z') || ('a' <= c <= 'z') || ('0' <= c <= '9')
    || c == '-' || c == '_' || c == '.' || c == '!' || c == '~' || c == '*' || c == '\'' || c == '(' || c == ')'
  }

  /** What an encoded component is made of: unreserved characters and `%`. */
  predicate IsEncodedChar(c: char) {
    IsUnreserved(c) || c == '%'
  }

  function HexDigit(n: nat): (c: char)
    requires n < 16
    ensures IsUnreserved(c)
  {
    if n < 10 then ('0' as int + n) as char else ('A' as int + n - 10) as char
  }

  /** The value of an upper- or lower-case hex digit. */
  function HexValue(c: char): Option<nat> {
    if '0' <= c <= '9' then Some(c as int - '0' as int)
    else if 'A' <= c <= 'F' then Some(c as int - 'A' as int + 10)
    else if 'a' <= c <= 'f' then Some(c as int - 'a' as int + 10)
    else None
  }

  lemma HexValueOfDigit(n: nat)
    requires n < 16
    ensures HexValue(HexDigit(n)) == Some(n)
  {
  }

  function EncodeByte(b: Byte): (r: string)
    ensures AllOf(r, IsEncodedChar)
    ensures |r| == 1 || |r| == 3
  {
    if b < 0x80 && IsUnreserved(b as char) then [b as char]
    else ['%', HexDigit(b / 16), HexDigit(b % 16)]
  }

  function EncodeBytes(bs: seq<Byte>): (r: string)
    ensures AllOf(r, IsEncodedChar)
  {
    if bs == [] then []
    else
      var head, rest := EncodeByte(bs[0]), EncodeBytes(bs[1..]);
      assert forall i :: 0 <= i < |head + rest| ==> (head + rest)[i] == if i < |head| then head[i] else rest[i - |head|];
      head + rest
  }

  /**
   * `encodeURIComponent`. Its output holds only unreserved characters and
   * `%`, so in particular no `/`; a string of unreserved characters comes
   * back unchanged.
   */
  function EncodeComponent(s: string): (r: string)
    ensures AllOf(r, IsEncodedChar)
    ensures AllOf(s, IsUnreserved) ==> r == s
  {
    var r := EncodeBytes(Utf8(s));
    assert AllOf(s, IsUnreserved) ==> r == s by {
      if AllOf(s, IsUnreserved) {
        UnreservedUnchanged(s);
      }
    }
    r
  }

  lemma {:induction false} UnreservedUnchanged(s: string)
    requires AllOf(s, IsUnreserved)
    ensures EncodeBytes(Utf8(s)) == s
  {
    if s != [] {
      assert AllOf(s[1..], IsUnreserved) by {
        forall i | 0 <= i < |s[1..]| ensures IsUnreserved(s[1..][i]) {
          assert s[1..][i] == s[i + 1];
        }
      }
      UnreservedUnchanged(s[1..]);
      assert IsUnreserved(s[0]);
      assert Utf8(s) == [s[0] as int] + Utf8(s[1..]);
      assert s == [s[0]] + s[1..];
    }
  }

  /** Reads `%XX` escapes back to bytes and ASCII characters to their codes; `None` on anything else. */
  function PercentDecode(s: string): Option<seq<Byte>> {
    if s == [] then Some([])
    else if s[0] == '%' then
      if |s| >= 3 && HexValue(s[1]).Some? && HexValue(s[2]).Some? && HexValue(s[1]).value < 16 && HexValue(s[2]).value < 16 then
        match PercentDecode(s[3..])
        case None => None
        case Some(rest) => Some([HexValue(s[1]).value * 16 + HexValue(s[2]).value] + rest)
      else None
    else if s[0] as int < 0x80 then
      match PercentDecode(s[1..])
      case None => None
      case Some(rest) => Some([s[0] as int] + rest)
    else None
  }

  /** `decodeURIComponent` on the output of `encodeURIComponent`: bytes first, then UTF-8. */
  function DecodeComponent(s: string): Option<string> {
    match PercentDecode(s)
    case None => None
    case Some(bs) => DecodeUtf8(bs)
  }

  lemma PercentDecodeByte(b: Byte, rest: string)
    ensures PercentDecode(EncodeByte(b) + rest) ==
      match PercentDecode(rest) case None => None case Some(bs) => Some([b] + bs)
  {
    var e := EncodeByte(b);
    if b < 0x80 && IsUnreserved(b as char) {
      assert (e + rest)[0] == b as char && (e + rest)[1..] == rest;
    } else {
      HexValueOfDigit(b / 16);
      HexValueOfDigit(b % 16);
      assert (e + rest)[3..] == rest;
      assert b == (b / 16) * 16 + b % 16;
    }
  }

  lemma {:induction false} PercentRoundTrip(bs: seq<Byte>)
    ensures PercentDecode(EncodeBytes(bs)) == Some(bs)
  {
    if bs != [] {
      PercentRoundTrip(bs[1..]);
      PercentDecodeByte(bs[0], EncodeBytes(bs[1..]));
      assert bs == [bs[0]] + bs[1..];
    }
  }

  /** `decodeURIComponent(encodeURIComponent(s)) == s`. */
  lemma ComponentRoundTrip(s: string)
    ensures DecodeComponent(EncodeComponent(s)) == Some(s)
  {
    PercentRoundTrip(Utf8(s));
    Utf8RoundTrip(s);
  }

  /** A slash in a path segment is escaped, as `%2F`. */
  lemma SlashIsEscaped()
    ensures EncodeComponent("/") == "%2F"
  {
    assert Utf8("/") == [0x2F];
  }
}
