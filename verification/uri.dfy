/**
  `encodeURIComponent` as the AMap client uses it for query values: every character outside
  A-Z a-z 0-9 - _ . ! ~ * ' ( ) becomes the percent-encoded bytes of its UTF-8 form, with
  upper-case hexadecimal digits. `DecodeUriComponent` is the matching `decodeURIComponent`,
  strict about malformed escapes, and serves as the encoder's reference inverse.
 */
module Uri {
  import opened Wrappers
  import opened Text

  predicate Unreserved(c: char) {
    || ('A' <= c <= 'Z') || ('a' <= c <= 'z') || IsDigit(c)
    || c == '-' || c == '_' || c == '.' || c == '!' || c == '~' || c == '*' || c == '\'' || c == '(' || c == ')'
  }

  /** The characters an encoded component consists of. */
  predicate UriSafe(c: char) {
    Unreserved(c) || c == '%'
  }

  predicate IsHex(c: char) {
    IsDigit(c) || ('A' <= c <= 'F') || ('a' <= c <= 'f')
  }

  function HexDigit(n: nat): (c: char)
    requires n < 16
    ensures IsHex(c) && Unreserved(c)
  {
    if n < 10 then DigitChar(n) else ('A' as int + n - 10) as char
  }

  function HexValue(c: char): (n: nat)
    requires IsHex(c)
    ensures n < 16
  {
    if IsDigit(c) then DigitValue(c)
    else if 'A' <= c <= 'F' then c as int - 'A' as int + 10
    else c as int - 'a' as int + 10
  }

  lemma HexRoundTrip(n: nat)
    requires n < 16
    ensures HexValue(HexDigit(n)) == n
  {
  }

  predicate IsByte(b: nat) {
    b < 256
  }

  /** The UTF-8 form of a Unicode scalar value. */
  function Utf8(c: char): (bs: seq<nat>)
    ensures 1 <= |bs| <= 4
    ensures forall i :: 0 <= i < |bs| ==> IsByte(bs[i])
  {
    var n := c as int;
    var q1 := n / 64;
    var q2 := q1 / 64;
    var q3 := q2 / 64;
    if n < 0x80 then [n]
    else if n < 0x800 then [0xC0 + q1, 0x80 + n % 64]
    else if n < 0x10000 then [0xE0 + q2, 0x80 + q1 % 64, 0x80 + n % 64]
    else [0xF0 + q3, 0x80 + q2 % 64, 0x80 + q1 % 64, 0x80 + n % 64]
  }

  /** `%XX` for one byte. */
  function PercentByte(b: nat): (s: string)
    requires IsByte(b)
    ensures |s| == 3 && s[0] == '%' && IsHex(s[1]) && IsHex(s[2])
  {
    ['%', HexDigit(b / 16), HexDigit(b % 16)]
  }

  function PercentBytes(bs: seq<nat>): (s: string)
    requires forall i :: 0 <= i < |bs| ==> IsByte(bs[i])
    ensures |s| == 3 * |bs|
    ensures forall i :: 0 <= i < |s| ==> UriSafe(s[i])
  {
    if bs == [] then []
    else
      var head := PercentByte(bs[0]);
      var tail := PercentBytes(bs[1..]);
      assert forall i :: 0 <= i < |head| ==> UriSafe(head[i]);
      head + tail
  }

  function EncodeChar(c: char): (s: string)
    ensures 1 <= |s|
    ensures forall i :: 0 <= i < |s| ==> UriSafe(s[i])
  {
    if Unreserved(c) then [c] else PercentBytes(Utf8(c))
  }

  /** `encodeURIComponent`. Characters that are not reserved pass through unchanged; the result
      consists of unreserved characters and '%' only (so never '&', '=' or white space). */
  function EncodeUriComponent(s: string): (r: string)
    ensures forall i :: 0 <= i < |r| ==> UriSafe(r[i])
    ensures (forall i :: 0 <= i < |s| ==> Unreserved(s[i])) ==> r == s
    decreases |s|
  {
    if s == [] then []
    else
      var head := EncodeChar(s[0]);
      var tail := EncodeUriComponent(s[1..]);
      assert (forall i :: 0 <= i < |s| ==> Unreserved(s[i])) ==> head + tail == s by {
        if forall i :: 0 <= i < |s| ==> Unreserved(s[i]) {
          assert forall i :: 0 <= i < |s[1..]| ==> Unreserved(s[1..][i]);
          assert s == [s[0]] + s[1..];
        }
      }
      head + tail
  }

  // ---------------------------------------------------------------- decoding

  /** The byte a `%XX` escape at position `i` stands for. */
  function ByteAt(s: string, i: nat): Option<nat> {
    if i + 3 <= |s| && s[i] == '%' && IsHex(s[i + 1]) && IsHex(s[i + 2])
    then Some(16 * HexValue(s[i + 1]) + HexValue(s[i + 2]))
    else None
  }

  /** How many bytes a UTF-8 sequence with this lead byte has; 0 for a byte that cannot lead. */
  function SequenceLength(b: nat): nat {
    if b < 0x80 then 1
    else if 0xC0 <= b < 0xE0 then 2
    else if 0xE0 <= b < 0xF0 then 3
    else if 0xF0 <= b < 0xF8 then 4
    else 0
  }

  /** Reads `n` consecutive escapes from the start of `s`. */
  function ReadBytes(s: string, n: nat): Option<seq<nat>>
    decreases n
  {
    if n == 0 then Some([])
    else match ByteAt(s, 0)
      case None => None
      case Some(b) =>
        match ReadBytes(s[3..], n - 1)
        case None => None
        case Some(rest) => Some([b] + rest)
  }

  predicate Continuation(b: nat) {
    0x80 <= b < 0xC0
  }

  /** A code point that is in range for its sequence length and is a scalar value. */
  function ScalarOf(v: int, least: nat): Option<char> {
    if least <= v <= 0x10FFFF && !(0xD800 <= v < 0xE000) then Some(v as char) else None
  }

  /** The scalar value a UTF-8 byte sequence encodes; None for a malformed or overlong one. */
  function CodePoint(bs: seq<nat>): Option<char> {
    if |bs| == 1 && bs[0] < 0x80 then Some(bs[0] as char)
    else if |bs| == 2 && 0xC0 <= bs[0] < 0xE0 && Continuation(bs[1])
    then ScalarOf((bs[0] - 0xC0) * 64 + (bs[1] - 0x80), 0x80)
    else if |bs| == 3 && 0xE0 <= bs[0] < 0xF0 && Continuation(bs[1]) && Continuation(bs[2])
    then ScalarOf(((bs[0] - 0xE0) * 64 + (bs[1] - 0x80)) * 64 + (bs[2] - 0x80), 0x800)
    else if |bs| == 4 && 0xF0 <= bs[0] < 0xF8 && Continuation(bs[1]) && Continuation(bs[2]) && Continuation(bs[3])
    then ScalarOf((((bs[0] - 0xF0) * 64 + (bs[1] - 0x80)) * 64 + (bs[2] - 0x80)) * 64 + (bs[3] - 0x80), 0x10000)
    else None
  }

  function Prepend(c: char, rest: Option<string>): Option<string> {
    if rest.Some? then Some([c] + rest.value) else None
  }

  /** `decodeURIComponent`; None where it throws a URIError. */
  function DecodeUriComponent(s: string): Option<string>
    decreases |s|
  {
    if s == [] then Some([])
    else if s[0] != '%' then Prepend(s[0], DecodeUriComponent(s[1..]))
    else match ByteAt(s, 0)
      case None => None
      case Some(b) =>
        var n := SequenceLength(b);
        if n == 0 || |s| < 3 * n then None
        else match ReadBytes(s, n)
          case None => None
          case Some(bs) =>
            match CodePoint(bs)
            case None => None
            case Some(c) => Prepend(c, DecodeUriComponent(s[3 * n..]))
  }

  // ---------------------------------------------------------------- round trip

  lemma PercentByteReads(b: nat, rest: string)
    requires IsByte(b)
    ensures ByteAt(PercentByte(b) + rest, 0) == Some(b)
  {
    HexRoundTrip(b / 16);
    HexRoundTrip(b % 16);
  }

  lemma {:induction false} ReadPercentBytes(bs: seq<nat>, rest: string)
    requires forall i :: 0 <= i < |bs| ==> IsByte(bs[i])
    ensures ReadBytes(PercentBytes(bs) + rest, |bs|) == Some(bs)
    decreases |bs|
  {
    if bs != [] {
      var s := PercentBytes(bs) + rest;
      assert s == PercentByte(bs[0]) + (PercentBytes(bs[1..]) + rest);
      PercentByteReads(bs[0], PercentBytes(bs[1..]) + rest);
      assert s[3..] == PercentBytes(bs[1..]) + rest;
      ReadPercentBytes(bs[1..], rest);
      assert [bs[0]] + bs[1..] == bs;
    }
  }

  /** Decoding the UTF-8 form of a character yields the character. */
  lemma CodePointUtf8(c: char)
    ensures SequenceLength(Utf8(c)[0]) == |Utf8(c)|
    ensures CodePoint(Utf8(c)) == Some(c)
  {
    var n := c as int;
    var q1 := n / 64;
    var q2 := q1 / 64;
    var q3 := q2 / 64;
    assert n == 64 * q1 + n % 64;
    assert q1 == 64 * q2 + q1 % 64;
    assert q2 == 64 * q3 + q2 % 64;
  }

  lemma DecodeEncodedChar(c: char, rest: string)
    ensures DecodeUriComponent(EncodeChar(c) + rest) == Prepend(c, DecodeUriComponent(rest))
  {
    var s := EncodeChar(c) + rest;
    if Unreserved(c) {
      assert s[1..] == rest;
    } else {
      var bs := Utf8(c);
      assert s == PercentBytes(bs) + rest;
      ReadPercentBytes(bs, rest);
      PercentByteReads(bs[0], s[3..]);
      assert s == PercentByte(bs[0]) + s[3..];
      CodePointUtf8(c);
      assert s[3 * |bs|..] == rest;
    }
  }

  /** `decodeURIComponent` inverts `encodeURIComponent`. */
  lemma {:induction false} DecodeEncode(s: string)
    ensures DecodeUriComponent(EncodeUriComponent(s)) == Some(s)
    decreases |s|
  {
    if s != [] {
      DecodeEncodedChar(s[0], EncodeUriComponent(s[1..]));
      DecodeEncode(s[1..]);
      assert [s[0]] + s[1..] == s;
    }
  }
}
