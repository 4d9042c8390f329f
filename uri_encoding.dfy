/** `encodeURIComponent` as section 19.2.6.5 of ECMA-262 defines it: every
    character outside the unreserved set is replaced by the percent-escaped
    bytes of its UTF-8 encoding, with upper-case hexadecimal digits. Beside it,
    its inverse (percent-decoding followed by UTF-8 decoding), and the proof
    that decoding an encoded string gives the string back. */
module UriEncoding {
  import opened Wrappers

  type Byte = b: int | 0 <= b < 256

  /** The characters `encodeURIComponent` leaves untouched: letters, digits and - _ . ! ~ * ' ( ) */
  predicate Unreserved(c: char) {
    || 'A' <= c <= 'Z' || 'a' <= c <= 'z' || '0' <= c <= '9'
    || c == '-' || c == '_' || c == '.' || c == '!' || c == '~'
    || c == '*' || c == '\'' || c == '(' || c == ')'
  }

  /** The UTF-8 encoding of one Unicode scalar value. */
  function Utf8(c: char): (bs: seq<Byte>)
    ensures 1 <= |bs| <= 4
    ensures |bs| == 1 <==> c as int < 0x80
  {
    var cp := c as int;
    var q1 := cp / 64;
    var q2 := q1 / 64;
    var q3 := q2 / 64;
    if cp < 0x80 then [cp]
    else if cp < 0x800 then [0xC0 + q1, 0x80 + cp % 64]
    else if cp < 0x10000 then [0xE0 + q2, 0x80 + q1 % 64, 0x80 + cp % 64]
    else [0xF0 + q3, 0x80 + q2 % 64, 0x80 + q1 % 64, 0x80 + cp % 64]
  }

  function Utf8Encode(s: string): seq<Byte> {
    if s == [] then [] else Utf8(s[0]) + Utf8Encode(s[1..])
  }

  function HexDigit(d: int): (c: char)
    requires 0 <= d < 16
    ensures '0' <= c <= '9' || 'A' <= c <= 'F'
  {
    if d < 10 then ('0' as int + d) as char else ('A' as int + d - 10) as char
  }

  /** One byte as "%XY". */
  function Escape(b: Byte): string {
    ['%', HexDigit(b / 16), HexDigit(b % 16)]
  }

  function EscapeAll(bs: seq<Byte>): (r: string)
    ensures |r| == 3 * |bs|
    ensures forall i :: 0 <= i < |r| ==> Unreserved(r[i]) || r[i] == '%'
  {
    if bs == [] then [] else Escape(bs[0]) + EscapeAll(bs[1..])
  }

  function EncodeChar(c: char): string {
    if Unreserved(c) then [c] else EscapeAll(Utf8(c))
  }

  /** `encodeURIComponent(s)`. Its output holds only unreserved characters and
      '%', so it can never contain '&', '=', '#', '?' or a space; a string of
      unreserved characters is returned unchanged. */
  function EncodeURIComponent(s: string): (r: string)
    ensures forall i :: 0 <= i < |r| ==> Unreserved(r[i]) || r[i] == '%'
    ensures (forall i :: 0 <= i < |s| ==> Unreserved(s[i])) ==> r == s
  {
    if s == [] then []
    else
      assert forall i :: 0 <= i < |s[1..]| ==> s[1..][i] == s[i + 1];
      EncodeChar(s[0]) + EncodeURIComponent(s[1..])
  }

  // ---------------------------------------------------------------------------
  // The inverse: percent-decoding, then UTF-8 decoding.

  function HexValue(c: char): Option<int> {
    if '0' <= c <= '9' then Some(c as int - '0' as int)
    else if 'A' <= c <= 'F' then Some(c as int - 'A' as int + 10)
    else if 'a' <= c <= 'f' then Some(c as int - 'a' as int + 10)
    else None
  }

  /** The bytes a percent-encoded ASCII string stands for; None for a broken escape or a non-ASCII character. */
  function PercentDecode(e: string): Option<seq<Byte>>
    decreases |e|
  {
    if e == [] then Some([])
    else if e[0] == '%' then
      if |e| < 3 then None
      else
        match (HexValue(e[1]), HexValue(e[2]), PercentDecode(e[3..]))
        case (Some(hi), Some(lo), Some(rest)) =>
          if 0 <= hi < 16 && 0 <= lo < 16 then Some([hi * 16 + lo] + rest) else None
        case _ => None
    else if e[0] as int < 0x80 then
      match PercentDecode(e[1..])
      case Some(rest) => Some([e[0] as int] + rest)
      case None => None
    else None
  }

  /** Number of bytes of the UTF-8 sequence a lead byte opens; 0 when b cannot open one. */
  function LeadLength(b: Byte): nat {
    if b < 0x80 then 1
    else if 0xC0 <= b < 0xE0 then 2
    else if 0xE0 <= b < 0xF0 then 3
    else if 0xF0 <= b < 0xF8 then 4
    else 0
  }

  predicate Continuation(b: Byte) {
    0x80 <= b < 0xC0
  }

  /** The scalar value one complete UTF-8 sequence encodes; None for a broken, overlong or surrogate sequence. */
  function DecodeScalar(bs: seq<Byte>): Option<char>
    requires 1 <= |bs| <= 4
  {
    var b: seq<int> := bs;
    var cp :=
      if |b| == 1 then b[0]
      else if |b| == 2 then (b[0] - 0xC0) * 64 + (b[1] - 0x80)
      else if |b| == 3 then ((b[0] - 0xE0) * 64 + (b[1] - 0x80)) * 64 + (b[2] - 0x80)
      else (((b[0] - 0xF0) * 64 + (b[1] - 0x80)) * 64 + (b[2] - 0x80)) * 64 + (b[3] - 0x80);
    var least := if |b| == 1 then 0 else if |b| == 2 then 0x80 else if |b| == 3 then 0x800 else 0x10000;
    if (forall i :: 1 <= i < |bs| ==> Continuation(bs[i])) && least <= cp
       && (0 <= cp < 0xD800 || 0xE000 <= cp < 0x110000)
    then Some(cp as char)
    else None
  }

  function Utf8Decode(bs: seq<Byte>): Option<string>
    decreases |bs|
  {
    if bs == [] then Some([])
    else
      var n := LeadLength(bs[0]);
      if n == 0 || |bs| < n then None
      else
        match (DecodeScalar(bs[..n]), Utf8Decode(bs[n..]))
        case (Some(c), Some(rest)) => Some([c] + rest)
        case _ => None
  }

  /** A percent-and-UTF-8 decoder that inverts EncodeURIComponent. Unlike `decodeURIComponent` it
      rejects non-ASCII input characters instead of passing them through. */
  function DecodeURIComponent(e: string): Option<string> {
    match PercentDecode(e)
    case Some(bs) => Utf8Decode(bs)
    case None => None
  }

  // ---------------------------------------------------------------------------
  // Round trip.

  function Prepend<T>(prefix: seq<T>, o: Option<seq<T>>): Option<seq<T>> {
    match o
    case Some(rest) => Some(prefix + rest)
    case None => None
  }

  /** An overlong sequence is refused: "%C0%80" would otherwise read as U+0000. */
  lemma OverlongRejected()
    ensures DecodeURIComponent("%C0%80") == None
  {
    var lo: string := "%80";
    assert lo[0] == '%' && |lo| == 3 && lo[1] == '8' && lo[2] == '0' && lo[3..] == [];
    assert HexValue('8') == Some(8) && HexValue('0') == Some(0);
    assert PercentDecode(lo[3..]) == Some([]);
    var low: seq<Byte> := [0x80];
    assert [8 * 16 + 0] + [] == low;
    assert PercentDecode(lo) == Some(low);
    var e: string := "%C0%80";
    assert e[0] == '%' && |e| == 6 && e[1] == 'C' && e[2] == '0' && e[3..] == lo;
    assert HexValue('C') == Some(12);
    var both: seq<Byte> := [0xC0, 0x80];
    assert [12 * 16 + 0] + low == both;
    assert PercentDecode(e) == Some(both);
    assert both[..2] == both;
  }

  lemma HexDigitValue(d: int)
    requires 0 <= d < 16
    ensures HexValue(HexDigit(d)) == Some(d)
  {
  }

  /** One escape decodes to its byte, followed by whatever the rest decodes to. */
  lemma PercentDecodeEscape(b: Byte, rest: string)
    ensures PercentDecode(Escape(b) + rest) == Prepend([b], PercentDecode(rest))
  {
    var e := Escape(b) + rest;
    assert e[0] == '%' && e[1] == HexDigit(b / 16) && e[2] == HexDigit(b % 16);
    assert e[3..] == rest;
    HexDigitValue(b / 16);
    HexDigitValue(b % 16);
  }

  /** Prepending twice is prepending the concatenation. */
  lemma PrependTwice<T>(a: seq<T>, b: seq<T>, o: Option<seq<T>>)
    ensures Prepend(a, Prepend(b, o)) == Prepend(a + b, o)
  {
    if o.Some? {
      assert a + (b + o.value) == (a + b) + o.value;
    }
  }

  lemma {:induction false} PercentDecodeEscapes(bs: seq<Byte>, rest: string)
    ensures PercentDecode(EscapeAll(bs) + rest) == Prepend(bs, PercentDecode(rest))
  {
    if bs != [] {
      var tail := EscapeAll(bs[1..]) + rest;
      assert EscapeAll(bs) + rest == Escape(bs[0]) + tail;
      PercentDecodeEscape(bs[0], tail);
      PercentDecodeEscapes(bs[1..], rest);
      PrependTwice([bs[0]], bs[1..], PercentDecode(rest));
      assert [bs[0]] + bs[1..] == bs;
    } else {
      assert EscapeAll(bs) + rest == rest;
      var o := PercentDecode(rest);
      if o.Some? {
        assert bs + o.value == o.value;
      }
    }
  }

  lemma {:induction false} PercentDecodeEncoded(s: string)
    ensures PercentDecode(EncodeURIComponent(s)) == Some(Utf8Encode(s))
  {
    if s != [] {
      var c := s[0];
      var tail := EncodeURIComponent(s[1..]);
      PercentDecodeEncoded(s[1..]);
      if Unreserved(c) {
        var e := [c] + tail;
        assert e[1..] == tail;
      } else {
        PercentDecodeEscapes(Utf8(c), tail);
      }
    }
  }

  lemma Utf8ScalarRoundTrip(c: char)
    ensures DecodeScalar(Utf8(c)) == Some(c)
  {
    var cp := c as int;
    var q1 := cp / 64;
    var q2 := q1 / 64;
    var q3 := q2 / 64;
    assert cp == q1 * 64 + cp % 64;
    assert q1 == q2 * 64 + q1 % 64;
    assert q2 == q3 * 64 + q2 % 64;
  }

  lemma Utf8CharThenRest(c: char, rest: seq<Byte>)
    ensures Utf8Decode(Utf8(c) + rest) == Prepend([c], Utf8Decode(rest))
  {
    var u := Utf8(c);
    var bs := u + rest;
    assert LeadLength(bs[0]) == |u|;
    assert bs[..|u|] == u;
    assert bs[|u|..] == rest;
    Utf8ScalarRoundTrip(c);
  }

  lemma {:induction false} Utf8EncodeDecode(s: string)
    ensures Utf8Decode(Utf8Encode(s)) == Some(s)
  {
    if s != [] {
      Utf8EncodeDecode(s[1..]);
      Utf8CharThenRest(s[0], Utf8Encode(s[1..]));
      assert [s[0]] + s[1..] == s;
    }
  }

  /** Decoding what `encodeURIComponent` produced gives back the original string:
      the encoding loses nothing and two different terms never encode alike. */
  lemma EncodeDecodeRoundTrip(s: string)
    ensures DecodeURIComponent(EncodeURIComponent(s)) == Some(s)
  {
    PercentDecodeEncoded(s);
    Utf8EncodeDecode(s);
  }

  lemma EncodeInjective(s: string, t: string)
    requires EncodeURIComponent(s) == EncodeURIComponent(t)
    ensures s == t
  {
    EncodeDecodeRoundTrip(s);
    EncodeDecodeRoundTrip(t);
  }
}
