/** `encodeURIComponent`, which the dashboard applies to the search term it
    puts in a query string, and a percent-decoder used to state what the
    encoding preserves. */
module Uri {
  import opened Wrappers

  /** An octet. */
  type Byte = b: int | 0 <= b < 256

  /** The characters `encodeURIComponent` leaves as they are: ASCII letters,
      digits and `- _ . ! ~ * ' ( )` (section 19.2.6 of ECMA-262). */
  predicate IsUnreserved(c: char) {
    || ('A' <= c <= 'Z') || ('a' <= c <= 'z') || ('0' <= c <= '9')
    || c == '-' || c == '_' || c == '.' || c == '!' || c == '~' || c == '*'
    || c == '\'' || c == '(' || c == ')'
  }

  /** The UTF-8 encoding of one Unicode scalar value (section 3 of RFC 3629). */
  function Utf8(c: char): (bs: seq<Byte>)
    ensures 1 <= |bs| <= 4
    ensures |bs| == 1 <==> c as int < 0x80
    ensures |bs| == 1 ==> bs[0] == c as int
  {
    var n := c as int;
    if n < 0x80 then [n]
    else if n < 0x800 then [0xC0 + n / 64, 0x80 + n % 64]
    else if n < 0x1_0000 then [0xE0 + n / 4096, 0x80 + (n / 64) % 64, 0x80 + n % 64]
    else [0xF0 + n / 262144, 0x80 + (n / 4096) % 64, 0x80 + (n / 64) % 64, 0x80 + n % 64]
  }

  /** The UTF-8 encoding of a string. */
  function Utf8String(s: string): seq<Byte> {
    if s == [] then [] else Utf8(s[0]) + Utf8String(s[1..])
  }

  /** Upper-case hexadecimal digit for a value below 16. */
  function HexDigit(d: int): (c: char)
    requires 0 <= d < 16
    ensures IsUnreserved(c) && IsHexDigit(c) && HexValue(c) == d
  {
    if d < 10 then ('0' as int + d) as char else ('A' as int + d - 10) as char
  }

  predicate IsHexDigit(c: char) {
    ('0' <= c <= '9') || ('A' <= c <= 'F') || ('a' <= c <= 'f')
  }

  /** The value of a hexadecimal digit of either case. */
  function HexValue(c: char): (d: int)
    requires IsHexDigit(c)
    ensures 0 <= d < 16
  {
    if '0' <= c <= '9' then c as int - '0' as int
    else if 'A' <= c <= 'F' then c as int - 'A' as int + 10
    else c as int - 'a' as int + 10
  }

  /** Each octet written as `%` and two upper-case hexadecimal digits. */
  function PercentBytes(bs: seq<Byte>): (r: string)
    ensures |r| == 3 * |bs|
    ensures forall i :: 0 <= i < |r| ==> IsUnreserved(r[i]) || r[i] == '%'
  {
    if bs == [] then []
    else ['%', HexDigit(bs[0] / 16), HexDigit(bs[0] % 16)] + PercentBytes(bs[1..])
  }

  /** One character of `encodeURIComponent`'s output. */
  function EncodeChar(c: char): (r: string)
    ensures 1 <= |r| <= 12
  {
    if IsUnreserved(c) then [c] else PercentBytes(Utf8(c))
  }

  /** `encodeURIComponent(s)`: each character encoded in turn, into one to
      twelve characters (an escape of up to four UTF-8 bytes). */
  function EncodeURIComponent(s: string): (r: string)
    ensures |s| <= |r| <= 12 * |s|
  {
    if s == [] then [] else EncodeChar(s[0]) + EncodeURIComponent(s[1..])
  }

  /** A single character is kept when unreserved and otherwise becomes the
      escapes of its UTF-8 octets. */
  lemma EncodeOne(c: char)
    ensures EncodeURIComponent([c]) == if IsUnreserved(c) then [c] else PercentBytes(Utf8(c))
  {
    assert [c][1..] == [];
  }

  /** The encoding works character by character: encoding a concatenation
      concatenates the encodings. With `EncodeOne` this fixes the output of
      every string. */
  lemma {:induction false} EncodeConcat(a: string, b: string)
    ensures EncodeURIComponent(a + b) == EncodeURIComponent(a) + EncodeURIComponent(b)
  {
    if a == [] {
      assert a + b == b;
    } else {
      assert (a + b)[0] == a[0] && (a + b)[1..] == a[1..] + b;
      EncodeConcat(a[1..], b);
    }
  }

  /** The output consists of unreserved characters and `%` only, so it never
      holds `&`, `=`, `#` or a space. */
  lemma {:induction false} EncodedIsSafe(s: string)
    ensures forall i :: 0 <= i < |EncodeURIComponent(s)| ==>
      IsUnreserved(EncodeURIComponent(s)[i]) || EncodeURIComponent(s)[i] == '%'
  {
    if s != [] {
      EncodedIsSafe(s[1..]);
      var head, tail := EncodeChar(s[0]), EncodeURIComponent(s[1..]);
      assert forall i :: 0 <= i < |head| ==> IsUnreserved(head[i]) || head[i] == '%';
      assert EncodeURIComponent(s) == head + tail;
    }
  }

  /** A string made only of unreserved characters is left as it is. */
  lemma {:induction false} EncodeUnreservedIsIdentity(s: string)
    requires forall i :: 0 <= i < |s| ==> IsUnreserved(s[i])
    ensures EncodeURIComponent(s) == s
  {
    if s != [] {
      EncodeUnreservedIsIdentity(s[1..]);
      assert [s[0]] + s[1..] == s;
    }
  }

  /** Reads percent-escapes and ASCII characters back as octets; `None` for
      a malformed escape or a non-ASCII character. */
  function PercentDecode(t: string): Option<seq<Byte>> {
    if t == [] then Some([])
    else if t[0] == '%' then
      if |t| >= 3 && IsHexDigit(t[1]) && IsHexDigit(t[2]) then
        Prepend([HexValue(t[1]) * 16 + HexValue(t[2])], PercentDecode(t[3..]))
      else None
    else if t[0] as int < 0x80 then Prepend([t[0] as int], PercentDecode(t[1..]))
    else None
  }

  /** Puts `bs` in front of a decoded result. */
  function Prepend(bs: seq<Byte>, o: Option<seq<Byte>>): Option<seq<Byte>> {
    match o
    case None => None
    case Some(rest) => Some(bs + rest)
  }

  /** Prepending twice is prepending the concatenation. */
  lemma PrependPrepend(a: seq<Byte>, b: seq<Byte>, o: Option<seq<Byte>>)
    ensures Prepend(a, Prepend(b, o)) == Prepend(a + b, o)
  {
    match o
    case None =>
    case Some(rest) =>
      assert a + (b + rest) == (a + b) + rest;
  }

  /** One escape reads back as its octet. */
  lemma DecodeEscape(b: Byte, u: string)
    ensures PercentDecode(['%', HexDigit(b / 16), HexDigit(b % 16)] + u) == Prepend([b], PercentDecode(u))
  {
    var hi, lo := HexDigit(b / 16), HexDigit(b % 16);
    var w := ['%', hi, lo] + u;
    assert w[0] == '%' && w[1] == hi && w[2] == lo && w[3..] == u;
    assert HexValue(hi) * 16 + HexValue(lo) == b;
  }

  /** The escapes of some octets, followed by anything, read back as those
      octets followed by whatever the rest reads back as. */
  lemma {:induction false} DecodePercentBytes(bs: seq<Byte>, t: string)
    ensures PercentDecode(PercentBytes(bs) + t) == Prepend(bs, PercentDecode(t))
  {
    if bs == [] {
      assert PercentBytes(bs) + t == t;
      assert Prepend([], PercentDecode(t)) == PercentDecode(t) by {
        match PercentDecode(t)
        case None =>
        case Some(rest) => assert [] + rest == rest;
      }
    } else {
      var b := bs[0];
      var u := PercentBytes(bs[1..]) + t;
      assert PercentBytes(bs) + t == ['%', HexDigit(b / 16), HexDigit(b % 16)] + u;
      DecodeEscape(b, u);
      DecodePercentBytes(bs[1..], t);
      PrependPrepend([b], bs[1..], PercentDecode(t));
      assert [b] + bs[1..] == bs;
    }
  }

  lemma DecodeEncodeChar(c: char, t: string)
    ensures PercentDecode(EncodeChar(c) + t) == Prepend(Utf8(c), PercentDecode(t))
  {
    if IsUnreserved(c) {
      assert ([c] + t)[1..] == t;
    } else {
      DecodePercentBytes(Utf8(c), t);
    }
  }

  /** Percent-decoding the output of `encodeURIComponent` gives back the
      UTF-8 octets of the input, in order. */
  lemma {:induction false} DecodeEncode(s: string)
    ensures PercentDecode(EncodeURIComponent(s)) == Some(Utf8String(s))
  {
    if s != [] {
      DecodeEncodeChar(s[0], EncodeURIComponent(s[1..]));
      DecodeEncode(s[1..]);
    }
  }
}
