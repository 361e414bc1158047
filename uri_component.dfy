/**
 * `encodeURIComponent` and `decodeURIComponent` (sections 19.2.6.4, 19.2.6.5 and 19.2.6.2 of ECMA-262),
 * which the markdown rewriter uses to put a code block into an attribute and the widgets use to read it back.
 * A Dafny `char` is a Unicode scalar value, so a string here never holds a lone surrogate.
 */
module UriComponent {
  import opened Wrappers

  type Byte = b: int | 0 <= b < 256

  /** The characters `encodeURIComponent` keeps as they are: letters, digits and the marks - _ . ! ~ * ' ( ). */
  predicate IsUnescaped(c: char) {
    ('A' <= c <= 'Z') || ('a' <= c <= 'z') || ('0' <= c <= '9') || c in "-_.!~*'()"
  }

  predicate IsHexDigit(c: char) {
    ('0' <= c <= '9') || ('A' <= c <= 'F') || ('a' <= c <= 'f')
  }

  function HexValue(c: char): (v: nat)
    requires IsHexDigit(c)
    ensures v < 16
  {
    if '0' <= c <= '9' then c as int - '0' as int
    else if 'A' <= c <= 'F' then c as int - 'A' as int + 10
    else c as int - 'a' as int + 10
  }

  /** The upper-case hexadecimal digit the encoder writes. */
  function HexDigit(n: nat): (c: char)
    requires n < 16
    ensures IsUnescaped(c) && IsHexDigit(c) && HexValue(c) == n
  {
    if n < 10 then ('0' as int + n) as char else ('A' as int + n - 10) as char
  }

  /** One octet written as an escape: '%' and two hexadecimal digits. */
  function Triplet(b: Byte): string {
    ['%', HexDigit(b / 16), HexDigit(b % 16)]
  }

  /** The UTF-8 octets of a code point (section 3.9 of the Unicode Standard, Table 3-6). */
  function Utf8(c: char): (bs: seq<Byte>)
    ensures 1 <= |bs| <= 4
  {
    var cp := c as int;
    var q1 := cp / 64;
    var q2 := q1 / 64;
    if cp < 0x80 then [cp]
    else if cp < 0x800 then [0xC0 + q1, 0x80 + cp % 64]
    else if cp < 0x10000 then [0xE0 + q2, 0x80 + q1 % 64, 0x80 + cp % 64]
    else [0xF0 + q2 / 64, 0x80 + q2 % 64, 0x80 + q1 % 64, 0x80 + cp % 64]
  }

  function Escapes(bs: seq<Byte>): (r: string)
    ensures |r| == 3 * |bs|
    ensures forall i :: 0 <= i < |r| ==> IsUnescaped(r[i]) || r[i] == '%'
  {
    if bs == [] then [] else Triplet(bs[0]) + Escapes(bs[1..])
  }

  function EncodeChar(c: char): string {
    if IsUnescaped(c) then [c] else Escapes(Utf8(c))
  }

  /** `encodeURIComponent(s)`: every character outside the unescaped set becomes the escapes of its UTF-8 octets. */
  function Encode(s: string): (r: string)
    ensures forall i :: 0 <= i < |r| ==> IsUnescaped(r[i]) || r[i] == '%'
  {
    if s == [] then [] else EncodeChar(s[0]) + Encode(s[1..])
  }

  // ---------------------------------------------------------------- decoding (19.2.6.2, Decode with an empty reserved set)

  /** The octet escaped at position k, if the three characters there are '%' and two hexadecimal digits. */
  function OctetAt(s: string, k: nat): Option<Byte> {
    if k + 3 <= |s| && s[k] == '%' && IsHexDigit(s[k + 1]) && IsHexDigit(s[k + 2])
    then Some(HexValue(s[k + 1]) * 16 + HexValue(s[k + 2]))
    else None
  }

  /** How many octets a lead octet announces: the number of its leading 1 bits (1 for an ASCII octet); 0 when that is invalid. */
  function SequenceLength(b: Byte): nat {
    if b < 0x80 then 1
    else if b < 0xC0 then 0
    else if b < 0xE0 then 2
    else if b < 0xF0 then 3
    else if b < 0xF8 then 4
    else 0
  }

  predicate IsContinuation(b: Byte) { 0x80 <= b < 0xC0 }

  /** The m continuation octets escaped at positions 3k, 3(k+1), ... */
  function Continuations(s: string, k: nat, m: nat): (r: Option<seq<Byte>>)
    ensures r.Some? ==> |r.value| == m && 3 * (k + m) <= |s|
    ensures r.Some? ==> forall i :: 0 <= i < m ==> IsContinuation(r.value[i])
    decreases m
  {
    if m == 0 then (if 3 * k <= |s| then Some([]) else None)
    else
      match OctetAt(s, 3 * k)
      case None => None
      case Some(b) =>
        if !IsContinuation(b) then None
        else
          match Continuations(s, k + 1, m - 1)
          case None => None
          case Some(rest) => Some([b] + rest)
  }

  predicate IsScalar(v: int) { (0 <= v < 0xD800) || (0xE000 <= v <= 0x10FFFF) }

  /** The code point a lead octet and its continuations spell, before the validity checks. */
  function Utf8Value(lead: Byte, conts: seq<Byte>): int
    requires 1 <= |conts| <= 3
  {
    var l := lead as int;
    if |conts| == 1 then (l - 0xC0) * 64 + (conts[0] as int - 0x80)
    else if |conts| == 2 then ((l - 0xE0) * 64 + (conts[0] as int - 0x80)) * 64 + (conts[1] as int - 0x80)
    else (((l - 0xF0) * 64 + (conts[0] as int - 0x80)) * 64 + (conts[1] as int - 0x80)) * 64 + (conts[2] as int - 0x80)
  }

  /** The smallest code point that needs n octets: anything below it is an over-long, invalid encoding. */
  function MinimalValue(n: nat): int {
    if n == 2 then 0x80 else if n == 3 then 0x800 else 0x10000
  }

  /** One escape sequence at the start of s, decoded: the character and how many characters it took. */
  function DecodeEscape(s: string): (r: Option<(char, nat)>)
    ensures r.Some? ==> 3 <= r.value.1 <= |s|
  {
    match OctetAt(s, 0)
    case None => None
    case Some(b) =>
      var n := SequenceLength(b);
      if n == 0 then None
      else if n == 1 then Some((b as char, 3))
      else
        match Continuations(s, 1, n - 1)
        case None => None
        case Some(conts) =>
          var v := Utf8Value(b, conts);
          if MinimalValue(n) <= v && IsScalar(v) then Some((v as char, 3 * n)) else None
  }

  /** `decodeURIComponent(s)`: None where the built-in throws a URIError. */
  function Decode(s: string): Option<string>
    decreases |s|
  {
    if s == [] then Some([])
    else if s[0] != '%' then
      match Decode(s[1..])
      case None => None
      case Some(t) => Some([s[0]] + t)
    else
      match DecodeEscape(s)
      case None => None
      case Some(ck) =>
        match Decode(s[ck.1..])
        case None => None
        case Some(t) => Some([ck.0] + t)
  }

  // ---------------------------------------------------------------- the round trip

  lemma OctetOfTriplet(s: string, k: nat, b: Byte)
    requires k + 3 <= |s| && s[k..k + 3] == Triplet(b)
    ensures OctetAt(s, k) == Some(b)
  {
    assert s[k] == '%' && s[k + 1] == HexDigit(b / 16) && s[k + 2] == HexDigit(b % 16);
  }

  /** The i-th escape of Escapes(bs) stands at position 3i. */
  lemma {:induction false} EscapesAt(bs: seq<Byte>, rest: string, i: nat)
    requires i < |bs|
    ensures (Escapes(bs) + rest)[3 * i..3 * i + 3] == Triplet(bs[i])
  {
    if i > 0 {
      EscapesAt(bs[1..], rest, i - 1);
      assert Escapes(bs) + rest == Triplet(bs[0]) + (Escapes(bs[1..]) + rest);
    }
  }

  lemma OctetOfEscapes(bs: seq<Byte>, rest: string, i: nat)
    requires i < |bs|
    ensures OctetAt(Escapes(bs) + rest, 3 * i) == Some(bs[i])
  {
    EscapesAt(bs, rest, i);
    OctetOfTriplet(Escapes(bs) + rest, 3 * i, bs[i]);
  }

  lemma {:induction false} ContinuationsOfEscapes(bs: seq<Byte>, rest: string, k: nat, m: nat)
    requires 1 <= k && k + m == |bs|
    requires forall i :: k <= i < |bs| ==> IsContinuation(bs[i])
    ensures Continuations(Escapes(bs) + rest, k, m) == Some(bs[k..])
    decreases m
  {
    if m > 0 {
      OctetOfEscapes(bs, rest, k);
      ContinuationsOfEscapes(bs, rest, k + 1, m - 1);
      assert bs[k..] == [bs[k]] + bs[k + 1..];
    }
  }

  /** The octets of a multi-octet character: a lead octet announcing their number, continuations, and its value back. */
  lemma Utf8Shape(c: char)
    requires c as int >= 0x80
    ensures var bs := Utf8(c);
      SequenceLength(bs[0]) == |bs| >= 2 &&
      (forall i :: 1 <= i < |bs| ==> IsContinuation(bs[i])) &&
      Utf8Value(bs[0], bs[1..]) == c as int &&
      MinimalValue(|bs|) <= c as int
  {
    var cp := c as int;
    var q1 := cp / 64;
    var q2 := q1 / 64;
    assert cp == q1 * 64 + cp % 64;
    assert q1 == q2 * 64 + q1 % 64;
    if cp >= 0x10000 {
      assert q2 == (q2 / 64) * 64 + q2 % 64;
      assert q2 / 64 < 5;
    }
  }

  /** Decoding the escapes of a character's UTF-8 octets gives the character back. */
  lemma DecodeEscapeOfChar(c: char, rest: string)
    requires !IsUnescaped(c)
    ensures DecodeEscape(Escapes(Utf8(c)) + rest) == Some((c, 3 * |Utf8(c)|))
  {
    var bs := Utf8(c);
    OctetOfEscapes(bs, rest, 0);
    if c as int >= 0x80 {
      Utf8Shape(c);
      ContinuationsOfEscapes(bs, rest, 1, |bs| - 1);
    }
  }

  /** `decodeURIComponent(encodeURIComponent(s)) === s` for every string. */
  lemma {:induction false} DecodeEncode(s: string)
    ensures Decode(Encode(s)) == Some(s)
  {
    if s != [] {
      var e := Encode(s);
      DecodeEncode(s[1..]);
      if IsUnescaped(s[0]) {
        assert e[0] == s[0] && e[1..] == Encode(s[1..]);
      } else {
        DecodeEscapeOfChar(s[0], Encode(s[1..]));
        assert e[3 * |Utf8(s[0])|..] == Encode(s[1..]);
      }
      assert [s[0]] + s[1..] == s;
    }
  }

  /** The encoding never holds a quote, angle bracket, ampersand or white space, so it is safe inside a quoted attribute. */
  lemma EncodeIsAttributeSafe(s: string)
    ensures forall i :: 0 <= i < |Encode(s)| ==> Encode(s)[i] !in "\"<>& \t\n\r"
  {
  }

  /** Encoding changes nothing exactly when every character is in the unescaped set. */
  lemma {:induction false} EncodeIdentity(s: string)
    ensures Encode(s) == s <==> forall i :: 0 <= i < |s| ==> IsUnescaped(s[i])
  {
    if s != [] {
      EncodeIdentity(s[1..]);
      var t := s[1..];
      assert s == [s[0]] + t;
      assert AllTail: (forall i :: 0 <= i < |s| ==> IsUnescaped(s[i])) <==>
        IsUnescaped(s[0]) && forall i :: 0 <= i < |t| ==> IsUnescaped(t[i]) by {
        forall i | 0 <= i < |t| ensures t[i] == s[i + 1] { }
      }
      if IsUnescaped(s[0]) {
        assert Encode(s) == [s[0]] + Encode(t);
      } else {
        EncodeNeverShrinks(t);
        assert |Encode(s)| == 3 * |Utf8(s[0])| + |Encode(t)|;
      }
    }
  }

  lemma {:induction false} EncodeNeverShrinks(s: string)
    ensures |Encode(s)| >= |s|
  {
    if s != [] { EncodeNeverShrinks(s[1..]); }
  }
}
