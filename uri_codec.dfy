/** The text layer of a share link: UTF-8 (RFC 3629), encodeURIComponent and
    decodeURIComponent (section 15.1.3 of ECMA-262 5.1), the query string a
    browser exposes as `location.search`, and URLSearchParams.get over
    application/x-www-form-urlencoded parsing (section 5.1 of the WHATWG URL
    Standard) with the UTF-8 decoder of section 9.1.1 of the WHATWG Encoding
    Standard. */
module UriCodec {
  import opened JsString
  import opened JsValue

  type Byte = b: int | 0 <= b < 256

  // ---------------------------------------------------------------- UTF-8

  /** The UTF-8 encoding of one Unicode scalar value (section 3 of RFC 3629). */
  function Utf8Char(c: char): (r: seq<Byte>)
    ensures 1 <= |r| <= 4
    ensures (|r| == 1) <==> c as int < 0x80
  {
    var n: int := c as int;
    var p := n / 64;
    var p2 := p / 64;
    if n < 0x80 then [n]
    else if n < 0x800 then [0xC0 + p, 0x80 + n % 64]
    else if n < 0x10000 then [0xE0 + p2, 0x80 + p % 64, 0x80 + n % 64]
    else [0xF0 + p2 / 64, 0x80 + p2 % 64, 0x80 + p % 64, 0x80 + n % 64]
  }

  function Utf8(s: string): seq<Byte> {
    if |s| == 0 then [] else Utf8Char(s[0]) + Utf8(s[1..])
  }

  const REPLACEMENT: char := '\U{FFFD}'

  /** One step of the UTF-8 decoder of the WHATWG Encoding Standard: the next
      code point, or U+FFFD for a malformed sequence, and how many bytes it
      consumed. A byte that breaks a sequence is not consumed. */
  function DecodeOne(bs: seq<Byte>): (r: (char, nat))
    requires |bs| > 0
    ensures 1 <= r.1 <= |bs|
  {
    var b0: int := bs[0];
    var b1: int := if |bs| > 1 then bs[1] else 0;
    var b2: int := if |bs| > 2 then bs[2] else 0;
    var b3: int := if |bs| > 3 then bs[3] else 0;
    if b0 < 0x80 then (b0 as char, 1)
    else if 0xC2 <= b0 <= 0xDF then
      if |bs| < 2 || !(0x80 <= b1 <= 0xBF) then (REPLACEMENT, 1)
      else (((b0 - 0xC0) * 64 + (b1 - 0x80)) as char, 2)
    else if 0xE0 <= b0 <= 0xEF then
      var lo := if b0 == 0xE0 then 0xA0 else 0x80;
      var hi := if b0 == 0xED then 0x9F else 0xBF;
      if |bs| < 2 || !(lo <= b1 <= hi) then (REPLACEMENT, 1)
      else if |bs| < 3 || !(0x80 <= b2 <= 0xBF) then (REPLACEMENT, 2)
      else (((b0 - 0xE0) * 4096 + (b1 - 0x80) * 64 + (b2 - 0x80)) as char, 3)
    else if 0xF0 <= b0 <= 0xF4 then
      var lo := if b0 == 0xF0 then 0x90 else 0x80;
      var hi := if b0 == 0xF4 then 0x8F else 0xBF;
      if |bs| < 2 || !(lo <= b1 <= hi) then (REPLACEMENT, 1)
      else if |bs| < 3 || !(0x80 <= b2 <= 0xBF) then (REPLACEMENT, 2)
      else if |bs| < 4 || !(0x80 <= b3 <= 0xBF) then (REPLACEMENT, 3)
      else (((b0 - 0xF0) * 262144 + (b1 - 0x80) * 4096 + (b2 - 0x80) * 64 + (b3 - 0x80)) as char, 4)
    else (REPLACEMENT, 1)
  }

  /** UTF-8 decode with replacement: malformed input never fails. */
  function Utf8Decode(bs: seq<Byte>): string
    decreases |bs|
  {
    if |bs| == 0 then ""
    else
      var (c, n) := DecodeOne(bs);
      [c] + Utf8Decode(bs[n..])
  }

  /** The decoder reads back exactly the bytes the encoder wrote for one character. */
  lemma DecodeOneOfUtf8Char(c: char, rest: seq<Byte>)
    ensures DecodeOne(Utf8Char(c) + rest) == (c, |Utf8Char(c)|)
  {
    var n := c as int;
    if n < 0x80 {
    } else if n < 0x800 {
      DecodeTwo(c, rest);
    } else if n < 0x10000 {
      DecodeThree(c, rest);
    } else {
      DecodeFour(c, rest);
    }
  }

  lemma DecodeTwo(c: char, rest: seq<Byte>)
    requires 0x80 <= c as int < 0x800
    ensures DecodeOne(Utf8Char(c) + rest) == (c, 2)
  {
    var n := c as int;
    var bs := Utf8Char(c) + rest;
    assert bs[0] == 0xC0 + n / 64 && bs[1] == 0x80 + n % 64;
    assert (n / 64) * 64 + n % 64 == n;
  }

  lemma DecodeThree(c: char, rest: seq<Byte>)
    requires 0x800 <= c as int < 0x10000
    ensures DecodeOne(Utf8Char(c) + rest) == (c, 3)
  {
    var n := c as int;
    var p := n / 64;
    var a := p / 64;
    var bs := Utf8Char(c) + rest;
    assert n == p * 64 + n % 64;
    assert p == a * 64 + p % 64;
    assert bs[0] == 0xE0 + a && bs[1] == 0x80 + p % 64 && bs[2] == 0x80 + n % 64;
    assert a == 0 ==> p % 64 >= 0x20;
    assert a == 13 ==> p % 64 <= 0x1F;
    assert a * 4096 + (p % 64) * 64 + n % 64 == n;
  }

  lemma DecodeFour(c: char, rest: seq<Byte>)
    requires 0x10000 <= c as int
    ensures DecodeOne(Utf8Char(c) + rest) == (c, 4)
  {
    var n := c as int;
    var p := n / 64;
    var p2 := p / 64;
    var a := p2 / 64;
    var bs := Utf8Char(c) + rest;
    assert n == p * 64 + n % 64;
    assert p == p2 * 64 + p % 64;
    assert p2 == a * 64 + p2 % 64;
    assert bs[0] == 0xF0 + a && bs[1] == 0x80 + p2 % 64;
    assert bs[2] == 0x80 + p % 64 && bs[3] == 0x80 + n % 64;
    assert a == 0 ==> p2 % 64 >= 0x10;
    assert a == 4 ==> p2 % 64 <= 0x0F;
    assert a * 262144 + (p2 % 64) * 4096 + (p % 64) * 64 + n % 64 == n;
  }

  /** UTF-8 decoding inverts UTF-8 encoding. */
  lemma {:induction false} Utf8RoundTrip(s: string)
    ensures Utf8Decode(Utf8(s)) == s
  {
    if |s| > 0 {
      var bs := Utf8(s);
      DecodeOneOfUtf8Char(s[0], Utf8(s[1..]));
      assert bs[|Utf8Char(s[0])|..] == Utf8(s[1..]);
      Utf8RoundTrip(s[1..]);
    }
  }

  // ------------------------------------------------------- percent-encoding

  /** The characters encodeURIComponent leaves as they are: ASCII letters and
      digits and `- _ . ! ~ * ' ( )`. */
  predicate IsUnreserved(c: char) {
    ('A' <= c <= 'Z') || ('a' <= c <= 'z') || ('0' <= c <= '9')
    || c == '-' || c == '_' || c == '.' || c == '!' || c == '~' || c == '*'
    || c == '\'' || c == '(' || c == ')'
  }

  /** An upper-case hexadecimal digit. */
  function HexDigit(d: nat): (c: char)
    requires d < 16
    ensures IsUnreserved(c)
  {
    if d < 10 then ('0' as int + d) as char else ('A' as int + d - 10) as char
  }

  /** The value of a hexadecimal digit of either case. */
  function HexValue(c: char): Option<nat> {
    if '0' <= c <= '9' then Some(c as int - '0' as int)
    else if 'A' <= c <= 'F' then Some(c as int - 'A' as int + 10)
    else if 'a' <= c <= 'f' then Some(c as int - 'a' as int + 10)
    else None
  }

  lemma HexValueOfDigit(d: nat)
    requires d < 16
    ensures HexValue(HexDigit(d)) == Some(d)
  {
  }

  /** `%XY` for one byte. */
  function PercentByte(b: Byte): (r: string)
    ensures |r| == 3 && r[0] == '%'
  {
    ['%', HexDigit(b / 16), HexDigit(b % 16)]
  }

  function PercentBytes(bs: seq<Byte>): (r: string)
    ensures |r| == 3 * |bs|
    ensures forall i | 0 <= i < |r| :: IsUnreserved(r[i]) || r[i] == '%'
  {
    if |bs| == 0 then "" else PercentByte(bs[0]) + PercentBytes(bs[1..])
  }

  function EncodeChar(c: char): string {
    if IsUnreserved(c) then [c] else PercentBytes(Utf8Char(c))
  }

  /** encodeURIComponent: every character outside the unreserved set is written
      as the `%XY` escapes of its UTF-8 bytes; the result uses only unreserved
      characters and `%`. */
  function EncodeURIComponent(s: string): (r: string)
    ensures forall i | 0 <= i < |r| :: IsUnreserved(r[i]) || r[i] == '%'
  {
    if |s| == 0 then "" else EncodeChar(s[0]) + EncodeURIComponent(s[1..])
  }

  /** Text made only of unreserved characters and `%XY` escapes with two
      hexadecimal digits. */
  predicate WellEscaped(s: string)
    decreases |s|
  {
    if |s| == 0 then true
    else if s[0] == '%' then |s| >= 3 && HexValue(s[1]).Some? && HexValue(s[2]).Some? && WellEscaped(s[3..])
    else IsUnreserved(s[0]) && WellEscaped(s[1..])
  }

  lemma {:induction false} WellEscapedConcat(a: string, b: string)
    requires WellEscaped(a) && WellEscaped(b)
    ensures WellEscaped(a + b)
    decreases |a|
  {
    if |a| == 0 {
      assert a + b == b;
    } else if a[0] == '%' {
      assert (a + b)[3..] == a[3..] + b;
      WellEscapedConcat(a[3..], b);
    } else {
      assert (a + b)[1..] == a[1..] + b;
      WellEscapedConcat(a[1..], b);
    }
  }

  lemma {:induction false} PercentBytesWellEscaped(bs: seq<Byte>)
    ensures WellEscaped(PercentBytes(bs))
    decreases |bs|
  {
    if |bs| > 0 {
      var p := PercentByte(bs[0]);
      HexValueOfDigit(bs[0] / 16);
      HexValueOfDigit(bs[0] % 16);
      assert p[3..] == "";
      assert WellEscaped(p);
      PercentBytesWellEscaped(bs[1..]);
      WellEscapedConcat(p, PercentBytes(bs[1..]));
    }
  }

  /** What encodeURIComponent writes is unreserved characters and complete
      `%XY` escapes, never a stray `%`. */
  lemma {:induction false} EncodeWellEscaped(s: string)
    ensures WellEscaped(EncodeURIComponent(s))
    decreases |s|
  {
    if |s| > 0 {
      if IsUnreserved(s[0]) {
        assert [s[0]][1..] == "";
        assert WellEscaped([s[0]]);
      } else {
        PercentBytesWellEscaped(Utf8Char(s[0]));
      }
      EncodeWellEscaped(s[1..]);
      WellEscapedConcat(EncodeChar(s[0]), EncodeURIComponent(s[1..]));
    }
  }

  // ------------------------------------------------- decodeURIComponent

  /** The byte a `%XY` escape at the start of `s` denotes, if it is one. */
  function PercentByteAt(s: string): Option<Byte> {
    if |s| >= 3 && s[0] == '%' && HexValue(s[1]).Some? && HexValue(s[2]).Some?
    then Some(HexValue(s[1]).value * 16 + HexValue(s[2]).value)
    else None
  }

  lemma PercentByteAtOf(b: Byte, rest: string)
    ensures PercentByteAt(PercentByte(b) + rest) == Some(b)
  {
    HexValueOfDigit(b / 16);
    HexValueOfDigit(b % 16);
  }

  /** The length of the UTF-8 sequence a lead byte announces, counted by its
      leading one bits; 0 where the decoder must throw (a continuation byte or
      more than four leading ones). */
  function LeadLength(b: Byte): nat {
    if 0xC0 <= b <= 0xDF then 2
    else if 0xE0 <= b <= 0xEF then 3
    else if 0xF0 <= b <= 0xF7 then 4
    else 0
  }

  /** `m` escapes of continuation bytes (`10xxxxxx`) at the start of `s`. */
  function Continuations(s: string, m: nat): Option<seq<Byte>>
    decreases m
  {
    if m == 0 then Some([])
    else
      var b := PercentByteAt(s);
      if b.None? || !(0x80 <= b.value <= 0xBF) then None
      else
        var more := Continuations(s[3..], m - 1);
        if more.None? then None else Some([b.value] + more.value)
  }

  /** The scalar value a complete multi-byte sequence encodes, if it is valid
      UTF-8: not overlong, not a surrogate, not beyond U+10FFFF. */
  function Utf8Scalar(bs: seq<Byte>): Option<char>
    requires 2 <= |bs| <= 4
  {
    var b0: int := bs[0];
    var b1: int := bs[1];
    var b2: int := if |bs| > 2 then bs[2] else 0;
    var b3: int := if |bs| > 3 then bs[3] else 0;
    if |bs| == 2 then
      var cp := (b0 % 32) * 64 + b1 % 64;
      if cp >= 0x80 then Some(cp as char) else None
    else if |bs| == 3 then
      var cp := (b0 % 16) * 4096 + (b1 % 64) * 64 + b2 % 64;
      if cp >= 0x800 && !(0xD800 <= cp <= 0xDFFF) then Some(cp as char) else None
    else
      var cp := (b0 % 8) * 262144 + (b1 % 64) * 4096 + (b2 % 64) * 64 + b3 % 64;
      if 0x10000 <= cp <= 0x10FFFF then Some(cp as char) else None
  }

  /** decodeURIComponent: every `%XY` escape sequence that spells a UTF-8
      encoded scalar value becomes that character; a `%` not followed by two
      hexadecimal digits, a stray continuation byte, a truncated or invalid
      sequence throws URIError. */
  function DecodeURIComponent(s: string): (r: Res<string>)
    ensures r.Ok? ==> |r.value| <= |s|
    decreases |s|
  {
    if |s| == 0 then Ok("")
    else if s[0] != '%' then
      var rest :- DecodeURIComponent(s[1..]);
      Ok([s[0]] + rest)
    else
      var b := PercentByteAt(s);
      if b.None? then Err
      else if b.value < 0x80 then
        var rest :- DecodeURIComponent(s[3..]);
        Ok([b.value as char] + rest)
      else
        var n := LeadLength(b.value);
        if n == 0 then Err
        else
          var cont := Continuations(s[3..], n - 1);
          if cont.None? then Err
          else
            var c := Utf8Scalar([b.value] + cont.value);
            if c.None? || |s| < 3 * n then Err
            else
              var rest :- DecodeURIComponent(s[3 * n..]);
              Ok([c.value] + rest)
  }

  /** A string without `%` decodes to itself. */
  lemma {:induction false} DecodeWithoutPercent(s: string)
    requires '%' !in s
    ensures DecodeURIComponent(s) == Ok(s)
  {
    if |s| > 0 {
      assert s[0] in s;
      assert forall c | c in s[1..] :: c in s;
      DecodeWithoutPercent(s[1..]);
      assert [s[0]] + s[1..] == s;
    }
  }

  /** A `%` that does not start two hexadecimal digits makes decodeURIComponent
      throw, once the text before it is free of `%`. */
  lemma {:induction false} DecodeStrayPercent(a: string, b: string)
    requires '%' !in a
    requires |b| < 2 || HexValue(b[0]).None? || HexValue(b[1]).None?
    ensures DecodeURIComponent(a + "%" + b) == Err
  {
    var s := a + "%" + b;
    if |a| == 0 {
      assert s == "%" + b;
    } else {
      assert s[0] == a[0];
      assert s[1..] == a[1..] + "%" + b;
      assert forall c | c in a[1..] :: c in a;
      DecodeStrayPercent(a[1..], b);
    }
  }

  lemma {:induction false} ContinuationsOf(bs: seq<Byte>, rest: string)
    requires forall i | 0 <= i < |bs| :: 0x80 <= bs[i] <= 0xBF
    ensures Continuations(PercentBytes(bs) + rest, |bs|) == Some(bs)
  {
    if |bs| > 0 {
      var s := PercentBytes(bs) + rest;
      assert s == PercentByte(bs[0]) + (PercentBytes(bs[1..]) + rest);
      PercentByteAtOf(bs[0], PercentBytes(bs[1..]) + rest);
      assert s[3..] == PercentBytes(bs[1..]) + rest;
      ContinuationsOf(bs[1..], rest);
      assert [bs[0]] + bs[1..] == bs;
    }
  }

  /** The multi-byte UTF-8 encoding of a character is valid: its lead byte
      announces its length, the rest are continuation bytes, and it decodes back. */
  lemma Utf8CharIsValid(c: char)
    requires c as int >= 0x80
    ensures LeadLength(Utf8Char(c)[0]) == |Utf8Char(c)|
    ensures forall i | 1 <= i < |Utf8Char(c)| :: 0x80 <= Utf8Char(c)[i] <= 0xBF
    ensures Utf8Scalar(Utf8Char(c)) == Some(c)
  {
    var n := c as int;
    if n < 0x800 {
      ValidTwo(c);
    } else if n < 0x10000 {
      ValidThree(c);
    } else {
      ValidFour(c);
    }
  }

  lemma ValidTwo(c: char)
    requires 0x80 <= c as int < 0x800
    ensures Utf8Scalar(Utf8Char(c)) == Some(c)
  {
    var n := c as int;
    var bs := Utf8Char(c);
    assert n == (n / 64) * 64 + n % 64;
    assert bs[0] % 32 == n / 64 && bs[1] % 64 == n % 64;
  }

  lemma ValidThree(c: char)
    requires 0x800 <= c as int < 0x10000
    ensures Utf8Scalar(Utf8Char(c)) == Some(c)
  {
    var n := c as int;
    var p := n / 64;
    var bs := Utf8Char(c);
    assert n == p * 64 + n % 64;
    assert p == (p / 64) * 64 + p % 64;
    assert bs[0] % 16 == p / 64 && bs[1] % 64 == p % 64 && bs[2] % 64 == n % 64;
  }

  lemma ValidFour(c: char)
    requires 0x10000 <= c as int
    ensures Utf8Scalar(Utf8Char(c)) == Some(c)
  {
    var n := c as int;
    var p := n / 64;
    var p2 := p / 64;
    var bs := Utf8Char(c);
    assert n == p * 64 + n % 64;
    assert p == p2 * 64 + p % 64;
    assert p2 == (p2 / 64) * 64 + p2 % 64;
    assert bs[0] % 8 == p2 / 64 && bs[1] % 64 == p2 % 64;
    assert bs[2] % 64 == p % 64 && bs[3] % 64 == n % 64;
  }

  lemma DecodeEncodeChar(c: char, rest: string)
    ensures DecodeURIComponent(EncodeChar(c) + rest) ==
      (var r := DecodeURIComponent(rest); if r.Ok? then Ok([c] + r.value) else Err)
  {
    var s := EncodeChar(c) + rest;
    if IsUnreserved(c) {
      assert s[0] == c && s[1..] == rest;
    } else if c as int < 0x80 {
      DecodeEscapedAscii(c, rest);
    } else {
      DecodeEscapedMultiByte(c, rest);
    }
  }

  lemma DecodeEscapedAscii(c: char, rest: string)
    requires c as int < 0x80
    ensures DecodeURIComponent(PercentBytes(Utf8Char(c)) + rest) ==
      (var r := DecodeURIComponent(rest); if r.Ok? then Ok([c] + r.value) else Err)
  {
    var bs := Utf8Char(c);
    var s := PercentBytes(bs) + rest;
    assert s == PercentByte(bs[0]) + rest;
    PercentByteAtOf(bs[0], rest);
    assert s[3..] == rest;
  }

  lemma DecodeEscapedMultiByte(c: char, rest: string)
    requires c as int >= 0x80
    ensures DecodeURIComponent(PercentBytes(Utf8Char(c)) + rest) ==
      (var r := DecodeURIComponent(rest); if r.Ok? then Ok([c] + r.value) else Err)
  {
    var bs := Utf8Char(c);
    var s := PercentBytes(bs) + rest;
    assert s == PercentByte(bs[0]) + (PercentBytes(bs[1..]) + rest);
    PercentByteAtOf(bs[0], PercentBytes(bs[1..]) + rest);
    Utf8CharIsValid(c);
    assert s[3..] == PercentBytes(bs[1..]) + rest;
    ContinuationsOf(bs[1..], rest);
    assert [bs[0]] + bs[1..] == bs;
    assert s[3 * |bs|..] == rest;
  }

  /** decodeURIComponent inverts encodeURIComponent. */
  lemma {:induction false} DecodeEncode(s: string)
    ensures DecodeURIComponent(EncodeURIComponent(s)) == Ok(s)
  {
    if |s| > 0 {
      DecodeEncode(s[1..]);
      DecodeEncodeChar(s[0], EncodeURIComponent(s[1..]));
      assert [s[0]] + s[1..] == s;
    }
  }

  // ------------------------------------------------ URLSearchParams.get

  /** Percent-decoding of a form value, as bytes: a `%XY` escape gives its byte,
      every other character its UTF-8 bytes (a `%` without two hexadecimal
      digits stays a literal `%`). */
  function PercentDecodeBytes(s: string): seq<Byte>
    decreases |s|
  {
    if |s| == 0 then []
    else
      var b := PercentByteAt(s);
      if b.Some? then [b.value] + PercentDecodeBytes(s[3..])
      else Utf8Char(s[0]) + PercentDecodeBytes(s[1..])
  }

  function PlusToSpace(s: string): (r: string)
    ensures |r| == |s|
    ensures '+' !in s ==> r == s
  {
    seq(|s|, i requires 0 <= i < |s| => if s[i] == '+' then ' ' else s[i])
  }

  /** A name or a value of application/x-www-form-urlencoded text: `+` is a
      space, then percent-decode and UTF-8 decode with replacement. */
  function FormDecode(s: string): string {
    Utf8Decode(PercentDecodeBytes(PlusToSpace(s)))
  }

  function IndexOf(s: string, c: char): (r: nat)
    requires c in s
    ensures r < |s| && s[r] == c && c !in s[..r]
  {
    if s[0] == c then 0
    else
      assert c in s[1..] by { var k :| 0 <= k < |s| && s[k] == c; assert s[1..][k - 1] == c; }
      var k := IndexOf(s[1..], c);
      assert s[..k + 1] == [s[0]] + s[1..][..k];
      k + 1
  }

  /** One `name=value` pair, split at its first `=`; without `=` the value is empty. */
  function FormPair(seqn: string): (string, string) {
    if '=' in seqn then
      var i := IndexOf(seqn, '=');
      (FormDecode(seqn[..i]), FormDecode(seqn[i + 1..]))
    else (FormDecode(seqn), "")
  }

  /** `new URLSearchParams(init)` for a string: a leading `?` is dropped, the
      rest is split on `&`, empty pieces are skipped. */
  function FormParse(init: string): seq<(string, string)> {
    var q := if |init| > 0 && init[0] == '?' then init[1..] else init;
    PairsOf(Split(q, '&'))
  }

  function PairsOf(pieces: seq<string>): seq<(string, string)> {
    if |pieces| == 0 then []
    else if pieces[0] == "" then PairsOf(pieces[1..])
    else [FormPair(pieces[0])] + PairsOf(pieces[1..])
  }

  /** URLSearchParams.get: the value of the first pair with the given name. */
  function ParamGet(pairs: seq<(string, string)>, name: string): (r: Option<string>)
    ensures r.Some? <==> exists i | 0 <= i < |pairs| :: pairs[i].0 == name
  {
    if |pairs| == 0 then None
    else if pairs[0].0 == name then Some(pairs[0].1)
    else
      var r := ParamGet(pairs[1..], name);
      assert (exists i | 0 <= i < |pairs[1..]| :: pairs[1..][i].0 == name)
        <==> (exists i | 1 <= i < |pairs| :: pairs[i].0 == name) by {
        forall i | 1 <= i < |pairs| && pairs[i].0 == name
          ensures exists j | 0 <= j < |pairs[1..]| :: pairs[1..][j].0 == name {
          assert pairs[1..][i - 1].0 == name;
        }
      }
      r
  }

  /** `location.search`: the URL text from its first `?` up to its fragment;
      empty when there is no query or the query is empty. */
  function SearchOf(url: string): string {
    if '?' !in url then ""
    else
      var tail := url[IndexOf(url, '?')..];
      var q := if '#' in tail then tail[..IndexOf(tail, '#')] else tail;
      if q == "?" then "" else q
  }

  // ------------------------------------------------------- round trips

  lemma {:induction false} PercentDecodeOfPercentBytes(bs: seq<Byte>, rest: string)
    ensures PercentDecodeBytes(PercentBytes(bs) + rest) == bs + PercentDecodeBytes(rest)
  {
    if |bs| > 0 {
      var s := PercentBytes(bs) + rest;
      assert s == PercentByte(bs[0]) + (PercentBytes(bs[1..]) + rest);
      PercentByteAtOf(bs[0], PercentBytes(bs[1..]) + rest);
      assert s[3..] == PercentBytes(bs[1..]) + rest;
      PercentDecodeOfPercentBytes(bs[1..], rest);
      assert [bs[0]] + (bs[1..] + PercentDecodeBytes(rest)) == bs + PercentDecodeBytes(rest);
    } else {
      assert PercentBytes(bs) + rest == rest;
    }
  }

  /** Percent-decoding the output of encodeURIComponent gives the UTF-8 bytes
      of the original text. */
  lemma {:induction false} PercentDecodeOfEncode(s: string)
    ensures PercentDecodeBytes(EncodeURIComponent(s)) == Utf8(s)
  {
    if |s| > 0 {
      var rest := EncodeURIComponent(s[1..]);
      PercentDecodeOfEncode(s[1..]);
      if IsUnreserved(s[0]) {
        var e := [s[0]] + rest;
        assert e[1..] == rest;
        assert PercentByteAt(e).None?;
      } else {
        PercentDecodeOfPercentBytes(Utf8Char(s[0]), rest);
      }
    }
  }

  /** Form decoding inverts encodeURIComponent. */
  lemma FormDecodeOfEncode(s: string)
    ensures FormDecode(EncodeURIComponent(s)) == s
  {
    var e := EncodeURIComponent(s);
    assert '+' !in e;
    PercentDecodeOfEncode(s);
    Utf8RoundTrip(s);
  }

  /** The URL generateShareUrl builds for a JSON text (PublishPanel.jsx). */
  function ShareUrl(base: string, json: string): string {
    base + (if IsSuffix("/", base) then "" else "/") + "?d=" + EncodeURIComponent(json)
  }

  /** Reading the `d` parameter of a share link gives back the JSON text
      unchanged, for a base URL without query or fragment. */
  lemma ShareUrlParam(base: string, json: string)
    requires '?' !in base && '#' !in base
    ensures ParamGet(FormParse(SearchOf(ShareUrl(base, json))), "d") == Some(json)
  {
    var e := EncodeURIComponent(json);
    SearchOfShareUrl(base, json);
    EncodedHasNoDelimiters(json);
    FormParseOfD(e);
    FormDecodeOfEncode(json);
  }

  /** Encoded text holds none of the characters that delimit a URL's parts. */
  lemma EncodedHasNoDelimiters(s: string)
    ensures var e := EncodeURIComponent(s); '&' !in e && '=' !in e && '#' !in e && '?' !in e
  {
    var e := EncodeURIComponent(s);
    assert forall i | 0 <= i < |e| :: e[i] != '&' && e[i] != '=' && e[i] != '#' && e[i] != '?';
  }

  /** A search of the single pair `d=e` parses to that one pair. */
  lemma FormParseOfD(e: string)
    requires '&' !in e && '=' !in e
    ensures FormParse("?d=" + e) == [("d", FormDecode(e))]
  {
    var init := "?d=" + e;
    assert init[1..] == "d=" + e;
    assert '&' !in init by {
      assert forall i | 0 <= i < |init| :: init[i] != '&' by {
        assert forall i | 3 <= i < |init| :: init[i] == e[i - 3];
      }
    }
    FormParseOnePair(init);
    FormPairOfD(e);
  }

  lemma SearchOfShareUrl(base: string, json: string)
    requires '?' !in base && '#' !in base
    ensures SearchOf(ShareUrl(base, json)) == "?d=" + EncodeURIComponent(json)
  {
    var e := EncodeURIComponent(json);
    var head := base + (if IsSuffix("/", base) then "" else "/");
    var tail := "?d=" + e;
    assert ShareUrl(base, json) == head + tail;
    EncodedHasNoDelimiters(json);
    assert '#' !in tail by {
      assert forall i | 3 <= i < |tail| :: tail[i] == e[i - 3];
    }
    SearchOfQueryTail(head, tail);
  }

  /** The search of a URL whose query part is all of `tail`. */
  lemma SearchOfQueryTail(head: string, tail: string)
    requires '?' !in head && '#' !in tail && |tail| > 1 && tail[0] == '?'
    ensures SearchOf(head + tail) == tail
  {
    IndexOfAfter(head, tail, '?');
    assert IndexOf(tail, '?') == 0;
    assert (head + tail)[|head|..] == tail;
  }

  lemma {:induction false} IndexOfAfter(a: string, b: string, c: char)
    requires c !in a && c in b
    ensures c in a + b && IndexOf(a + b, c) == |a| + IndexOf(b, c)
  {
    if |a| == 0 {
      assert a + b == b;
    } else {
      assert (a + b)[0] == a[0];
      assert (a + b)[1..] == a[1..] + b;
      IndexOfAfter(a[1..], b, c);
    }
  }

  /** A query of one non-empty piece without `&` parses to one pair. */
  lemma FormParseOnePair(init: string)
    requires |init| > 1 && init[0] == '?' && '&' !in init
    ensures FormParse(init) == [FormPair(init[1..])]
  {
    var q := init[1..];
    assert forall c | c in q :: c in init;
    SplitWithoutSep(q, '&');
    assert q != "";
    assert PairsOf([q]) == [FormPair(q)] + PairsOf([q][1..]);
    assert [q][1..] == [];
  }

  lemma FormPairOfD(e: string)
    requires '=' !in e
    ensures FormPair("d=" + e) == ("d", FormDecode(e))
  {
    var q := "d=" + e;
    assert IndexOf(q, '=') == 1;
    assert q[..1] == "d" && q[2..] == e;
    assert PlusToSpace("d") == "d";
    assert PercentByteAt("d").None?;
    assert PercentDecodeBytes("d") == [100] by {
      assert "d"[1..] == "";
    }
    assert Utf8Decode([100]) == "d" by {
      assert [100][1..] == [];
    }
  }
}
