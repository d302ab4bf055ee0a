/**
 * encodeURIComponent and decodeURIComponent (section 19.2.6 of ECMA-262) over UTF-8 (RFC 3629) and percent-encoding
 * (section 2.1 of RFC 3986). A string is a sequence of Unicode scalar values: a well-formed JavaScript string.
 */
module Uri {
  import opened Bytes
  import opened Wrappers

  // ----- UTF-8

  function Utf8(c: char): (bytes: seq<byte>)
    ensures 1 <= |bytes| <= 4
  {
    var v := c as int;
    if v < 0x80 then [v as byte]
    else if v < 0x800 then [(0xC0 + v / 0x40) as byte, (0x80 + v % 0x40) as byte]
    else if v < 0x1_0000 then [(0xE0 + v / 0x1000) as byte, (0x80 + v / 0x40 % 0x40) as byte, (0x80 + v % 0x40) as byte]
    else
      [(0xF0 + v / 0x4_0000) as byte, (0x80 + v / 0x1000 % 0x40) as byte, (0x80 + v / 0x40 % 0x40) as byte,
       (0x80 + v % 0x40) as byte]
  }

  predicate IsTail(b: byte) {
    0x80 <= b <= 0xBF
  }

  /** The well-formed sequences of section 4 of RFC 3629: no overlong forms, no surrogates, nothing above U+10FFFF. */
  predicate WellFormed(bytes: seq<byte>) {
    match |bytes|
    case 1 => bytes[0] <= 0x7F
    case 2 => 0xC2 <= bytes[0] <= 0xDF && IsTail(bytes[1])
    case 3 =>
      && IsTail(bytes[1]) && IsTail(bytes[2])
      && (|| (bytes[0] == 0xE0 && 0xA0 <= bytes[1])
          || 0xE1 <= bytes[0] <= 0xEC
          || (bytes[0] == 0xED && bytes[1] <= 0x9F)
          || 0xEE <= bytes[0] <= 0xEF)
    case 4 =>
      && IsTail(bytes[1]) && IsTail(bytes[2]) && IsTail(bytes[3])
      && (|| (bytes[0] == 0xF0 && 0x90 <= bytes[1])
          || 0xF1 <= bytes[0] <= 0xF3
          || (bytes[0] == 0xF4 && bytes[1] <= 0x8F))
    case _ => false
  }

  /** The number the bytes of a well-formed sequence spell. */
  function Value(bytes: seq<byte>): nat
    requires WellFormed(bytes)
  {
    match |bytes|
    case 1 => bytes[0] as int
    case 2 => (bytes[0] as int - 0xC0) * 0x40 + (bytes[1] as int - 0x80)
    case 3 => (bytes[0] as int - 0xE0) * 0x1000 + (bytes[1] as int - 0x80) * 0x40 + (bytes[2] as int - 0x80)
    case 4 =>
      (bytes[0] as int - 0xF0) * 0x4_0000 + (bytes[1] as int - 0x80) * 0x1000 + (bytes[2] as int - 0x80) * 0x40 +
      (bytes[3] as int - 0x80)
  }

  /** Well-formed sequences spell scalar values only. */
  lemma ValueIsScalar(bytes: seq<byte>)
    requires WellFormed(bytes)
    ensures Value(bytes) < 0xD800 || 0xE000 <= Value(bytes) < 0x11_0000
  {
  }

  function FromUtf8(bytes: seq<byte>): Option<char> {
    if WellFormed(bytes) then
      ValueIsScalar(bytes);
      Some(Value(bytes) as char)
    else None
  }

  lemma Utf8IsWellFormed(c: char)
    ensures FromUtf8(Utf8(c)) == Some(c)
  {
    var v := c as int;
    assert v == v / 0x40 * 0x40 + v % 0x40;
    assert v / 0x1000 == v / 0x40 / 0x40;
    assert v / 0x4_0000 == v / 0x1000 / 0x40;
    assert v < 0xD800 || 0xE000 <= v < 0x11_0000;
  }

  /** The well-formed sequences are exactly the encodings of the scalar values, one each. */
  lemma Utf8RoundTrip(bytes: seq<byte>, c: char)
    ensures FromUtf8(bytes) == Some(c) <==> bytes == Utf8(c)
  {
    Utf8IsWellFormed(c);
    if FromUtf8(bytes) == Some(c) {
      SameSpelling(bytes);
    }
  }

  lemma SixBits(high: nat, low: nat)
    requires low < 0x40
    ensures (high * 0x40 + low) / 0x40 == high && (high * 0x40 + low) % 0x40 == low
  {
  }

  lemma SameSpelling(bytes: seq<byte>)
    requires WellFormed(bytes)
    ensures FromUtf8(bytes).Some? && bytes == Utf8(FromUtf8(bytes).value)
  {
    ValueIsScalar(bytes);
    match |bytes|
    case 1 =>
    case 2 => SixBits(bytes[0] as int - 0xC0, bytes[1] as int - 0x80);
    case 3 => ThreeBytes(bytes);
    case 4 => FourBytes(bytes);
  }

  lemma ThreeBytes(bytes: seq<byte>)
    requires WellFormed(bytes) && |bytes| == 3
    ensures FromUtf8(bytes).Some? && bytes == Utf8(FromUtf8(bytes).value)
  {
    var a, b, c := bytes[0] as int - 0xE0, bytes[1] as int - 0x80, bytes[2] as int - 0x80;
    SixBits(a, b);
    SixBits(a * 0x40 + b, c);
    assert Value(bytes) == (a * 0x40 + b) * 0x40 + c;
    assert Value(bytes) / 0x1000 == Value(bytes) / 0x40 / 0x40;
  }

  lemma FourBytes(bytes: seq<byte>)
    requires WellFormed(bytes) && |bytes| == 4
    ensures FromUtf8(bytes).Some? && bytes == Utf8(FromUtf8(bytes).value)
  {
    var a, b, c, d := bytes[0] as int - 0xF0, bytes[1] as int - 0x80, bytes[2] as int - 0x80, bytes[3] as int - 0x80;
    SixBits(a, b);
    SixBits(a * 0x40 + b, c);
    SixBits((a * 0x40 + b) * 0x40 + c, d);
    assert Value(bytes) == ((a * 0x40 + b) * 0x40 + c) * 0x40 + d;
    assert Value(bytes) / 0x1000 == Value(bytes) / 0x40 / 0x40;
    assert Value(bytes) / 0x4_0000 == Value(bytes) / 0x1000 / 0x40;
  }

  // ----- Percent-encoding

  /** The characters encodeURIComponent leaves alone. */
  predicate Unreserved(c: char) {
    'A' <= c <= 'Z' || 'a' <= c <= 'z' || '0' <= c <= '9' || c in "-_.!~*'()"
  }

  function HexDigit(n: byte): char
    requires n < 16
  {
    if n < 10 then ('0' as int + n as int) as char else ('A' as int + n as int - 10) as char
  }

  /** Either case is read; only upper case is written. */
  function HexValue(c: char): (r: Option<byte>)
    ensures r.Some? ==> r.value < 16
  {
    if '0' <= c <= '9' then Some((c as int - '0' as int) as byte)
    else if 'A' <= c <= 'F' then Some((c as int - 'A' as int + 10) as byte)
    else if 'a' <= c <= 'f' then Some((c as int - 'a' as int + 10) as byte)
    else None
  }

  function Percent(b: byte): (s: string)
    ensures |s| == 3
  {
    ['%', HexDigit(b / 16), HexDigit(b % 16)]
  }

  function PercentAll(bytes: seq<byte>): (s: string)
    ensures |s| == 3 * |bytes|
  {
    if bytes == [] then "" else Percent(bytes[0]) + PercentAll(bytes[1..])
  }

  function EncodeChar(c: char): (s: string)
    ensures s != ""
  {
    if Unreserved(c) then [c] else PercentAll(Utf8(c))
  }

  function Encode(s: string): string {
    if s == "" then "" else EncodeChar(s[0]) + Encode(s[1..])
  }

  /** The byte an escape at the front of `s` stands for. */
  function ReadEscape(s: string): Option<byte> {
    if |s| < 3 || s[0] != '%' then None
    else
      match (HexValue(s[1]), HexValue(s[2]))
      case (Some(high), Some(low)) => Some(high * 16 + low)
      case _ => None
  }

  /** `n` escapes in a row. */
  function ReadEscapes(s: string, n: nat): (r: Option<seq<byte>>)
    ensures r.Some? ==> |r.value| == n && 3 * n <= |s|
  {
    if n == 0 then Some([])
    else
      match ReadEscape(s)
      case None => None
      case Some(b) =>
        match ReadEscapes(s[3..], n - 1)
        case None => None
        case Some(rest) => Some([b] + rest)
  }

  /** How many bytes a UTF-8 sequence has that begins with this one; 1 and 5 for those that cannot begin a longer one. */
  function LeadingOnes(b: byte): nat {
    if b < 0x80 then 0
    else if b < 0xC0 then 1
    else if b < 0xE0 then 2
    else if b < 0xF0 then 3
    else if b < 0xF8 then 4
    else 5
  }

  /** The first character of the decoded string, and how much of `s` it takes. */
  function DecodeFirst(s: string): (r: Option<(char, nat)>)
    requires s != ""
    ensures r.Some? ==> 0 < r.value.1 <= |s|
  {
    if s[0] != '%' then Some((s[0], 1))
    else
      match ReadEscape(s)
      case None => None
      case Some(b) =>
        var n := LeadingOnes(b);
        if n == 0 then Some((b as int as char, 3))
        else if n == 1 || n > 4 then None
        else
          match ReadEscapes(s, n)
          case None => None
          case Some(bytes) =>
            match FromUtf8(bytes)
            case None => None
            case Some(c) => Some((c, 3 * n))
  }

  /** None where decodeURIComponent throws. */
  function Decode(s: string): Option<string> {
    if s == "" then Some("")
    else
      match DecodeFirst(s)
      case None => None
      case Some((c, n)) =>
        match Decode(s[n..])
        case None => None
        case Some(rest) => Some([c] + rest)
  }

  function SafeDecode(s: string): string {
    match Decode(s)
    case Some(t) => t
    case None => s
  }

  lemma ReadPercent(b: byte, rest: string)
    ensures ReadEscape(Percent(b) + rest) == Some(b)
  {
  }

  lemma {:induction false} ReadPercentAll(bytes: seq<byte>, rest: string)
    ensures ReadEscapes(PercentAll(bytes) + rest, |bytes|) == Some(bytes)
  {
    if bytes != [] {
      var more := PercentAll(bytes[1..]) + rest;
      assert PercentAll(bytes) + rest == Percent(bytes[0]) + more;
      ReadPercent(bytes[0], more);
      assert (Percent(bytes[0]) + more)[3..] == more;
      ReadPercentAll(bytes[1..], rest);
      assert bytes == [bytes[0]] + bytes[1..];
    }
  }

  lemma LengthFromFirstByte(c: char)
    ensures LeadingOnes(Utf8(c)[0]) == if |Utf8(c)| == 1 then 0 else |Utf8(c)|
  {
  }

  lemma DecodeEscapedChar(c: char, rest: string)
    ensures DecodeFirst(PercentAll(Utf8(c)) + rest) == Some((c, 3 * |Utf8(c)|))
  {
    var bytes := Utf8(c);
    var s, more := PercentAll(bytes) + rest, PercentAll(bytes[1..]) + rest;
    ReadPercentAll(bytes, rest);
    assert s == Percent(bytes[0]) + more;
    ReadPercent(bytes[0], more);
    LengthFromFirstByte(c);
    Utf8IsWellFormed(c);
    if |bytes| == 1 {
      assert bytes[0] as int == c as int;
    }
  }

  lemma DecodeEncodedChar(c: char, rest: string)
    ensures DecodeFirst(EncodeChar(c) + rest) == Some((c, |EncodeChar(c)|))
  {
    if !Unreserved(c) {
      DecodeEscapedChar(c, rest);
    }
  }

  lemma DecodeMore(first: string, c: char, rest: string, t: string)
    requires first != "" && DecodeFirst(first + rest) == Some((c, |first|)) && Decode(rest) == Some(t)
    ensures Decode(first + rest) == Some([c] + t)
  {
    assert (first + rest)[|first|..] == rest;
  }

  /** Decoding undoes encoding, for every well-formed string. */
  lemma {:induction false} DecodeEncode(s: string)
    ensures Decode(Encode(s)) == Some(s)
  {
    if s != "" {
      DecodeEncodedChar(s[0], Encode(s[1..]));
      DecodeEncode(s[1..]);
      DecodeMore(EncodeChar(s[0]), s[0], Encode(s[1..]), s[1..]);
      assert s == [s[0]] + s[1..];
    }
  }

  // ----- What is written, and what can be read

  const UPPER := "0123456789ABCDEF"
  const LOWER := "0123456789abcdef"

  /** Digits of either case are read, those of upper case written. */
  lemma HexDigits(c: char, n: byte)
    requires n < 16
    ensures HexDigit(n) == UPPER[n]
    ensures HexValue(c) == Some(n) <==> c == UPPER[n] || c == LOWER[n]
  {
  }

  /** An escape of the byte. */
  ghost predicate SpellsByte(s: string, b: byte) {
    |s| == 3 && s[0] == '%' && HexValue(s[1]) == Some(b / 16) && HexValue(s[2]) == Some(b % 16)
  }

  ghost predicate SpellsBytes(s: string, bytes: seq<byte>) {
    if bytes == [] then s == ""
    else |s| >= 3 && SpellsByte(s[..3], bytes[0]) && SpellsBytes(s[3..], bytes[1..])
  }

  /** The character itself, unless it is a percent sign, or the escapes of all its UTF-8 bytes. */
  ghost predicate SpellsChar(s: string, c: char) {
    (s == [c] && c != '%') || SpellsBytes(s, Utf8(c))
  }

  ghost predicate Spells(s: string, t: string) {
    if t == "" then s == ""
    else exists n :: 0 < n <= |s| && SpellsChar(s[..n], t[0]) && Spells(s[n..], t[1..])
  }

  lemma TwoDigits(high: byte, low: byte, b: byte)
    requires high < 16 && low < 16
    ensures high * 16 + low == b <==> high == b / 16 && low == b % 16
  {
  }

  lemma ReadEscapeReads(s: string, b: byte)
    ensures ReadEscape(s) == Some(b) <==> |s| >= 3 && SpellsByte(s[..3], b)
  {
    if |s| >= 3 && HexValue(s[1]).Some? && HexValue(s[2]).Some? {
      TwoDigits(HexValue(s[1]).value, HexValue(s[2]).value, b);
    }
  }

  lemma {:induction false} SpelledLength(s: string, bytes: seq<byte>)
    requires SpellsBytes(s, bytes)
    ensures |s| == 3 * |bytes|
  {
    if bytes != [] {
      SpelledLength(s[3..], bytes[1..]);
    }
  }

  lemma ReadEscapesStep(s: string, bytes: seq<byte>)
    requires bytes != []
    ensures ReadEscapes(s, |bytes|) == Some(bytes) <==>
            ReadEscape(s) == Some(bytes[0]) && ReadEscapes(s[3..], |bytes| - 1) == Some(bytes[1..])
  {
    assert bytes == [bytes[0]] + bytes[1..];
  }

  lemma {:induction false} ReadEscapesReads(s: string, bytes: seq<byte>)
    ensures ReadEscapes(s, |bytes|) == Some(bytes) <==>
            3 * |bytes| <= |s| && SpellsBytes(s[..3 * |bytes|], bytes)
  {
    if bytes != [] {
      ReadEscapeReads(s, bytes[0]);
      ReadEscapesStep(s, bytes);
      if |s| >= 3 {
        ReadEscapesReads(s[3..], bytes[1..]);
        if 3 * |bytes| <= |s| {
          var p := s[..3 * |bytes|];
          assert p[..3] == s[..3] && p[3..] == s[3..][..3 * |bytes[1..]|];
        }
      }
    }
  }

  lemma SpelledBeginsWithPercent(s: string, bytes: seq<byte>)
    requires SpellsBytes(s, bytes) && bytes != []
    ensures |s| >= 3 && s[0] == '%'
  {
    assert s[..3][0] == s[0];
  }

  lemma DecodeFirstReads(s: string, c: char, n: nat)
    requires s != ""
    ensures DecodeFirst(s) == Some((c, n)) <==> 0 < n <= |s| && SpellsChar(s[..n], c)
  {
    if s[0] == '%' {
      if DecodeFirst(s) == Some((c, n)) {
        FirstIsSpelled(s, c, n);
      }
      if 0 < n <= |s| && SpellsChar(s[..n], c) {
        SpelledIsFirst(s, c, n);
      }
    } else if 0 < n <= |s| && SpellsChar(s[..n], c) {
      LiteralIsFirst(s, c, n);
    }
  }

  lemma LiteralIsFirst(s: string, c: char, n: nat)
    requires 0 < n <= |s| && SpellsChar(s[..n], c) && s[0] != '%'
    ensures n == 1 && c == s[0]
  {
    if s[..n] != [c] {
      SpelledBeginsWithPercent(s[..n], Utf8(c));
    } else {
      assert s[..n][0] == s[0];
    }
  }

  lemma SpelledIsFirst(s: string, c: char, n: nat)
    requires 0 < n <= |s| && SpellsChar(s[..n], c) && s[0] == '%'
    ensures DecodeFirst(s) == Some((c, n))
  {
    var bytes := Utf8(c);
    assert s[..n][0] == s[0];
    SpelledLength(s[..n], bytes);
    assert s[..n][..3] == s[..3];
    ReadEscapeReads(s, bytes[0]);
    ReadEscapesReads(s, bytes);
    LengthFromFirstByte(c);
    Utf8IsWellFormed(c);
  }

  lemma FirstIsSpelled(s: string, c: char, n: nat)
    requires s != "" && s[0] == '%' && DecodeFirst(s) == Some((c, n))
    ensures n <= |s| && SpellsBytes(s[..n], Utf8(c))
  {
    var b := ReadEscape(s).value;
    if LeadingOnes(b) == 0 {
      assert Utf8(c) == [b];
      ReadEscapeReads(s, b);
      assert s[..3][..3] == s[..3] && s[..3][3..] == "" && [b][1..] == [];
    } else {
      var bytes := ReadEscapes(s, LeadingOnes(b)).value;
      Utf8RoundTrip(bytes, c);
      ReadEscapesReads(s, bytes);
    }
  }

  /**
   * A string decodes to another exactly if it spells it: character by character as itself or as the escapes of its
   * bytes. Everything else decodeURIComponent refuses: cut or broken escapes, and bytes that are not UTF-8.
   */
  lemma {:induction false} DecodeReads(s: string, t: string)
    ensures Decode(s) == Some(t) <==> Spells(s, t)
    decreases |s|
  {
    if s != "" && t != "" {
      if Decode(s) == Some(t) {
        var (c, n) := DecodeFirst(s).value;
        DecodeFirstReads(s, c, n);
        DecodeReads(s[n..], t[1..]);
        assert t == [c] + t[1..];
      }
      if Spells(s, t) {
        var n :| 0 < n <= |s| && SpellsChar(s[..n], t[0]) && Spells(s[n..], t[1..]);
        DecodeFirstReads(s, t[0], n);
        DecodeReads(s[n..], t[1..]);
        assert t == [t[0]] + t[1..];
      }
    }
  }

  /** A name that does not decode stands for itself. */
  lemma SafeDecodeReads(s: string)
    ensures Spells(s, SafeDecode(s)) || (SafeDecode(s) == s && forall t :: !Spells(s, t))
  {
    forall t ensures Decode(s) == Some(t) <==> Spells(s, t) {
      DecodeReads(s, t);
    }
  }

  ghost predicate Escapes(s: string, bytes: seq<byte>) {
    && |s| == 3 * |bytes|
    && forall i :: 0 <= i < |bytes| ==>
         s[3 * i] == '%' && s[3 * i + 1] == UPPER[bytes[i] / 16] && s[3 * i + 2] == UPPER[bytes[i] % 16]
  }

  lemma {:induction false} PercentAllEscapes(bytes: seq<byte>)
    ensures Escapes(PercentAll(bytes), bytes)
  {
    if bytes != [] {
      PercentAllEscapes(bytes[1..]);
      EscapesOneMore(PercentAll(bytes[1..]), bytes);
    }
  }

  lemma EscapesOneMore(rest: string, bytes: seq<byte>)
    requires bytes != [] && Escapes(rest, bytes[1..])
    ensures Escapes(Percent(bytes[0]) + rest, bytes)
  {
    var s := Percent(bytes[0]) + rest;
    HexDigits('0', bytes[0] / 16);
    HexDigits('0', bytes[0] % 16);
    forall i | 0 <= i < |bytes|
      ensures s[3 * i] == '%' && s[3 * i + 1] == UPPER[bytes[i] / 16] && s[3 * i + 2] == UPPER[bytes[i] % 16]
    {
      if i > 0 {
        assert bytes[1..][i - 1] == bytes[i];
        assert s[3 * i] == rest[3 * (i - 1)];
      }
    }
  }

  /** Letters, digits and nine marks are kept, all other characters become upper-case escapes of their bytes. */
  lemma EncodeCharWrites(c: char)
    ensures if 'A' <= c <= 'Z' || 'a' <= c <= 'z' || '0' <= c <= '9' || c in "-_.!~*'()" then EncodeChar(c) == [c]
            else Escapes(EncodeChar(c), Utf8(c))
  {
    PercentAllEscapes(Utf8(c));
  }

  /** A string is encoded character by character. */
  lemma {:induction false} EncodeWrites(a: string, b: string)
    ensures Encode(a + b) == Encode(a) + Encode(b)
    ensures |a| == 1 ==> Encode(a) == EncodeChar(a[0])
  {
    if a == "" {
      assert a + b == b;
    } else {
      assert (a + b)[1..] == a[1..] + b;
      EncodeWrites(a[1..], b);
    }
  }

  /** A path segment: not empty, and without a slash. */
  predicate IsSegment(s: string) {
    s != "" && '/' !in s
  }

  lemma {:induction false} NoSlashInEscapes(bytes: seq<byte>)
    ensures '/' !in PercentAll(bytes)
  {
    if bytes != [] {
      NoSlashInEscapes(bytes[1..]);
    }
  }

  /** An encoded string is a segment, whatever it was: its slashes are escaped. */
  lemma {:induction false} EncodedIsSegment(s: string)
    ensures '/' !in Encode(s) && (s != "" ==> IsSegment(Encode(s)))
  {
    if s != "" {
      NoSlashInEscapes(Utf8(s[0]));
      EncodedIsSegment(s[1..]);
    }
  }

  lemma DecodedIsNotEmpty(s: string)
    requires s != ""
    ensures SafeDecode(s) != ""
  {
  }
}
