/** Percent-encoding of query values and the decoder of the callback, which undo each other. */
module UrlCodec {
  import opened Prelude

  newtype Byte = x: int | 0 <= x < 256

  /** A string by its UTF-8 bytes. */
  type Text = seq<Byte>

  const PERCENT: Byte := 0x25
  const AMPERSAND: Byte := 0x26
  const PLUS: Byte := 0x2B
  const EQUALS: Byte := 0x3D

  // ------------------------------------------------------------- encoding

  predicate Upper(b: Byte) { 0x41 <= b <= 0x5A }

  predicate Lower(b: Byte) { 0x61 <= b <= 0x7A }

  predicate Digit(b: Byte) { 0x30 <= b <= 0x39 }

  /** Unreserved characters, section 2.3 of RFC 3986. */
  predicate Unreserved(b: Byte) {
    Upper(b) || Lower(b) || Digit(b) || b == 0x2D || b == 0x5F || b == 0x2E || b == 0x7E
  }

  function HexDigit(n: int): (b: Byte)
    requires 0 <= n < 16
  {
    if n < 10 then (0x30 + n) as Byte else (0x41 + n - 10) as Byte
  }

  function EncodeByte(b: Byte): (t: Text)
    ensures t != []
  {
    if Unreserved(b) then [b] else [PERCENT, HexDigit(b as int / 16), HexDigit(b as int % 16)]
  }

  function UrlEncode(value: Text): Text {
    if value == [] then [] else UrlEncode(value[..|value| - 1]) + EncodeByte(value[|value| - 1])
  }

  method UrlEncoded(value: Text) returns (out: Text)
    ensures out == UrlEncode(value)
  {
    out := [];
    for i := 0 to |value|
      invariant out == UrlEncode(value[..i])
    {
      assert value[..i + 1][..i] == value[..i];
      if Unreserved(value[i]) {
        out := out + [value[i]];
      } else {
        out := out + [PERCENT, HexDigit(value[i] as int / 16), HexDigit(value[i] as int % 16)];
      }
    }
    assert value[..|value|] == value;
  }

  // ------------------------------------------------------------- decoding

  function HexValue(b: Byte): Option<int> {
    if Digit(b) then Some(b as int - 0x30)
    else if 0x41 <= b <= 0x46 then Some(b as int - 0x41 + 10)
    else if 0x61 <= b <= 0x66 then Some(b as int - 0x61 + 10)
    else None
  }

  /** Two characters read as a number in base 16, where a plus sign in front of one digit is accepted. */
  function FromHex(high: Byte, low: Byte): (r: Option<Byte>) {
    if HexValue(high).Some? && HexValue(low).Some? then Some((16 * HexValue(high).value + HexValue(low).value) as Byte)
    else if high == PLUS && HexValue(low).Some? then Some(HexValue(low).value as Byte)
    else None
  }

  /** An escape that the decoder takes: a percent sign with two readable characters after it. */
  predicate EscapeAt(t: Text, i: nat) { i + 2 < |t| && t[i] == PERCENT && FromHex(t[i + 1], t[i + 2]).Some? }

  /** Every escape replaced by its byte; everything else as it is. */
  function Unescape(t: Text): Text {
    if t == [] then []
    else if EscapeAt(t, 0) then [FromHex(t[1], t[2]).value] + Unescape(t[3..])
    else [t[0]] + Unescape(t[1..])
  }

  predicate Follows(t: Text, i: nat) { i < |t| && 0x80 <= t[i] <= 0xBF }

  /** Length in bytes of the UTF-8 character that `t` starts with, 0 if it starts with none. */
  function CharLength(t: Text): (n: nat)
    ensures n <= |t|
  {
    if t == [] then 0
    else if t[0] < 0x80 then 1
    else if 0xC2 <= t[0] <= 0xDF then (if Follows(t, 1) then 2 else 0)
    else if 0xE0 <= t[0] <= 0xEF then
      if Follows(t, 1) && Follows(t, 2) && (t[0] == 0xE0 ==> t[1] >= 0xA0) && (t[0] == 0xED ==> t[1] <= 0x9F) then 3 else 0
    else if 0xF0 <= t[0] <= 0xF4 then
      if Follows(t, 1) && Follows(t, 2) && Follows(t, 3)
         && (t[0] == 0xF0 ==> t[1] >= 0x90) && (t[0] == 0xF4 ==> t[1] <= 0x8F)
      then 4 else 0
    else 0
  }

  predicate ValidUtf8(t: Text) { t == [] || (CharLength(t) > 0 && ValidUtf8(t[CharLength(t)..])) }

  /** Decoding gives up, returning its input, when the bytes are no longer a string. */
  function PercentDecode(t: Text): Text { if ValidUtf8(Unescape(t)) then Unescape(t) else t }

  lemma UnescapeFrom(t: Text, i: nat)
    requires i < |t|
    ensures Unescape(t[i..])
            == if EscapeAt(t, i) then [FromHex(t[i + 1], t[i + 2]).value] + Unescape(t[i + 3..])
               else [t[i]] + Unescape(t[i + 1..])
  {
    assert EscapeAt(t[i..], 0) <==> EscapeAt(t, i);
    if EscapeAt(t, i) {
      assert t[i..][3..] == t[i + 3..];
    } else {
      assert t[i..][1..] == t[i + 1..];
    }
  }

  method PercentDecoded(value: Text) returns (decoded: Text)
    ensures decoded == PercentDecode(value)
  {
    hide Unescape, FromHex, ValidUtf8;
    var out: Text := [];
    var i := 0;
    assert value[0..] == value;
    while i < |value|
      invariant i <= |value| && out + Unescape(value[i..]) == Unescape(value)
      decreases |value| - i
    {
      UnescapeFrom(value, i);
      if value[i] == PERCENT && i + 2 < |value| {
        var byte := FromHex(value[i + 1], value[i + 2]);
        if byte.Some? {
          out := out + [byte.value];
          i := i + 3;
          continue;
        }
      }
      out := out + [value[i]];
      i := i + 1;
    }
    NothingLeft(value, out);
    return if ValidUtf8(out) then out else value;
  }

  lemma NothingLeft(value: Text, out: Text)
    ensures out + Unescape(value[|value|..]) == out
  {}

  /** A hexadecimal digit in either case. */
  predicate HexChar(c: char) { '0' <= c <= '9' || 'A' <= c <= 'F' || 'a' <= c <= 'f' }

  /** Which two characters after a percent sign are taken, and that the case of the digits does not matter. */
  lemma EscapesTaken(high: Byte, low: Byte)
    ensures var (h, l) := (high as int as char, low as int as char);
            && (FromHex(high, low).Some? <==> (HexChar(h) || h == '+') && HexChar(l))
            && (Lower(high) && FromHex(high, low).Some? ==> FromHex(high - 0x20, low) == FromHex(high, low))
            && (Lower(low) && FromHex(high, low).Some? ==> FromHex(high, low - 0x20) == FromHex(high, low))
  {}

  /** The plus sign counts for nothing: `%+F` is the byte 15. */
  lemma PlusCountsForNothing()
    ensures PercentDecode([0x25, 0x2B, 0x46]) == [0x0F]
  {
    assert Unescape([0x25, 0x2B, 0x46]) == [0x0F] + Unescape([]);
    assert CharLength([0x0F]) == 1;
  }

  // ------------------------------------------------------------ round trip

  lemma EscapeOfByte(b: Byte)
    ensures FromHex(HexDigit(b as int / 16), HexDigit(b as int % 16)) == Some(b)
  {}

  /** What an encoded byte is decoded to, whatever follows it. */
  lemma UnescapeByte(b: Byte, rest: Text)
    ensures Unescape(EncodeByte(b) + rest) == [b] + Unescape(rest)
  {
    var t := EncodeByte(b) + rest;
    if Unreserved(b) {
      assert t[1..] == rest;
    } else {
      EscapeOfByte(b);
      assert t[0] == PERCENT && t[1] == HexDigit(b as int / 16) && t[2] == HexDigit(b as int % 16);
      assert t[3..] == rest;
    }
  }

  lemma {:induction false} UnescapeEncoded(value: Text, rest: Text)
    ensures Unescape(UrlEncode(value) + rest) == value + Unescape(rest)
  {
    hide Unescape, EncodeByte;
    if value == [] {
      assert UrlEncode(value) + rest == rest;
    } else {
      var front, last := value[..|value| - 1], value[|value| - 1];
      assert UrlEncode(value) + rest == UrlEncode(front) + (EncodeByte(last) + rest);
      UnescapeEncoded(front, EncodeByte(last) + rest);
      UnescapeByte(last, rest);
      assert value == front + [last];
    }
  }

  /** Decoding undoes encoding, for every string. */
  lemma DecodeUndoesEncode(value: Text)
    requires ValidUtf8(value)
    ensures PercentDecode(UrlEncode(value)) == value
  {
    UnescapeEncoded(value, []);
    assert UrlEncode(value) + [] == UrlEncode(value) && value + Unescape([]) == value;
  }

  /** An encoded value carries no separator of a query. */
  lemma {:induction false} EncodedHasNoSeparator(value: Text, b: Byte)
    requires b == AMPERSAND || b == EQUALS
    ensures b !in UrlEncode(value)
  {
    if value != [] {
      EncodedHasNoSeparator(value[..|value| - 1], b);
    }
  }

  predicate UpperHex(b: Byte) { Digit(b) || 0x41 <= b <= 0x46 }

  /** Unreserved characters and escapes in upper case, nothing else. */
  ghost predicate WellEscaped(t: Text) {
    || t == []
    || (Unreserved(t[0]) && WellEscaped(t[1..]))
    || (|t| >= 3 && t[0] == 0x25 && UpperHex(t[1]) && UpperHex(t[2]) && WellEscaped(t[3..]))
  }

  lemma {:induction false} WellEscapedAppend(a: Text, b: Text)
    requires WellEscaped(a) && WellEscaped(b)
    ensures WellEscaped(a + b)
    decreases |a|
  {
    if a == [] {
      assert a + b == b;
    } else if Unreserved(a[0]) && WellEscaped(a[1..]) {
      WellEscapedAppend(a[1..], b);
      assert (a + b)[1..] == a[1..] + b;
    } else {
      WellEscapedAppend(a[3..], b);
      assert (a + b)[3..] == a[3..] + b;
    }
  }

  lemma ByteIsWellEscaped(b: Byte)
    ensures WellEscaped(EncodeByte(b)) && EncodeByte(b) != []
    ensures Unreserved(b) ==> EncodeByte(b) == [b]
    ensures |EncodeByte(b)| == 1 <==> Unreserved(b)
  {
    var code := EncodeByte(b);
    if Unreserved(b) {
      assert code[1..] == [];
    } else {
      assert code[3..] == [];
    }
  }

  /** An encoded value is made of unreserved characters and upper-case escapes, nothing else. */
  lemma {:induction false} EncodedIsWellEscaped(value: Text)
    ensures WellEscaped(UrlEncode(value))
  {
    hide WellEscaped, EncodeByte;
    if value == [] {
      assert WellEscaped([]) by { NothingIsWellEscaped(); }
    } else {
      EncodedIsWellEscaped(value[..|value| - 1]);
      ByteIsWellEscaped(value[|value| - 1]);
      WellEscapedAppend(UrlEncode(value[..|value| - 1]), EncodeByte(value[|value| - 1]));
    }
  }

  lemma NothingIsWellEscaped()
    ensures WellEscaped([])
  {}

  /** Exactly the values without a reserved character are their own encoding. */
  lemma {:induction false} UnreservedStays(value: Text)
    ensures |UrlEncode(value)| >= |value|
    ensures |UrlEncode(value)| == |value| ==> UrlEncode(value) == value
    ensures UrlEncode(value) == value <==> forall b :: b in value ==> Unreserved(b)
  {
    hide EncodeByte, Unreserved;
    if value != [] {
      var front, last := value[..|value| - 1], value[|value| - 1];
      UnreservedStays(front);
      ByteIsWellEscaped(last);
      assert value == front + [last];
      assert (forall b :: b in value ==> Unreserved(b)) <==> Unreserved(last) && forall b :: b in front ==> Unreserved(b);
    }
  }

  /** The unreserved characters: letters, digits, hyphen, period, underscore and tilde. */
  lemma UnreservedListed(b: Byte)
    ensures var c := b as int as char;
            Unreserved(b) <==> 'A' <= c <= 'Z' || 'a' <= c <= 'z' || '0' <= c <= '9' || c in {'-', '.', '_', '~'}
  {}

  // ------------------------------------------------------------ UTF-8 strings

  /** A character: any code point that is not half of a surrogate pair. */
  predicate Scalar(c: int) { 0 <= c <= 0xD7FF || 0xE000 <= c <= 0x10FFFF }

  /** One character in UTF-8, section 3 of RFC 3629. */
  function Utf8(c: int): (t: Text)
    requires Scalar(c)
    ensures 0 < |t| <= 4
  {
    if c < 0x80 then [c as Byte]
    else if c < 0x800 then [(0xC0 + c / 64) as Byte, (0x80 + c % 64) as Byte]
    else if c < 0x10000 then [(0xE0 + c / 4096) as Byte, (0x80 + c / 64 % 64) as Byte, (0x80 + c % 64) as Byte]
    else
      [(0xF0 + c / 262144) as Byte, (0x80 + c / 4096 % 64) as Byte, (0x80 + c / 64 % 64) as Byte, (0x80 + c % 64) as Byte]
  }

  function Utf8Text(chars: seq<int>): Text
    requires forall i :: 0 <= i < |chars| ==> Scalar(chars[i])
  {
    if chars == [] then [] else Utf8(chars[0]) + Utf8Text(chars[1..])
  }

  lemma CharLengthOf(c: int, rest: Text)
    requires Scalar(c)
    ensures CharLength(Utf8(c) + rest) == |Utf8(c)|
  {}

  /** The character that valid text starts with. */
  function FirstChar(t: Text): int {
    match CharLength(t)
    case 0 => 0
    case 1 => t[0] as int
    case 2 => (t[0] as int - 0xC0) * 64 + (t[1] as int - 0x80)
    case 3 => (t[0] as int - 0xE0) * 4096 + (t[1] as int - 0x80) * 64 + (t[2] as int - 0x80)
    case _ =>
      if |t| < 4 then 0
      else (t[0] as int - 0xF0) * 262144 + (t[1] as int - 0x80) * 4096 + (t[2] as int - 0x80) * 64 + (t[3] as int - 0x80)
  }

  lemma TwoDigits(x: int, y: int)
    requires 0 <= y < 64
    ensures (x * 64 + y) / 64 == x && (x * 64 + y) % 64 == y
  {}

  lemma ThreeDigits(x: int, y: int, z: int)
    requires 0 <= y < 64 && 0 <= z < 64
    ensures var c := x * 4096 + y * 64 + z; c / 4096 == x && c / 64 == x * 64 + y && c % 64 == z
  {
    TwoDigits(x * 64 + y, z);
  }

  lemma FourDigits(x: int, y: int, z: int, w: int)
    requires 0 <= y < 64 && 0 <= z < 64 && 0 <= w < 64
    ensures var c := x * 262144 + y * 4096 + z * 64 + w;
            c / 262144 == x && c / 4096 == x * 64 + y && c / 64 == x * 4096 + y * 64 + z && c % 64 == w
  {
    ThreeDigits(x * 64 + y, z, w);
    TwoDigits(x * 4096 + y * 64 + z, w);
  }

  lemma FirstCharCodes(t: Text)
    requires CharLength(t) > 0
    ensures Scalar(FirstChar(t)) && Utf8(FirstChar(t)) == t[..CharLength(t)]
  {
    match CharLength(t) {
      case 1 =>
      case 2 => TwoByteChar(t);
      case 3 => ThreeByteChar(t);
      case _ => FourByteChar(t);
    }
  }

  lemma TwoByteChar(t: Text)
    requires CharLength(t) == 2
    ensures Scalar(FirstChar(t)) && Utf8(FirstChar(t)) == t[..2]
  {
    TwoDigits(t[0] as int - 0xC0, t[1] as int - 0x80);
  }

  lemma ThreeByteChar(t: Text)
    requires CharLength(t) == 3
    ensures Scalar(FirstChar(t)) && Utf8(FirstChar(t)) == t[..3]
  {
    var (x, y, z) := (t[0] as int - 0xE0, t[1] as int - 0x80, t[2] as int - 0x80);
    ThreeDigits(x, y, z);
    TwoDigits(x, y);
  }

  lemma FourByteChar(t: Text)
    requires CharLength(t) == 4
    ensures Scalar(FirstChar(t)) && Utf8(FirstChar(t)) == t[..4]
  {
    var (x, y, z, w) := (t[0] as int - 0xF0, t[1] as int - 0x80, t[2] as int - 0x80, t[3] as int - 0x80);
    FourDigits(x, y, z, w);
    TwoDigits(x, y);
    TwoDigits(x * 64 + y, z);
  }

  /** The bytes of any characters are a string, and every string is the bytes of some characters. */
  lemma {:induction false} CharactersMakeStrings(chars: seq<int>)
    requires forall i :: 0 <= i < |chars| ==> Scalar(chars[i])
    ensures ValidUtf8(Utf8Text(chars))
  {
    hide CharLength, Utf8, Scalar;
    if chars != [] {
      var rest := Utf8Text(chars[1..]);
      CharactersMakeStrings(chars[1..]);
      CharLengthOf(chars[0], rest);
      assert (Utf8(chars[0]) + rest)[|Utf8(chars[0])|..] == rest;
    }
  }

  lemma {:induction false} StringsAreCharacters(t: Text) returns (chars: seq<int>)
    requires ValidUtf8(t)
    ensures forall i :: 0 <= i < |chars| ==> Scalar(chars[i])
    ensures Utf8Text(chars) == t
    decreases |t|
  {
    hide CharLength, FirstChar, Utf8, Scalar;
    if t == [] {
      chars := [];
    } else {
      var n := CharLength(t);
      FirstCharCodes(t);
      var rest := StringsAreCharacters(t[n..]);
      chars := [FirstChar(t)] + rest;
      assert chars[1..] == rest && t == t[..n] + t[n..];
    }
  }

  // --------------------------------------------------- what decoding leaves

  ghost predicate HasEscape(t: Text) { exists i: nat :: EscapeAt(t, i) }

  lemma {:induction false} UnescapeShrinks(t: Text)
    ensures |Unescape(t)| <= |t|
    ensures |Unescape(t)| == |t| ==> Unescape(t) == t && !HasEscape(t)
  {
    if t != [] && !EscapeAt(t, 0) {
      UnescapeShrinks(t[1..]);
      if |Unescape(t)| == |t| {
        forall i: nat ensures !EscapeAt(t, i) {
          if i > 0 && i + 2 < |t| {
            assert !EscapeAt(t[1..], i - 1);
          }
        }
      }
    } else if t != [] {
      UnescapeShrinks(t[3..]);
    }
  }

  lemma {:induction false} NoEscapeNoChange(t: Text)
    requires !HasEscape(t)
    ensures Unescape(t) == t
  {
    if t != [] {
      forall i: nat ensures !EscapeAt(t[1..], i) {
        assert !EscapeAt(t, i + 1);
      }
      NoEscapeNoChange(t[1..]);
    }
  }

  /** Decoding leaves a text alone exactly when it has no escape, or its escapes do not make a string. */
  lemma UnchangedIff(t: Text)
    ensures PercentDecode(t) == t <==> !HasEscape(t) || !ValidUtf8(Unescape(t))
  {
    UnescapeShrinks(t);
    if !HasEscape(t) {
      NoEscapeNoChange(t);
    }
  }

  // ------------------------------------------------------------- the query

  type Pair = (Text, Text)

  /** The pieces between separators; one more than there are separators. */
  function Split(t: Text, separator: Byte): (pieces: seq<Text>)
    ensures |pieces| > 0
  {
    if t == [] then [[]]
    else
      var rest := Split(t[1..], separator);
      if t[0] == separator then [[]] + rest else [[t[0]] + rest[0]] + rest[1..]
  }

  function Join(pieces: seq<Text>, separator: Byte): Text {
    if pieces == [] then [] else if |pieces| == 1 then pieces[0] else pieces[0] + [separator] + Join(pieces[1..], separator)
  }

  /** The text before and after the first separator; all of it and nothing if there is none. */
  function SplitOnce(t: Text, separator: Byte): Pair {
    if t == [] then ([], [])
    else if t[0] == separator then ([], t[1..])
    else var (before, after) := SplitOnce(t[1..], separator); ([t[0]] + before, after)
  }

  function ParsePair(t: Text): Pair {
    var (key, value) := SplitOnce(t, EQUALS);
    (PercentDecode(key), PercentDecode(value))
  }

  function ParsePieces(pieces: seq<Text>): seq<Pair> {
    if pieces == [] then []
    else if pieces[0] == [] then ParsePieces(pieces[1..])
    else [ParsePair(pieces[0])] + ParsePieces(pieces[1..])
  }

  function ParseQuery(query: Text): seq<Pair> { ParsePieces(Split(query, AMPERSAND)) }

  function PrintPair(p: Pair): Text { p.0 + [EQUALS] + UrlEncode(p.1) }

  function PrintPairs(pairs: seq<Pair>): seq<Text> {
    if pairs == [] then [] else [PrintPair(pairs[0])] + PrintPairs(pairs[1..])
  }

  function PrintQuery(pairs: seq<Pair>): Text { Join(PrintPairs(pairs), AMPERSAND) }

  // ----------------------------------------------- the query's round trip

  lemma {:induction false} SplitPlain(t: Text, separator: Byte)
    requires separator !in t
    ensures Split(t, separator) == [t]
  {
    if t != [] {
      SplitPlain(t[1..], separator);
      assert [t[0]] + t[1..] == t;
    }
  }

  lemma {:induction false} SplitAfterPiece(piece: Text, rest: Text, separator: Byte)
    requires separator !in piece
    ensures Split(piece + [separator] + rest, separator) == [piece] + Split(rest, separator)
  {
    var t := piece + [separator] + rest;
    if piece == [] {
      assert t[1..] == rest;
    } else {
      assert t[1..] == piece[1..] + [separator] + rest;
      SplitAfterPiece(piece[1..], rest, separator);
      assert [piece[0]] + piece[1..] == piece;
    }
  }

  lemma {:induction false} SplitUndoesJoin(pieces: seq<Text>, separator: Byte)
    requires pieces != [] && forall i :: 0 <= i < |pieces| ==> separator !in pieces[i]
    ensures Split(Join(pieces, separator), separator) == pieces
  {
    if |pieces| == 1 {
      SplitPlain(pieces[0], separator);
    } else {
      SplitUndoesJoin(pieces[1..], separator);
      SplitAfterPiece(pieces[0], Join(pieces[1..], separator), separator);
    }
  }

  lemma {:induction false} SplitOnceAfter(before: Text, after: Text, separator: Byte)
    requires separator !in before
    ensures SplitOnce(before + [separator] + after, separator) == (before, after)
  {
    var t := before + [separator] + after;
    if before == [] {
      assert t[1..] == after;
    } else {
      assert t[1..] == before[1..] + [separator] + after;
      SplitOnceAfter(before[1..], after, separator);
      assert [before[0]] + before[1..] == before;
    }
  }

  /** A key that survives: no separator of the query in it, and nothing that decoding would change. */
  predicate PlainKey(key: Text) { AMPERSAND !in key && EQUALS !in key && PercentDecode(key) == key }

  lemma PairRoundTrip(p: Pair)
    requires EQUALS !in p.0 && ValidUtf8(p.1)
    ensures ParsePair(PrintPair(p)) == (PercentDecode(p.0), p.1)
  {
    SplitOnceAfter(p.0, UrlEncode(p.1), EQUALS);
    DecodeUndoesEncode(p.1);
  }

  lemma {:induction false} PairsRoundTrip(pairs: seq<Pair>)
    requires forall i :: 0 <= i < |pairs| ==> PlainKey(pairs[i].0) && ValidUtf8(pairs[i].1)
    ensures ParsePieces(PrintPairs(pairs)) == pairs
    ensures |PrintPairs(pairs)| == |pairs|
    ensures forall i :: 0 <= i < |pairs| ==> AMPERSAND !in PrintPairs(pairs)[i]
  {
    hide UrlEncode, ParsePair, PercentDecode, ValidUtf8;
    if pairs != [] {
      assert PlainKey(pairs[0].0) && ValidUtf8(pairs[0].1);
      PairRoundTrip(pairs[0]);
      EncodedHasNoSeparator(pairs[0].1, AMPERSAND);
      PairsRoundTrip(pairs[1..]);
    }
  }

  /** Parsing a printed query gives back every pair, in order, for any number of pairs and any string values. */
  lemma QueryRoundTrip(pairs: seq<Pair>)
    requires forall i :: 0 <= i < |pairs| ==> PlainKey(pairs[i].0) && ValidUtf8(pairs[i].1)
    ensures ParseQuery(PrintQuery(pairs)) == pairs
  {
    PairsRoundTrip(pairs);
    if pairs == [] {
      assert Split([], AMPERSAND) == [[]];
      assert ParsePieces([[]]) == ParsePieces([[]][1..]);
    } else {
      SplitUndoesJoin(PrintPairs(pairs), AMPERSAND);
    }
  }

  /** In particular every key without separators and percent signs survives. */
  lemma KeysWithoutPercentArePlain(key: Text)
    requires AMPERSAND !in key && EQUALS !in key && PERCENT !in key
    ensures PlainKey(key)
  {
    UnchangedIff(key);
  }

  // ------------------------------------------------------ no more than that

  lemma {:induction false} KeyLengths(key: Text, tail: Text)
    requires tail != [] && tail[0] == EQUALS && AMPERSAND !in tail
    ensures forall piece :: piece in Split(key + tail, AMPERSAND) ==>
              && |SplitOnce(piece, EQUALS).0| <= |key|
              && (AMPERSAND in key || EQUALS in key ==> |SplitOnce(piece, EQUALS).0| < |key|)
  {
    if key == [] {
      assert key + tail == tail;
      SplitPlain(tail, AMPERSAND);
    } else {
      assert (key + tail)[1..] == key[1..] + tail;
      KeyLengths(key[1..], tail);
      var rest := Split(key[1..] + tail, AMPERSAND);
      var pieces := Split(key + tail, AMPERSAND);
      forall piece | piece in pieces
        ensures |SplitOnce(piece, EQUALS).0| <= |key|
        ensures AMPERSAND in key || EQUALS in key ==> |SplitOnce(piece, EQUALS).0| < |key|
      {
        if piece !in rest && piece != [] {
          assert key[0] != AMPERSAND && piece == [key[0]] + rest[0] && piece[1..] == rest[0];
          assert rest[0] in rest;
        }
      }
    }
  }

  lemma {:induction false} ParsedKeyLengths(pieces: seq<Text>, n: int)
    requires forall piece :: piece in pieces ==> |SplitOnce(piece, EQUALS).0| < n
    ensures forall p :: p in ParsePieces(pieces) ==> |p.0| < n
  {
    if pieces != [] {
      ParsedKeyLengths(pieces[1..], n);
      UnescapeShrinks(SplitOnce(pieces[0], EQUALS).0);
    }
  }

  /** One pair survives printing and parsing exactly when its key is plain. */
  lemma PairSurvivesIff(p: Pair)
    requires ValidUtf8(p.1)
    ensures ParseQuery(PrintQuery([p])) == [p] <==> PlainKey(p.0)
  {
    var tail := [EQUALS] + UrlEncode(p.1);
    EncodedHasNoSeparator(p.1, AMPERSAND);
    assert PrintPairs([p]) == [PrintPair(p)];
    assert PrintQuery([p]) == p.0 + tail;
    if AMPERSAND in p.0 || EQUALS in p.0 {
      KeyLengths(p.0, tail);
      ParsedKeyLengths(Split(p.0 + tail, AMPERSAND), |p.0|);
      assert p in [p];
    } else {
      SplitPlain(p.0 + tail, AMPERSAND);
      PairRoundTrip(p);
      assert ParsePieces([PrintPair(p)]) == [ParsePair(PrintPair(p))] + ParsePieces([PrintPair(p)][1..]);
    }
  }

  // ------------------------------------------------ the authorization query

  /** The bytes of a string of ASCII characters. */
  function Ascii(s: string): (t: Text)
    ensures |t| == |s| && forall i :: 0 <= i < |s| ==> t[i] as int == s[i] as int % 128
  {
    seq(|s|, i requires 0 <= i < |s| => (s[i] as int % 128) as Byte)
  }

  /** The seven parameters of a sign-in request; keys are fixed, values are any strings. */
  function AuthorizationPairs(clientId: Text, redirectUri: Text, scope: Text, state: Text, challenge: Text): seq<Pair> {
    [(Ascii("response_type"), Ascii("code")),
     (Ascii("client_id"), clientId),
     (Ascii("redirect_uri"), redirectUri),
     (Ascii("scope"), scope),
     (Ascii("state"), state),
     (Ascii("code_challenge"), challenge),
     (Ascii("code_challenge_method"), Ascii("S256"))]
  }

  lemma {:induction false} AsciiIsUtf8(t: Text)
    requires forall i :: 0 <= i < |t| ==> t[i] < 0x80
    ensures ValidUtf8(t)
  {
    if t != [] {
      AsciiIsUtf8(t[1..]);
    }
  }

  predicate WordChars(s: string) { forall c :: c in s ==> c == '_' || 'a' <= c <= 'z' }

  lemma WordKeysArePlain(s: string)
    requires WordChars(s)
    ensures PlainKey(Ascii(s))
  {
    var key := Ascii(s);
    forall i | 0 <= i < |key| ensures key[i] != AMPERSAND && key[i] != EQUALS && key[i] != PERCENT {
      assert s[i] in s;
    }
    KeysWithoutPercentArePlain(key);
  }

  lemma AuthorizationKeysArePlain()
    ensures PlainKey(Ascii("response_type")) && PlainKey(Ascii("client_id")) && PlainKey(Ascii("redirect_uri"))
    ensures PlainKey(Ascii("scope")) && PlainKey(Ascii("state"))
    ensures PlainKey(Ascii("code_challenge")) && PlainKey(Ascii("code_challenge_method"))
  {
    hide PlainKey, Ascii;
    WordKeysArePlain("response_type");
    WordKeysArePlain("client_id");
    WordKeysArePlain("redirect_uri");
    WordKeysArePlain("scope");
    WordKeysArePlain("state");
    WordKeysArePlain("code_challenge");
    WordKeysArePlain("code_challenge_method");
  }

  /** The service's parser finds in the sign-in query exactly the parameters that went in. */
  lemma AuthorizationQueryParsesBack(clientId: Text, redirectUri: Text, scope: Text, state: Text, challenge: Text)
    requires ValidUtf8(clientId) && ValidUtf8(redirectUri) && ValidUtf8(scope) && ValidUtf8(state) && ValidUtf8(challenge)
    ensures ParseQuery(PrintQuery(AuthorizationPairs(clientId, redirectUri, scope, state, challenge))) ==
            [(Ascii("response_type"), Ascii("code")), (Ascii("client_id"), clientId), (Ascii("redirect_uri"), redirectUri),
             (Ascii("scope"), scope), (Ascii("state"), state), (Ascii("code_challenge"), challenge),
             (Ascii("code_challenge_method"), Ascii("S256"))]
  {
    hide PlainKey, ValidUtf8, Ascii, ParseQuery, PrintQuery;
    AuthorizationKeysArePlain();
    AsciiIsUtf8(Ascii("code"));
    AsciiIsUtf8(Ascii("S256"));
    QueryRoundTrip(AuthorizationPairs(clientId, redirectUri, scope, state, challenge));
  }
}
