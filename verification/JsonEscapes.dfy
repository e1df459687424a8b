/** The writer's escaping of characters, and what its escapes decode to. */
module JsonEscapes {
  import opened Options
  import opened JsonBytes
  import opened JsonStrings

  type Scalar = c: bv32 | IsScalar(c)

  type Text = seq<Scalar>

  // ----- encodings -----

  function ByteOf(x: bv32): bv8
    requires x < 0x100
  {
    x as bv8
  }

  /** The UTF-8 encoding of a character. */
  function Utf8(c: bv32): Bytes {
    if c < 0x80 then [ByteOf(c)]
    else if c < 0x800 then [ByteOf(0xC0 | ((c >> 6) & 0x1F)), Continuation(c)]
    else if c < 0x10000 then [ByteOf(0xE0 | ((c >> 12) & 0x0F)), Continuation(c >> 6), Continuation(c)]
    else [ByteOf(0xF0 | ((c >> 18) & 0x07)), Continuation(c >> 12), Continuation(c >> 6), Continuation(c)]
  }

  function Continuation(x: bv32): bv8 {
    ByteOf(0x80 | (x & 0x3F))
  }

  function Utf8All(t: Text): Bytes {
    if t == [] then [] else Utf8(t[0]) + Utf8All(t[1..])
  }

  function LowUnit(x: bv32): bv16
    requires x < 0x10000
  {
    x as bv16
  }

  /** The first of the two UTF-16 code units of a character outside the basic plane, and the second. */
  function HighSurrogate(c: bv32): bv16
    requires 0x10000 <= c < 0x110000
  {
    LowUnit(0xD800 | ((c - 0x10000) >> 10))
  }

  function LowSurrogate(c: bv32): bv16
    requires 0x10000 <= c < 0x110000
  {
    LowUnit(0xDC00 | ((c - 0x10000) & 0x3FF))
  }

  /** An upper-case hexadecimal digit. */
  function HexChar(d: bv16): bv8
    requires d < 16
  {
    if d < 10 then 0x30 + d as bv8 else 0x37 + d as bv8
  }

  /** The `k`-th of a code unit's four hexadecimal digits. */
  function Nibble(u: bv16, k: nat): (d: bv16)
    requires k < 4
    ensures d < 16
  {
    (if k == 0 then u >> 12 else if k == 1 then u >> 8 else if k == 2 then u >> 4 else u) & 0xF
  }

  function HexChars(u: bv16): (cs: Bytes)
    ensures |cs| == 4
  {
    [HexChar(Nibble(u, 0)), HexChar(Nibble(u, 1)), HexChar(Nibble(u, 2)), HexChar(Nibble(u, 3))]
  }

  function UnicodeEscape(u: bv16): Bytes {
    [BACKSLASH, LETTER_U] + HexChars(u)
  }

  function UnicodeEscapes(c: Scalar): Bytes {
    assert IsScalar(c);
    if c < 0x10000 then UnicodeEscape(LowUnit(c)) else UnicodeEscape(HighSurrogate(c)) + UnicodeEscape(LowSurrogate(c))
  }

  /** The character that names `c` in a two-character escape. */
  function ShortEscape(c: bv32): Option<bv8> {
    if c == 0x22 then Some(QUOTE)
    else if c == 0x5C then Some(BACKSLASH)
    else if c == 0x2F then Some(SOLIDUS)
    else if c == 0x08 then Some(0x62)
    else if c == 0x0C then Some(0x66)
    else if c == 0x0A then Some(0x6E)
    else if c == 0x0D then Some(0x72)
    else if c == 0x09 then Some(0x74)
    else None
  }

  predicate IsControl(c: bv32) {
    c <= 0x1F || 0x7F <= c <= 0x9F
  }

  /** A character as it is written, given whether the output's encoding has it. */
  function Encoded(c: Scalar, encodable: bool): Bytes {
    if ShortEscape(c).Some? then [BACKSLASH, ShortEscape(c).value]
    else if IsControl(c) || !encodable then UnicodeEscapes(c)
    else Utf8(c)
  }

  // ----- what is decoded -----

  /** The bytes of a decoded string; none if a surrogate is lone. */
  function TextOf(items: seq<Item>): Option<Bytes> {
    if items == [] then Some([])
    else
      var rest := TextOf(items[1..]);
      if rest.None? then None
      else
        match items[0]
        case Byte(b) => Some([b] + rest.value)
        case Value(Char(c)) => Some(Utf8(c) + rest.value)
        case Value(LoneSurrogate(_)) => None
  }

  /** A string whose inside decodes to the text. */
  ghost predicate Means(raw: Bytes, t: Text) {
    IsBody(raw) && TextOf(Items(Segments(raw))) == Some(Utf8All(t))
  }

  /** The same, for the code units the string names. */
  ghost predicate Says(raw: Bytes, text: Bytes) {
    IsBody(raw) && TextOf(Decode(Units(raw))) == Some(text)
  }

  lemma SaysMeans(raw: Bytes, t: Text)
    requires Says(raw, Utf8All(t))
    ensures Means(raw, t)
  {
    SegmentsDecode(raw);
  }

  // ----- characters written as themselves -----

  lemma Utf8IsPlain(c: bv32)
    requires ShortEscape(c).None? && !IsControl(c)
    ensures forall i :: 0 <= i < |Utf8(c)| ==> !Special(Utf8(c)[i])
  {
  }

  lemma SaysByte(b: bv8, raw: Bytes, text: Bytes)
    requires !Special(b) && Says(raw, text)
    ensures Says([b] + raw, [b] + text)
  {
    hide IsBody, Units, Decode;
    assert ([b] + raw)[1..] == raw;
    PlainByte([b] + raw);
    BodyByte(b, raw);
    assert ([Byte(b)] + Decode(Units(raw)))[1..] == Decode(Units(raw));
  }

  lemma BodyByte(b: bv8, raw: Bytes)
    requires !Special(b) && IsBody(raw)
    ensures IsBody([b] + raw)
  {
    assert ([b] + raw)[1..] == raw;
  }

  lemma {:induction false} SaysPlain(plain: Bytes, raw: Bytes, text: Bytes)
    requires Says(raw, text) && forall i :: 0 <= i < |plain| ==> !Special(plain[i])
    ensures Says(plain + raw, plain + text)
    decreases |plain|
  {
    hide Says, Special;
    if plain == [] {
      assert plain + raw == raw && plain + text == text;
    } else {
      SaysPlain(plain[1..], raw, text);
      SaysByte(plain[0], plain[1..] + raw, plain[1..] + text);
      assert plain + raw == [plain[0]] + (plain[1..] + raw);
      assert plain + text == [plain[0]] + (plain[1..] + text);
    }
  }

  // ----- escapes -----

  lemma HexCharIs(d: bv16)
    requires d < 16
    ensures HexDigit(HexChar(d)) == Some(d)
  {
  }

  lemma HexCharsName(u: bv16)
    ensures Hex4(HexChars(u)) == Some(u)
  {
    hide HexDigit, HexChar, Nibble;
    HexCharIs(Nibble(u, 0));
    HexCharIs(Nibble(u, 1));
    HexCharIs(Nibble(u, 2));
    HexCharIs(Nibble(u, 3));
    Nibbles(u);
  }

  lemma Nibbles(u: bv16)
    ensures (Nibble(u, 0) << 12) | (Nibble(u, 1) << 8) | (Nibble(u, 2) << 4) | Nibble(u, 3) == u
  {
  }

  /** A unicode escape is an escape that names its code unit. */
  lemma UnicodeEscapeNames(u: bv16, raw: Bytes)
    ensures EscapeUnit(UnicodeEscape(u) + raw) == (6, u) && (UnicodeEscape(u) + raw)[6..] == raw
  {
    hide Hex4, HexChars, SimpleEscape;
    var s := UnicodeEscape(u) + raw;
    HexCharsName(u);
    SimpleIsNotU();
    assert s[2..6] == HexChars(u);
  }

  lemma ShortEscapeNames(c: bv32, raw: Bytes)
    requires ShortEscape(c).Some?
    ensures var s := [BACKSLASH, ShortEscape(c).value] + raw;
            EscapeUnit(s) == (2, LowUnit(c)) && s[2..] == raw && !IsHigh(LowUnit(c)) && !IsLow(LowUnit(c))
  {
  }

  lemma UnitIsChar(c: bv32)
    requires c < 0x10000 && IsScalar(c)
    ensures !IsHigh(LowUnit(c)) && !IsLow(LowUnit(c)) && OneUnit(LowUnit(c)) == Char(c)
  {
  }

  lemma ShortIsSmall(c: bv32)
    requires ShortEscape(c).Some?
    ensures c < 0x10000
  {
  }

  lemma UnitBack(x: bv32)
    requires x < 0x10000
    ensures LowUnit(x) as bv32 == x && (0xD800 <= x <= 0xDBFF ==> IsHigh(LowUnit(x))) && (0xDC00 <= x <= 0xDFFF ==> IsLow(LowUnit(x)))
  {
  }

  lemma PairSums(c: bv32)
    requires 0x10000 <= c < 0x110000
    ensures 0xD800 <= 0xD800 | ((c - 0x10000) >> 10) <= 0xDBFF && 0xDC00 <= 0xDC00 | ((c - 0x10000) & 0x3FF) <= 0xDFFF
    ensures 0x10000 + (((0xD800 | ((c - 0x10000) >> 10)) - 0xD800) << 10) + ((0xDC00 | ((c - 0x10000) & 0x3FF)) - 0xDC00) == c
  {
  }

  /** Two code units, as numbers, that stand for the character. */
  predicate AreHalves(x: bv32, y: bv32, c: bv32) {
    0xD800 <= x <= 0xDBFF && 0xDC00 <= y <= 0xDFFF && 0x10000 + ((x - 0xD800) << 10) + (y - 0xDC00) == c
  }

  lemma Halves(c: bv32) returns (x: bv32, y: bv32)
    requires 0x10000 <= c < 0x110000
    ensures AreHalves(x, y, c) && x < 0x10000 && y < 0x10000 && HighSurrogate(c) == LowUnit(x) && LowSurrogate(c) == LowUnit(y)
  {
    hide LowUnit;
    x, y := 0xD800 | ((c - 0x10000) >> 10), 0xDC00 | ((c - 0x10000) & 0x3FF);
    PairSums(c);
  }

  lemma HalvesPair(x: bv32, y: bv32, c: bv32)
    requires AreHalves(x, y, c) && x < 0x10000 && y < 0x10000
    ensures IsHigh(LowUnit(x)) && IsLow(LowUnit(y)) && Paired(LowUnit(x), LowUnit(y)) == c
  {
    hide LowUnit, IsHigh, IsLow;
    UnitBack(x);
    UnitBack(y);
  }

  lemma SurrogatesPair(c: bv32)
    requires 0x10000 <= c < 0x110000
    ensures IsHigh(HighSurrogate(c)) && IsLow(LowSurrogate(c)) && Paired(HighSurrogate(c), LowSurrogate(c)) == c
  {
    hide LowUnit, IsHigh, IsLow, Paired, HighSurrogate, LowSurrogate, AreHalves;
    var x, y := Halves(c);
    HalvesPair(x, y, c);
  }

  /** An escape of a character of the basic plane, before a string. */
  lemma SaysUnit(escape: Bytes, n: nat, c: bv32, raw: Bytes, text: Bytes)
    requires c < 0x10000 && IsScalar(c) && n > 0 && |escape| == n && escape[0] == BACKSLASH
    requires EscapeUnit(escape + raw) == (n, LowUnit(c)) && (escape + raw)[n..] == raw && Says(raw, text)
    ensures Says(escape + raw, Utf8(c) + text)
  {
    hide EscapeUnit, Decode, Utf8, LowUnit, IsHigh, IsLow, OneUnit;
    UnitIsChar(c);
    DecodeLone(LowUnit(c), Units(raw));
    var items := Decode(Units(raw));
    assert ([Value(Char(c))] + items)[1..] == items;
  }

  lemma SaysPair(c: bv32, raw: Bytes, text: Bytes)
    requires 0x10000 <= c < 0x110000 && Says(raw, text)
    ensures Says(UnicodeEscape(HighSurrogate(c)) + (UnicodeEscape(LowSurrogate(c)) + raw), Utf8(c) + text)
  {
    hide EscapeUnit, Decode, Utf8, HighSurrogate, LowSurrogate, IsHigh, IsLow, Paired, HexChars;
    var high, low := HighSurrogate(c), LowSurrogate(c);
    var rest := UnicodeEscape(low) + raw;
    SurrogatesPair(c);
    UnicodeEscapeNames(high, rest);
    UnicodeEscapeNames(low, raw);
    EscapedBody(rest);
    EscapedBody(UnicodeEscape(high) + rest);
    DecodePair(high, low, Units(raw));
    var items := Decode(Units(raw));
    assert ([Value(Char(c))] + items)[1..] == items;
  }

  lemma EscapedBody(s: Bytes)
    requires s != [] && s[0] == BACKSLASH && EscapeLength(s) > 0 && IsBody(s[EscapeLength(s)..])
    ensures IsBody(s) && Units(s) == [Code(EscapeUnit(s).1)] + Units(s[EscapeLength(s)..])
  {
    hide EscapeUnit;
  }

  /** A character written before a string is that character before its text. */
  lemma SaysEscaped(c: Scalar, encodable: bool, raw: Bytes, text: Bytes)
    requires Says(raw, text)
    ensures Says(Encoded(c, encodable) + raw, Utf8(c) + text)
  {
    hide Says, Utf8, ShortEscape, IsControl, UnicodeEscape, LowUnit, HighSurrogate, LowSurrogate, EscapeUnit;
    if ShortEscape(c).Some? {
      ShortIsSmall(c);
      ShortEscapeNames(c, raw);
      SaysUnit([BACKSLASH, ShortEscape(c).value], 2, c, raw, text);
    } else if IsControl(c) || !encodable {
      assert IsScalar(c);
      if c < 0x10000 {
        UnicodeEscapeNames(LowUnit(c), raw);
        UnicodeEscapeBegins(LowUnit(c));
        SaysUnit(UnicodeEscape(LowUnit(c)), 6, c, raw, text);
      } else {
        SaysPair(c, raw, text);
        var high, low := UnicodeEscape(HighSurrogate(c)), UnicodeEscape(LowSurrogate(c));
        assert (high + low) + raw == high + (low + raw);
      }
    } else {
      Utf8IsPlain(c);
      SaysPlain(Utf8(c), raw, text);
    }
  }

  lemma UnicodeEscapeBegins(u: bv16)
    ensures |UnicodeEscape(u)| == 6 && UnicodeEscape(u)[0] == BACKSLASH
  {
  }

  // ----- whole strings -----

  /** A character of a string, and whether the output's encoding had it when it was written. */
  datatype Glyph = Glyph(c: Scalar, encodable: bool)

  function Spelled(gs: seq<Glyph>): Bytes {
    if gs == [] then [] else Encoded(gs[0].c, gs[0].encodable) + Spelled(gs[1..])
  }

  function Chars(gs: seq<Glyph>): Text {
    if gs == [] then [] else [gs[0].c] + Chars(gs[1..])
  }

  lemma {:induction false} SpelledJoin(a: seq<Glyph>, b: seq<Glyph>)
    ensures Spelled(a + b) == Spelled(a) + Spelled(b) && Chars(a + b) == Chars(a) + Chars(b)
    decreases |a|
  {
    hide Encoded;
    if a == [] {
      assert a + b == b;
    } else {
      assert (a + b)[1..] == a[1..] + b;
      SpelledJoin(a[1..], b);
    }
  }

  lemma {:induction false} SpelledSays(gs: seq<Glyph>)
    ensures Says(Spelled(gs), Utf8All(Chars(gs)))
    decreases |gs|
  {
    hide Encoded, Utf8;
    if gs != [] {
      SpelledSays(gs[1..]);
      SaysEscaped(gs[0].c, gs[0].encodable, Spelled(gs[1..]), Utf8All(Chars(gs[1..])));
      assert Chars(gs)[1..] == Chars(gs[1..]);
    }
  }

  /** What is written for a string decodes to its text, whatever the output's encoding has. */
  lemma SpelledMeans(gs: seq<Glyph>)
    ensures Means(Spelled(gs), Chars(gs))
  {
    SpelledSays(gs);
    SaysMeans(Spelled(gs), Chars(gs));
  }
}
