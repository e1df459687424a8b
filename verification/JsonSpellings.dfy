/** The characters of JSON's escapes, as RFC 8259 section 7 lists them, and what the writer writes for a character. */
module JsonSpellings {
  import opened Options
  import opened JsonAscii
  import opened JsonBytes
  import opened JsonStrings
  import opened JsonEscapes
  import N = JsonNumbers
  import T = JsonTokenizer

  // ----- digits and letters -----

  const LOWER_DIGITS: Bytes := [0x30, 0x31, 0x32, 0x33, 0x34, 0x35, 0x36, 0x37, 0x38, 0x39, 0x61, 0x62, 0x63, 0x64, 0x65, 0x66]
  const UPPER_DIGITS: Bytes := [0x30, 0x31, 0x32, 0x33, 0x34, 0x35, 0x36, 0x37, 0x38, 0x39, 0x41, 0x42, 0x43, 0x44, 0x45, 0x46]

  /** The value of a hexadecimal digit is its place among the sixteen, in either case; nothing else is one. */
  lemma HexDigitIsItsPlace(b: bv8)
    ensures HexDigit(b).Some? <==> b in LOWER_DIGITS || b in UPPER_DIGITS
    ensures forall v: nat :: v < 16 && (b == LOWER_DIGITS[v] || b == UPPER_DIGITS[v]) ==> HexDigit(b) == Some(v as bv16)
  {
    DigitPlaces();
    if HexDigit(b).Some? {
      if 0x30 <= b <= 0x39 {
        assert b == LOWER_DIGITS[(b - 0x30) as nat];
      } else if 0x41 <= b <= 0x46 {
        assert b == UPPER_DIGITS[(b - 0x37) as nat];
      } else {
        assert b == LOWER_DIGITS[(b - 0x57) as nat];
      }
    }
  }

  lemma DigitPlaces()
    ensures forall v: nat :: v < 16 ==> HexDigit(LOWER_DIGITS[v]) == Some(v as bv16) && HexDigit(UPPER_DIGITS[v]) == Some(v as bv16)
  {
    hide HexDigit;
    forall v: nat | v < 16 ensures HexDigit(LOWER_DIGITS[v]) == Some(v as bv16) && HexDigit(UPPER_DIGITS[v]) == Some(v as bv16) {
      LowerPlace(v);
      UpperPlace(v);
    }
  }

  lemma LowerPlace(v: nat)
    requires v < 16
    ensures HexDigit(LOWER_DIGITS[v]) == Some(v as bv16)
  {
  }

  lemma UpperPlace(v: nat)
    requires v < 16
    ensures HexDigit(UPPER_DIGITS[v]) == Some(v as bv16)
  {
  }

  function BaseSixteen(a: bv16, b: bv16, c: bv16, d: bv16): bv16 {
    a * 4096 + b * 256 + c * 16 + d
  }

  lemma FourBits(a: bv16, b: bv16, c: bv16, d: bv16)
    requires a < 16 && b < 16 && c < 16 && d < 16
    ensures (a << 12) | (b << 8) | (c << 4) | d == BaseSixteen(a, b, c, d)
  {
  }

  lemma SmallDigits(b: bv8)
    ensures HexDigit(b).Some? ==> HexDigit(b).value < 16
  {
  }

  /** Four digits are a number in base sixteen. */
  lemma Hex4IsBaseSixteen(a: bv8, b: bv8, c: bv8, d: bv8)
    ensures Hex4([a, b, c, d]).Some? <==> HexDigit(a).Some? && HexDigit(b).Some? && HexDigit(c).Some? && HexDigit(d).Some?
    ensures Hex4([a, b, c, d]).Some? ==>
              Hex4([a, b, c, d]).value == BaseSixteen(HexDigit(a).value, HexDigit(b).value, HexDigit(c).value, HexDigit(d).value)
  {
    hide HexDigit, BaseSixteen;
    if Hex4([a, b, c, d]).Some? {
      SmallDigits(a);
      SmallDigits(b);
      SmallDigits(c);
      SmallDigits(d);
      FourBits(HexDigit(a).value, HexDigit(b).value, HexDigit(c).value, HexDigit(d).value);
    }
  }

  /** The same digit, in either case. */
  predicate SameDigit(a: bv8, b: bv8) {
    exists v: nat :: v < 16 && (a == LOWER_DIGITS[v] || a == UPPER_DIGITS[v]) && (b == LOWER_DIGITS[v] || b == UPPER_DIGITS[v])
  }

  /** The same string, but for the case of the digits in its escapes. */
  ghost predicate Recased(s: Bytes, t: Bytes)
    decreases |s|
  {
    && |s| == |t|
    && if s == [] then true
       else
         var n := EscapeLength(s);
         if n == 0 then s[0] == t[0] && Recased(s[1..], t[1..])
         else s[..2] == t[..2] && (forall i :: 2 <= i < n ==> SameDigit(s[i], t[i])) && Recased(s[n..], t[n..])
  }

  lemma SameDigitValue(a: bv8, b: bv8)
    requires SameDigit(a, b)
    ensures HexDigit(a) == HexDigit(b)
  {
    hide HexDigit;
    HexDigitIsItsPlace(a);
    HexDigitIsItsPlace(b);
  }

  /** Which case the digits of an escape have makes no difference to what a string names. */
  lemma {:induction false} RecasedNamesAlike(s: Bytes, t: Bytes)
    requires IsBody(s) && Recased(s, t)
    ensures IsBody(t) && Units(t) == Units(s)
    decreases |s|
  {
    hide EscapeUnit, SameDigit;
    if s != [] {
      EscapesAlike(s, t);
      var n := EscapeLength(s);
      RecasedNamesAlike(s[if n == 0 then 1 else n..], t[if n == 0 then 1 else n..]);
    }
  }

  lemma EscapesAlike(s: Bytes, t: Bytes)
    requires s != [] && IsBody(s) && Recased(s, t)
    ensures s[0] == t[0] && EscapeUnit(t) == EscapeUnit(s)
  {
    hide HexDigit, SimpleEscape, SameDigit;
    if EscapeLength(s) > 0 {
      assert s[0] == s[..2][0] && s[1] == s[..2][1] && t[0] == t[..2][0] && t[1] == t[..2][1];
      if EscapeLength(s) == 6 {
        forall i | 2 <= i < 6 ensures HexDigit(s[i]) == HexDigit(t[i]) {
          SameDigitValue(s[i], t[i]);
        }
      }
    }
  }

  // ----- the other characters of the grammar -----

  /** White space, digits, the marks of an exponent and the escapes' letters are those of RFC 8259, sections 2, 6 and 7. */
  lemma CharactersAre(b: bv8)
    ensures T.IsSpace(b) <==> b in Ascii(" \t\n\r")
    ensures N.IsDigit(b) <==> b in Ascii("0123456789")
    ensures N.IsExponentMark(b) <==> b in Ascii("eE")
    ensures SimpleEscape(b).Some? <==> b in Ascii("\"\\/bfnrt")
    ensures Special(b) <==> b in Ascii("\"\\") || b < 0x20
  {
    SpacesAre(b);
    DigitsAre(b);
    EscapesAre(b);
  }

  lemma SpacesAre(b: bv8)
    ensures T.IsSpace(b) <==> b in Ascii(" \t\n\r")
    ensures N.IsExponentMark(b) <==> b in Ascii("eE")
    ensures Special(b) <==> b in Ascii("\"\\") || b < 0x20
  {
    assert Ascii(" \t\n\r") == [0x20, 0x09, 0x0A, 0x0D] && Ascii("eE") == [0x65, 0x45] && Ascii("\"\\") == [0x22, 0x5C];
  }

  lemma DigitsAre(b: bv8)
    ensures N.IsDigit(b) <==> b in Ascii("0123456789")
  {
    assert Ascii("0123456789") == [0x30, 0x31, 0x32, 0x33, 0x34, 0x35, 0x36, 0x37, 0x38, 0x39];
  }

  lemma EscapesAre(b: bv8)
    ensures SimpleEscape(b).Some? <==> b in Ascii("\"\\/bfnrt")
  {
    assert Ascii("\"\\/bfnrt") == [0x22, 0x5C, 0x2F, 0x62, 0x66, 0x6E, 0x72, 0x74];
  }

  /** The byte order mark is the character U+FEFF. */
  lemma MarkIs()
    ensures T.BOM == Utf8(0xFEFF)
  {
  }

  // ----- what is written for a character -----

  /** The characters that have a two-character escape, and their letters. */
  const SHORT_CHARS: seq<bv32> := [0x22, 0x5C, 0x2F, 0x08, 0x0C, 0x0A, 0x0D, 0x09]

  /** Escaped whatever the output's encoding has: these, and all control characters. */
  predicate AlwaysEscaped(c: bv32) {
    c in SHORT_CHARS || c < 0x20 || 0x7F <= c <= 0x9F
  }

  /** `\u` and four digits, the letters among them in upper case. */
  predicate IsUnicodeEscape(s: Bytes) {
    |s| == 6 && s[0] == BACKSLASH && s[1] == 0x75 && forall i :: 2 <= i < 6 ==> s[i] in UPPER_DIGITS
  }

  /** An escape that decodes to the character: two characters long if there is one, or else one or two of six. */
  ghost predicate IsEscapeOf(s: Bytes, c: Scalar) {
    && Means(s, [c])
    && if c in SHORT_CHARS then |s| == 2 && s[0] == BACKSLASH && s[1] < 0x80
       else if c < 0x10000 then IsUnicodeEscape(s)
       else |s| == 12 && IsUnicodeEscape(s[..6]) && IsUnicodeEscape(s[6..])
  }

  /** A character is written as itself, in UTF-8, if and only if it need not be escaped and the output's encoding has it. */
  ghost predicate WrittenFor(s: Bytes, c: Scalar, has: bool) {
    if AlwaysEscaped(c) || !has then IsEscapeOf(s, c) else s == Utf8(c)
  }

  lemma ShortCharsAre(c: bv32)
    ensures ShortEscape(c).Some? <==> c in SHORT_CHARS
    ensures ShortEscape(c).Some? ==> ShortEscape(c).value < 0x80
  {
  }

  lemma UpperDigits(u: bv16)
    ensures IsUnicodeEscape(UnicodeEscape(u))
  {
    hide Nibble;
    var s := UnicodeEscape(u);
    UpperDigit(Nibble(u, 0));
    UpperDigit(Nibble(u, 1));
    UpperDigit(Nibble(u, 2));
    UpperDigit(Nibble(u, 3));
    assert s == [BACKSLASH, LETTER_U, HexChar(Nibble(u, 0)), HexChar(Nibble(u, 1)), HexChar(Nibble(u, 2)), HexChar(Nibble(u, 3))];
  }

  lemma UpperDigit(d: bv16)
    requires d < 16
    ensures HexChar(d) in UPPER_DIGITS
  {
    assert HexChar(d) == UPPER_DIGITS[d as nat];
  }

  lemma OneGlyph(c: Scalar, has: bool)
    ensures Spelled([Glyph(c, has)]) == Encoded(c, has) && Chars([Glyph(c, has)]) == [c]
  {
    hide Encoded;
    assert [Glyph(c, has)][1..] == [];
    assert Encoded(c, has) + [] == Encoded(c, has);
  }

  /** What is written for a character. */
  lemma EncodedIsWrittenFor(c: Scalar, has: bool)
    ensures WrittenFor(Encoded(c, has), c, has)
  {
    hide Means, UnicodeEscape, HighSurrogate, LowSurrogate, LowUnit, Utf8, ShortEscape, IsUnicodeEscape;
    SpelledMeans([Glyph(c, has)]);
    OneGlyph(c, has);
    ShortCharsAre(c);
    assert IsScalar(c);
    if c < 0x10000 {
      UpperDigits(LowUnit(c));
    } else {
      var high, low := UnicodeEscape(HighSurrogate(c)), UnicodeEscape(LowSurrogate(c));
      UpperDigits(HighSurrogate(c));
      UpperDigits(LowSurrogate(c));
      UnicodeEscapeBegins(HighSurrogate(c));
      UnicodeEscapeBegins(LowSurrogate(c));
      assert (high + low)[..6] == high && (high + low)[6..] == low;
    }
  }

  // ----- texts -----

  /** The bytes are what is written for the characters, one after the other, where the encoding has those of `has`. */
  ghost predicate TextWrittenFor(s: Bytes, t: Text, has: Scalar -> bool)
    decreases |t|
  {
    if t == [] then s == []
    else exists k :: 0 <= k <= |s| && WrittenFor(s[..k], t[0], has(t[0])) && TextWrittenFor(s[k..], t[1..], has)
  }

  lemma {:induction false} TextWrittenMore(s: Bytes, t: Text, piece: Bytes, c: Scalar, has: Scalar -> bool)
    requires TextWrittenFor(s, t, has) && WrittenFor(piece, c, has(c))
    ensures TextWrittenFor(s + piece, t + [c], has)
    decreases |t|
  {
    hide WrittenFor;
    var more, all := s + piece, t + [c];
    if t == [] {
      var k := |more|;
      assert more == piece && more[..k] == piece && more[k..] == [] && all[1..] == [];
      assert TextWrittenFor(more[k..], all[1..], has);
    } else {
      var k :| 0 <= k <= |s| && WrittenFor(s[..k], t[0], has(t[0])) && TextWrittenFor(s[k..], t[1..], has);
      TextWrittenMore(s[k..], t[1..], piece, c, has);
      assert more[..k] == s[..k] && more[k..] == s[k..] + piece && all[1..] == t[1..] + [c];
    }
  }

  lemma NothingWritten(has: Scalar -> bool)
    ensures TextWrittenFor([], [], has)
  {
  }
}
