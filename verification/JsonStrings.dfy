/** The inside of JSON strings, and their lazy decoding. */
module JsonStrings {
  import opened Options
  import opened JsonBytes

  const SOLIDUS: bv8 := 0x2F
  const LETTER_U: bv8 := 0x75

  /** A character as its code point. */
  predicate IsScalar(c: bv32) {
    c < 0xD800 || 0xE000 <= c < 0x110000
  }

  /** The value of an escape: a surrogate that is not part of a pair is not a character. */
  datatype Decoded = Char(c: bv32) | LoneSurrogate(unit: bv16)

  datatype Segment = Literal(text: Bytes) | Escape(decoded: Decoded, source: Bytes)

  // ----- the grammar of RFC 8259 section 7 -----

  /** The character a two-character escape names by its second. */
  function SimpleEscape(b: bv8): Option<bv16> {
    if b == QUOTE then Some(0x22)
    else if b == BACKSLASH then Some(0x5C)
    else if b == SOLIDUS then Some(0x2F)
    else if b == 0x62 then Some(0x08)
    else if b == 0x66 then Some(0x0C)
    else if b == 0x6E then Some(0x0A)
    else if b == 0x72 then Some(0x0D)
    else if b == 0x74 then Some(0x09)
    else None
  }

  function HexDigit(b: bv8): Option<bv16> {
    if 0x30 <= b <= 0x39 then Some((b - 0x30) as bv16)
    else if 0x41 <= b <= 0x46 then Some((b - 0x37) as bv16)
    else if 0x61 <= b <= 0x66 then Some((b - 0x57) as bv16)
    else None
  }

  /** Four hexadecimal digits, either case, as a code unit. */
  function Hex4(s: Bytes): Option<bv16> {
    if |s| != 4 then None else
      match (HexDigit(s[0]), HexDigit(s[1]), HexDigit(s[2]), HexDigit(s[3]))
      case (Some(a), Some(b), Some(c), Some(d)) => Some((a << 12) | (b << 8) | (c << 4) | d)
      case _ => None
  }

  /** The length of the escape a string begins with, or 0, and the code unit it names. */
  function EscapeUnit(s: Bytes): (nat, bv16) {
    if |s| < 2 || s[0] != BACKSLASH then (0, 0)
    else if SimpleEscape(s[1]).Some? then (2, SimpleEscape(s[1]).value)
    else if s[1] == LETTER_U && |s| >= 6 && Hex4(s[2..6]).Some? then (6, Hex4(s[2..6]).value)
    else (0, 0)
  }

  function EscapeLength(s: Bytes): (n: nat)
    ensures n <= |s| && (n > 0 ==> s[0] == BACKSLASH)
  {
    EscapeUnit(s).0
  }

  /** Unescaped bytes and escapes. */
  predicate IsBody(s: Bytes) {
    if s == [] then true
    else if s[0] == BACKSLASH then EscapeLength(s) > 0 && IsBody(s[EscapeLength(s)..])
    else !Special(s[0]) && IsBody(s[1..])
  }

  // ----- the code units a string names, and UTF-16 -----

  /** A byte that is its own value, or the code unit an escape names. */
  datatype Unit = Raw(b: bv8) | Code(u: bv16)

  function Units(s: Bytes): seq<Unit> {
    if s == [] then []
    else if EscapeLength(s) > 0 then [Code(EscapeUnit(s).1)] + Units(s[EscapeLength(s)..])
    else [Raw(s[0])] + Units(s[1..])
  }

  predicate IsHigh(u: bv16) {
    0xD800 <= u <= 0xDBFF
  }

  predicate IsLow(u: bv16) {
    0xDC00 <= u <= 0xDFFF
  }

  function Paired(high: bv16, low: bv16): bv32 {
    0x10000 + (((high as bv32) - 0xD800) << 10) + ((low as bv32) - 0xDC00)
  }

  function OneUnit(u: bv16): Decoded {
    Char(u as bv32)
  }

  /** A unit that is not part of a pair. */
  function Alone(u: bv16): Decoded {
    if IsHigh(u) || IsLow(u) then LoneSurrogate(u) else OneUnit(u)
  }

  datatype Item = Byte(b: bv8) | Value(d: Decoded)

  /** Decoding UTF-16: a high unit and a low one right after it are a character; any other surrogate is lone. */
  function Decode(us: seq<Unit>): seq<Item> {
    if us == [] then []
    else
      match us[0]
      case Raw(b) => [Byte(b)] + Decode(us[1..])
      case Code(u) =>
        if IsHigh(u) && |us| > 1 && us[1].Code? && IsLow(us[1].u) then
          [Value(Char(Paired(u, us[1].u)))] + Decode(us[2..])
        else
          [Value(Alone(u))] + Decode(us[1..])
  }

  // ----- segments -----

  /** The code unit of exactly a low surrogate's escape. */
  function LowSurrogateEscape(s: Bytes): Option<bv16> {
    if |s| == 6 && s[0] == BACKSLASH && s[1] == LETTER_U && Hex4(s[2..]).Some? && IsLow(Hex4(s[2..]).value) then
      Hex4(s[2..])
    else None
  }

  /** A high surrogate pairs with a low one's escape right after it. */
  function UnicodeEscapeAt(s: Bytes): Option<(Decoded, nat)> {
    if |s| < 6 || Hex4(s[2..6]).None? then None else
      var unit := Hex4(s[2..6]).value;
      if IsHigh(unit) then
        if |s| >= 12 && LowSurrogateEscape(s[6..12]).Some? then
          Some((Char(Paired(unit, LowSurrogateEscape(s[6..12]).value)), 12))
        else Some((LoneSurrogate(unit), 6))
      else if IsLow(unit) then Some((LoneSurrogate(unit), 6))
      else Some((OneUnit(unit), 6))
  }

  function EscapeAt(s: Bytes): Option<(Decoded, nat)> {
    if |s| < 2 || s[0] != BACKSLASH then None
    else if SimpleEscape(s[1]).Some? then Some((OneUnit(SimpleEscape(s[1]).value), 2))
    else if s[1] == LETTER_U then UnicodeEscapeAt(s)
    else None
  }

  /** Where the first backslash is. */
  function LiteralEnd(s: Bytes): (end: nat)
    ensures end <= |s| && (end < |s| ==> s[end] == BACKSLASH)
    ensures forall i :: 0 <= i < end ==> s[i] != BACKSLASH
  {
    if s == [] || s[0] == BACKSLASH then 0 else 1 + LiteralEnd(s[1..])
  }

  /** The string's segments in order, up to an escape that is not one. */
  function Segments(s: Bytes): seq<Segment> {
    if s == [] then []
    else if s[0] == BACKSLASH then
      var escape := EscapeAt(s);
      if escape.None? then [] else
        var n := escape.value.1;
        [Escape(escape.value.0, s[..n])] + Segments(s[n..])
    else
      var n := LiteralEnd(s);
      [Literal(s[..n])] + Segments(s[n..])
  }

  /** The iterator over a string's segments. */
  class SegmentIterator {
    var rest: Bytes

    constructor (raw: Bytes)
      ensures rest == raw
    {
      rest := raw;
    }

    /** The first of the segments of the rest, which then are the others; none, and fused, if there is no more. */
    method Next() returns (segment: Option<Segment>)
      modifies this
      ensures segment.None? ==> old(Segments(rest)) == [] && rest == []
      ensures segment.Some? ==> old(Segments(rest)) == [segment.value] + Segments(rest)
    {
      if rest == [] {
        return None;
      }
      if rest[0] == BACKSLASH {
        var escape := EscapeAt(rest);
        if escape.None? {
          rest := [];
          return None;
        }
        var n := escape.value.1;
        segment := Some(Escape(escape.value.0, rest[..n]));
        rest := rest[n..];
      } else {
        var n := 0;
        while n < |rest| && rest[n] != BACKSLASH
          invariant n <= |rest| && LiteralEnd(rest) == n + LiteralEnd(rest[n..])
        {
          assert rest[n..][1..] == rest[n + 1..];
          n := n + 1;
        }
        segment := Some(Literal(rest[..n]));
        rest := rest[n..];
      }
    }
  }

  function Source(segments: seq<Segment>): Bytes {
    if segments == [] then [] else
      (match segments[0] case Literal(text) => text case Escape(_, source) => source) + Source(segments[1..])
  }

  function RawItems(text: Bytes): seq<Item> {
    if text == [] then [] else [Byte(text[0])] + RawItems(text[1..])
  }

  function Items(segments: seq<Segment>): seq<Item> {
    if segments == [] then [] else
      (match segments[0] case Literal(text) => RawItems(text) case Escape(d, _) => [Value(d)]) + Items(segments[1..])
  }

  // ----- the segments are the string, decoded -----

  lemma PlainByte(s: Bytes)
    requires s != [] && s[0] != BACKSLASH
    ensures Units(s) == [Raw(s[0])] + Units(s[1..]) && Decode(Units(s)) == [Byte(s[0])] + Decode(Units(s[1..]))
    ensures IsBody(s) ==> IsBody(s[1..])
  {
    hide EscapeUnit, Special;
    assert EscapeLength(s) == 0;
    assert Units(s)[1..] == Units(s[1..]);
  }

  /** What remains of a string after its first literal run. */
  lemma {:induction false} LiteralRun(s: Bytes, n: nat)
    requires n <= |s| && IsBody(s) && forall i :: 0 <= i < n ==> s[i] != BACKSLASH
    ensures IsBody(s[n..]) && Decode(Units(s)) == RawItems(s[..n]) + Decode(Units(s[n..]))
    decreases n
  {
    hide IsBody, Units, Decode;
    if n == 0 {
      assert s[0..] == s && s[..0] == [];
    } else {
      PlainByte(s);
      LiteralRun(s[1..], n - 1);
      assert s[1..][n - 1..] == s[n..] && s[..n] == [s[0]] + s[1..][..n - 1];
    }
  }

  /** The code unit of an escape comes first. */
  lemma EscapeFirst(s: Bytes)
    requires s != [] && s[0] == BACKSLASH && IsBody(s)
    ensures var k := EscapeLength(s);
            (k == 2 || k == 6) && IsBody(s[k..]) && Units(s) == [Code(EscapeUnit(s).1)] + Units(s[k..])
  {
    hide SimpleEscape, Hex4, Special;
  }

  lemma DecodePair(high: bv16, low: bv16, us: seq<Unit>)
    requires IsHigh(high) && IsLow(low)
    ensures Decode([Code(high)] + ([Code(low)] + us)) == [Value(Char(Paired(high, low)))] + Decode(us)
  {
    var all := [Code(high)] + ([Code(low)] + us);
    assert all[2..] == us;
  }

  lemma DecodeLone(u: bv16, us: seq<Unit>)
    requires IsHigh(u) ==> us == [] || us[0].Raw? || !IsLow(us[0].u)
    ensures Decode([Code(u)] + us) == [Value(Alone(u))] + Decode(us)
  {
    var all := [Code(u)] + us;
    assert all[1..] == us;
  }

  /** The code unit of a two-character escape or of the other kind. */
  lemma EscapeKinds(s: Bytes)
    requires s != [] && s[0] == BACKSLASH && EscapeLength(s) > 0
    ensures |s| >= 2 && (EscapeLength(s) == 2 <==> SimpleEscape(s[1]).Some?)
    ensures EscapeLength(s) == 2 ==> EscapeUnit(s).1 == SimpleEscape(s[1]).value
    ensures EscapeLength(s) != 2 ==> s[1] == LETTER_U && |s| >= 6 && Hex4(s[2..6]) == Some(EscapeUnit(s).1)
  {
    hide SimpleEscape, Hex4;
  }

  lemma SimpleRun(s: Bytes)
    requires s != [] && s[0] == BACKSLASH && IsBody(s) && EscapeLength(s) == 2
    ensures EscapeAt(s).Some? && EscapeAt(s).value.1 == 2
    ensures IsBody(s[2..]) && Decode(Units(s)) == [Value(EscapeAt(s).value.0)] + Decode(Units(s[2..]))
  {
    hide SimpleEscape, Hex4, Units, Decode, IsBody, Special, EscapeUnit, IsHigh, IsLow, OneUnit;
    EscapeFirst(s);
    EscapeKinds(s);
    SimpleIsNoSurrogate(s[1]);
    DecodeLone(EscapeUnit(s).1, Units(s[2..]));
  }

  lemma PairRun(s: Bytes)
    requires s != [] && s[0] == BACKSLASH && IsBody(s) && EscapeLength(s) == 6
    requires IsHigh(EscapeUnit(s).1) && |s| >= 12 && LowSurrogateEscape(s[6..12]).Some?
    ensures UnicodeEscapeAt(s) == Some((Char(Paired(EscapeUnit(s).1, LowSurrogateEscape(s[6..12]).value)), 12))
    ensures IsBody(s[12..]) && Decode(Units(s)) == [Value(UnicodeEscapeAt(s).value.0)] + Decode(Units(s[12..]))
  {
    hide SimpleEscape, Hex4, Units, Decode, IsBody, Special, EscapeUnit, IsHigh, IsLow, Paired;
    var rest := s[6..];
    EscapeFirst(s);
    EscapeKinds(s);
    LowFollows(s);
    EscapeFirst(rest);
    assert rest[6..] == s[12..];
    DecodePair(EscapeUnit(s).1, EscapeUnit(rest).1, Units(rest[6..]));
  }

  /** The escape of a low surrogate, after another escape. */
  lemma LowFollows(s: Bytes)
    requires |s| >= 12 && LowSurrogateEscape(s[6..12]).Some?
    ensures var rest := s[6..]; rest[0] == BACKSLASH && EscapeLength(rest) == 6 && Some(EscapeUnit(rest).1) == LowSurrogateEscape(s[6..12])
    ensures IsLow(LowSurrogateEscape(s[6..12]).value)
  {
    hide Hex4, IsLow;
    var rest := s[6..];
    assert s[6..12] == rest[..6] && s[6..12][2..] == rest[2..6];
    SimpleIsNotU();
  }

  lemma LoneRun(s: Bytes)
    requires s != [] && s[0] == BACKSLASH && IsBody(s) && EscapeLength(s) == 6
    requires !(IsHigh(EscapeUnit(s).1) && |s| >= 12 && LowSurrogateEscape(s[6..12]).Some?)
    ensures UnicodeEscapeAt(s).Some? && UnicodeEscapeAt(s).value.1 == 6
    ensures IsBody(s[6..]) && Decode(Units(s)) == [Value(UnicodeEscapeAt(s).value.0)] + Decode(Units(s[6..]))
  {
    hide SimpleEscape, Hex4, Units, Decode, IsBody, Special, EscapeUnit, IsHigh, IsLow, Paired, LowSurrogateEscape, OneUnit;
    EscapeFirst(s);
    EscapeKinds(s);
    if IsHigh(EscapeUnit(s).1) {
      NotPaired(s, s[6..]);
    }
    DecodeLone(EscapeUnit(s).1, Units(s[6..]));
  }

  /** An escape, or a pair of them, is one value. */
  lemma EscapeRun(s: Bytes)
    requires s != [] && s[0] == BACKSLASH && IsBody(s)
    ensures EscapeAt(s).Some?
    ensures var (d, n) := EscapeAt(s).value; 0 < n <= |s| && IsBody(s[n..]) && Decode(Units(s)) == [Value(d)] + Decode(Units(s[n..]))
  {
    hide Hex4, SimpleEscape, UnicodeEscapeAt, Units, Decode, Paired, Special, EscapeUnit, IsHigh, IsLow, LowSurrogateEscape;
    EscapeFirst(s);
    EscapeKinds(s);
    if EscapeLength(s) == 2 {
      SimpleRun(s);
    } else if IsHigh(EscapeUnit(s).1) && |s| >= 12 && LowSurrogateEscape(s[6..12]).Some? {
      PairRun(s);
    } else {
      LoneRun(s);
    }
  }

  lemma SimpleIsNoSurrogate(b: bv8)
    ensures SimpleEscape(b).Some? ==> !IsHigh(SimpleEscape(b).value) && !IsLow(SimpleEscape(b).value)
  {
  }

  lemma SimpleIsNotU()
    ensures SimpleEscape(LETTER_U) == None
  {
  }

  /** A high surrogate that is lone has no low one's escape after it. */
  lemma NotPaired(s: Bytes, rest: Bytes)
    requires |s| >= 6 && rest == s[6..] && IsBody(rest)
    requires |s| >= 12 ==> LowSurrogateEscape(s[6..12]).None?
    ensures Units(rest) != [] && Units(rest)[0].Code? ==> !IsLow(Units(rest)[0].u)
  {
    hide Hex4, Decode, Special;
    if rest != [] {
      if rest[0] == BACKSLASH {
        EscapeFirst(rest);
        SimpleIsNoSurrogate(rest[1]);
        if EscapeLength(rest) == 6 {
          assert s[6..12] == rest[..6] && s[6..12][2..] == rest[2..6];
        }
      } else {
        PlainByte(rest);
      }
    }
  }

  /** The sources of a validated string's segments are the string. */
  lemma {:induction false} SegmentsConserve(s: Bytes)
    requires IsBody(s)
    ensures Source(Segments(s)) == s
    decreases |s|
  {
    hide EscapeAt, EscapeLength, Units, Decode;
    if s != [] {
      var n;
      if s[0] == BACKSLASH {
        EscapeRun(s);
        n := EscapeAt(s).value.1;
      } else {
        n := LiteralEnd(s);
        LiteralRun(s, n);
      }
      SegmentsConserve(s[n..]);
      assert s == s[..n] + s[n..];
    }
  }

  /** The values of a validated string's segments are the UTF-16 decoding of the code units it names. */
  lemma {:induction false} SegmentsDecode(s: Bytes)
    requires IsBody(s)
    ensures Items(Segments(s)) == Decode(Units(s))
    decreases |s|
  {
    hide EscapeAt, EscapeLength;
    if s != [] {
      if s[0] == BACKSLASH {
        EscapeRun(s);
        SegmentsDecode(s[EscapeAt(s).value.1..]);
      } else {
        var n := LiteralEnd(s);
        LiteralRun(s, n);
        SegmentsDecode(s[n..]);
      }
    }
  }

  /** A character decoded is a character. */
  lemma PairedIsScalar(high: bv16, low: bv16)
    requires IsHigh(high) && IsLow(low)
    ensures IsScalar(Paired(high, low)) && Paired(high, low) >= 0x10000
  {
  }
}
