/** The number grammar of RFC 8259 section 6, shared by the tokenizer and the writer. */
module JsonNumbers {
  import opened JsonBytes

  const MINUS: bv8 := 0x2D
  const PLUS: bv8 := 0x2B
  const POINT: bv8 := 0x2E
  const ZERO: bv8 := 0x30

  predicate IsDigit(b: bv8) {
    0x30 <= b <= 0x39
  }

  predicate IsExponentMark(b: bv8) {
    b == 0x65 || b == 0x45
  }

  // ----- the grammar -----

  predicate AllDigits(s: Bytes) {
    forall i :: 0 <= i < |s| ==> IsDigit(s[i])
  }

  predicate IsDigits(s: Bytes) {
    s != [] && AllDigits(s)
  }

  predicate IsInt(s: Bytes) {
    s == [ZERO] || (IsDigits(s) && s[0] != ZERO)
  }

  predicate IsFrac(s: Bytes) {
    s == [] || (s[0] == POINT && IsDigits(s[1..]))
  }

  predicate IsExp(s: Bytes) {
    s == [] || (IsExponentMark(s[0]) && (IsDigits(s[1..]) || (|s| > 1 && (s[1] == PLUS || s[1] == MINUS) && IsDigits(s[2..]))))
  }

  predicate IsSign(s: Bytes) {
    s == [] || s == [MINUS]
  }

  /** A sign, an integer, a fraction and an exponent. */
  ghost predicate IsNumber(s: Bytes) {
    exists m, i, f, x :: IsSign(m) && IsInt(i) && IsFrac(f) && IsExp(x) && s == m + i + f + x
  }

  // ----- the scan -----

  /** Where a number ends, or the first byte that does not fit. */
  datatype Scan = End(pos: nat) | Bad(pos: nat)

  predicate At(s: Bytes, pos: nat, b: bv8) {
    pos < |s| && s[pos] == b
  }

  predicate DigitAt(s: Bytes, pos: nat) {
    pos < |s| && IsDigit(s[pos])
  }

  function DigitsEnd(s: Bytes, pos: nat): (end: nat)
    ensures pos <= end && (pos <= |s| ==> end <= |s|)
    ensures !DigitAt(s, end) && forall i :: pos <= i < end ==> DigitAt(s, i)
    decreases |s| - pos
  {
    if DigitAt(s, pos) then DigitsEnd(s, pos + 1) else pos
  }

  function ScanDigits(s: Bytes, pos: nat): Scan {
    if DigitAt(s, pos) then End(DigitsEnd(s, pos)) else Bad(pos)
  }

  function ScanExp(s: Bytes, pos: nat): Scan {
    if pos < |s| && IsExponentMark(s[pos]) then
      ScanDigits(s, if At(s, pos + 1, PLUS) || At(s, pos + 1, MINUS) then pos + 2 else pos + 1)
    else End(pos)
  }

  function ScanFrac(s: Bytes, pos: nat): Scan {
    if At(s, pos, POINT) then
      var r := ScanDigits(s, pos + 1);
      if r.End? then ScanExp(s, r.pos) else r
    else ScanExp(s, pos)
  }

  function ScanInt(s: Bytes, pos: nat): Scan {
    if At(s, pos, ZERO) then if DigitAt(s, pos + 1) then Bad(pos + 1) else ScanFrac(s, pos + 1)
    else
      var r := ScanDigits(s, pos);
      if r.End? then ScanFrac(s, r.pos) else r
  }

  function ScanNumber(s: Bytes, start: nat): Scan {
    ScanInt(s, if At(s, start, MINUS) then start + 1 else start)
  }

  /** One or more digits. */
  method Digits(s: Bytes, start: nat) returns (r: Scan)
    ensures r == ScanDigits(s, start)
  {
    if !DigitAt(s, start) {
      return Bad(start);
    }
    var pos := start;
    while DigitAt(s, pos)
      invariant start <= pos && DigitsEnd(s, start) == DigitsEnd(s, pos)
      decreases |s| - pos
    {
      pos := pos + 1;
    }
    r := End(pos);
  }

  method ScanAll(s: Bytes, start: nat) returns (r: Scan)
    ensures r == ScanNumber(s, start)
  {
    hide ScanDigits, IsDigit, IsExponentMark, DigitAt;
    var pos := start;
    if At(s, pos, MINUS) {
      pos := pos + 1;
    }
    if At(s, pos, ZERO) {
      pos := pos + 1;
      if DigitAt(s, pos) {
        return Bad(pos);
      }
    } else {
      r := Digits(s, pos);
      if r.Bad? {
        return;
      }
      pos := r.pos;
    }
    if At(s, pos, POINT) {
      r := Digits(s, pos + 1);
      if r.Bad? {
        return;
      }
      pos := r.pos;
    }
    if pos < |s| && IsExponentMark(s[pos]) {
      pos := pos + 1;
      if At(s, pos, PLUS) || At(s, pos, MINUS) {
        pos := pos + 1;
      }
      r := Digits(s, pos);
      return;
    }
    r := End(pos);
  }

  // ----- the scan follows the grammar -----

  lemma ExpBounds(s: Bytes, pos: nat)
    requires pos <= |s|
    ensures pos <= ScanExp(s, pos).pos <= |s|
  {
  }

  lemma FracBounds(s: Bytes, pos: nat)
    requires pos <= |s|
    ensures pos <= ScanFrac(s, pos).pos <= |s|
  {
    hide ScanExp;
    ExpBounds(s, pos);
    if At(s, pos, POINT) && ScanDigits(s, pos + 1).End? {
      ExpBounds(s, ScanDigits(s, pos + 1).pos);
    }
  }

  lemma IntBounds(s: Bytes, pos: nat)
    requires pos <= |s|
    ensures pos <= ScanInt(s, pos).pos <= |s| && (ScanInt(s, pos).End? ==> pos < ScanInt(s, pos).pos)
  {
    hide ScanFrac;
    if At(s, pos, ZERO) {
      FracBounds(s, pos + 1);
    } else if ScanDigits(s, pos).End? {
      FracBounds(s, ScanDigits(s, pos).pos);
    }
  }

  lemma ScanBounds(s: Bytes, start: nat)
    requires start <= |s|
    ensures start <= ScanNumber(s, start).pos <= |s|
    ensures ScanNumber(s, start).End? ==> start < ScanNumber(s, start).pos
  {
    hide ScanInt;
    IntBounds(s, if At(s, start, MINUS) then start + 1 else start);
  }

  lemma DigitsAre(s: Bytes, pos: nat)
    requires DigitAt(s, pos)
    ensures IsDigits(s[pos..DigitsEnd(s, pos)])
  {
    hide IsDigit;
    var end := DigitsEnd(s, pos);
    forall i | 0 <= i < end - pos ensures IsDigit(s[pos..end][i]) {
      assert DigitAt(s, pos + i);
    }
  }

  lemma ExpIs(s: Bytes, pos: nat)
    requires pos <= |s| && ScanExp(s, pos).End?
    ensures var end := ScanExp(s, pos).pos; pos <= end <= |s| && IsExp(s[pos..end])
  {
    if pos < |s| && IsExponentMark(s[pos]) {
      var at := if At(s, pos + 1, PLUS) || At(s, pos + 1, MINUS) then pos + 2 else pos + 1;
      var end := ScanExp(s, pos).pos;
      DigitsAre(s, at);
      assert s[at..end] == s[pos..end][at - pos..];
    }
  }

  lemma FracIs(s: Bytes, pos: nat) returns (mid: nat)
    requires pos <= |s| && ScanFrac(s, pos).End?
    ensures pos <= mid <= |s| && IsFrac(s[pos..mid]) && ScanExp(s, mid) == ScanFrac(s, pos)
  {
    mid := pos;
    if At(s, pos, POINT) {
      mid := DigitsEnd(s, pos + 1);
      DigitsAre(s, pos + 1);
      assert s[pos + 1..mid] == s[pos..mid][1..];
    }
  }

  lemma IntIs(s: Bytes, pos: nat) returns (mid: nat)
    requires pos <= |s| && ScanInt(s, pos).End?
    ensures pos < mid <= |s| && IsInt(s[pos..mid]) && ScanFrac(s, mid) == ScanInt(s, pos)
  {
    if At(s, pos, ZERO) {
      mid := pos + 1;
      assert s[pos..mid] == [ZERO];
    } else {
      mid := DigitsEnd(s, pos);
      DigitsAre(s, pos);
    }
  }

  /** What is scanned is a number. */
  lemma ScannedIsNumber(s: Bytes, start: nat)
    requires start <= |s| && ScanNumber(s, start).End?
    ensures var end := ScanNumber(s, start).pos; start < end <= |s| && IsNumber(s[start..end])
  {
    hide ScanInt, ScanFrac, ScanExp, IsInt, IsFrac, IsExp;
    var a := if At(s, start, MINUS) then start + 1 else start;
    assert IsSign(s[start..a]);
    var b := IntIs(s, a);
    var c := FracIs(s, b);
    ExpIs(s, c);
    var end := ScanNumber(s, start).pos;
    JoinFour(s, start, a, b, c, end);
  }

  lemma JoinFour(s: Bytes, start: nat, a: nat, b: nat, c: nat, end: nat)
    requires start <= a <= b <= c <= end <= |s|
    ensures s[start..end] == s[start..a] + s[a..b] + s[b..c] + s[c..end]
  {
    assert s[start..b] == s[start..a] + s[a..b];
    assert s[start..c] == s[start..b] + s[b..c];
    assert s[start..end] == s[start..c] + s[c..end];
  }

  /** A byte that would continue a number, or make it another one. */
  predicate Continues(b: bv8) {
    IsDigit(b) || b == POINT || IsExponentMark(b) || b == MINUS || b == PLUS
  }

  /** The text at `pos` reads `t`. */
  predicate ReadsAt(s: Bytes, pos: nat, t: Bytes) {
    pos + |t| <= |s| && s[pos..pos + |t|] == t
  }

  lemma ReadsByte(s: Bytes, pos: nat, t: Bytes, i: nat)
    requires ReadsAt(s, pos, t) && i < |t|
    ensures pos + i < |s| && s[pos + i] == t[i]
  {
    assert s[pos..pos + |t|][i] == s[pos + i];
  }

  lemma ReadsPart(s: Bytes, pos: nat, a: Bytes, b: Bytes)
    ensures ReadsAt(s, pos, a + b) <==> ReadsAt(s, pos, a) && ReadsAt(s, pos + |a|, b)
  {
    if ReadsAt(s, pos, a + b) {
      assert s[pos..pos + |a|] == s[pos..pos + |a + b|][..|a|];
      assert s[pos + |a|..pos + |a| + |b|] == s[pos..pos + |a + b|][|a|..];
    }
    if ReadsAt(s, pos, a) && ReadsAt(s, pos + |a|, b) {
      assert s[pos..pos + |a + b|] == s[pos..pos + |a|] + s[pos + |a|..pos + |a| + |b|];
    }
  }

  lemma {:induction false} DigitsRead(s: Bytes, pos: nat, t: Bytes)
    requires ReadsAt(s, pos, t) && AllDigits(t) && !DigitAt(s, pos + |t|)
    ensures DigitsEnd(s, pos) == pos + |t|
    decreases |t|
  {
    if t != [] {
      ReadsByte(s, pos, t, 0);
      ReadsPart(s, pos, [t[0]], t[1..]);
      assert t == [t[0]] + t[1..];
      DigitsRead(s, pos + 1, t[1..]);
    }
  }

  lemma ExpReads(s: Bytes, pos: nat, x: Bytes)
    requires ReadsAt(s, pos, x) && IsExp(x) && (pos + |x| < |s| ==> !Continues(s[pos + |x|]))
    ensures ScanExp(s, pos) == End(pos + |x|)
  {
    if x != [] {
      ReadsByte(s, pos, x, 0);
      ReadsByte(s, pos, x, 1);
      var k := if x[1] == PLUS || x[1] == MINUS then 2 else 1;
      assert x == x[..k] + x[k..];
      ReadsPart(s, pos, x[..k], x[k..]);
      ReadsByte(s, pos, x, k);
      DigitsRead(s, pos + k, x[k..]);
    }
  }

  lemma NotDigits()
    ensures !IsDigit(POINT) && !IsDigit(0x65) && !IsDigit(0x45) && !IsDigit(MINUS) && !IsDigit(PLUS) && IsDigit(ZERO)
    ensures !IsExponentMark(POINT)
  {
  }

  lemma ExpBegins(x: Bytes)
    requires IsExp(x) && x != []
    ensures !IsDigit(x[0]) && x[0] != POINT
  {
  }

  lemma FracReads(s: Bytes, pos: nat, f: Bytes, x: Bytes)
    requires ReadsAt(s, pos, f) && ReadsAt(s, pos + |f|, x) && IsFrac(f) && IsExp(x)
    requires pos + |f| + |x| < |s| ==> !Continues(s[pos + |f| + |x|])
    ensures ScanFrac(s, pos) == End(pos + |f| + |x|)
  {
    hide ScanExp, IsExp, IsDigit, ReadsAt;
    ExpReads(s, pos + |f|, x);
    if x != [] {
      ReadsByte(s, pos + |f|, x, 0);
      ExpBegins(x);
    }
    if f != [] {
      FracDigits(s, pos, f);
    }
  }

  lemma FracDigits(s: Bytes, pos: nat, f: Bytes)
    requires ReadsAt(s, pos, f) && IsFrac(f) && f != [] && !DigitAt(s, pos + |f|)
    ensures At(s, pos, POINT) && DigitAt(s, pos + 1) && DigitsEnd(s, pos + 1) == pos + |f|
  {
    hide IsDigit, ReadsAt;
    ReadsByte(s, pos, f, 0);
    ReadsByte(s, pos, f, 1);
    assert f == [f[0]] + f[1..];
    ReadsPart(s, pos, [f[0]], f[1..]);
    DigitsRead(s, pos + 1, f[1..]);
  }

  lemma IntReads(s: Bytes, pos: nat, i: Bytes, f: Bytes, x: Bytes)
    requires ReadsAt(s, pos, i) && ReadsAt(s, pos + |i|, f) && ReadsAt(s, pos + |i| + |f|, x)
    requires IsInt(i) && IsFrac(f) && IsExp(x)
    requires pos + |i| + |f| + |x| < |s| ==> !Continues(s[pos + |i| + |f| + |x|])
    ensures ScanInt(s, pos) == End(pos + |i| + |f| + |x|)
  {
    hide ScanFrac, ScanExp, IsExp, IsDigit, ReadsAt;
    FracReads(s, pos + |i|, f, x);
    NotDigits();
    ReadsByte(s, pos, i, 0);
    if f != [] {
      ReadsByte(s, pos + |i|, f, 0);
    } else if x != [] {
      ReadsByte(s, pos + |i|, x, 0);
      ExpBegins(x);
    }
    if i != [ZERO] {
      DigitsRead(s, pos, i);
    }
  }

  /** A number that nothing continues is scanned whole. */
  lemma NumberReads(s: Bytes, start: nat, t: Bytes)
    requires ReadsAt(s, start, t) && IsNumber(t) && (start + |t| < |s| ==> !Continues(s[start + |t|]))
    ensures ScanNumber(s, start) == End(start + |t|)
  {
    hide ScanInt, IsExp, IsFrac, IsDigit, ReadsAt;
    var m, i, f, x :| IsSign(m) && IsInt(i) && IsFrac(f) && IsExp(x) && t == m + i + f + x;
    ReadsPart(s, start, m + i + f, x);
    ReadsPart(s, start, m + i, f);
    ReadsPart(s, start, m, i);
    IntReads(s, start + |m|, i, f, x);
    NotDigits();
    if m != [] {
      ReadsByte(s, start, m, 0);
    } else {
      ReadsByte(s, start, i, 0);
    }
  }

  /** The test of a whole text. */
  method IsNumberText(text: Bytes) returns (r: bool)
    ensures r <==> IsNumber(text)
  {
    var scan := ScanAll(text, 0);
    r := scan == End(|text|);
    assert text[0..|text|] == text;
    if r {
      ScannedIsNumber(text, 0);
    }
    if IsNumber(text) {
      NumberReads(text, 0, text);
    }
  }

  /** A number begins with a digit or a minus sign. */
  lemma NumberBegins(t: Bytes)
    requires IsNumber(t)
    ensures t != [] && (t[0] == MINUS || IsDigit(t[0]))
  {
    var m, i, f, x :| IsSign(m) && IsInt(i) && IsFrac(f) && IsExp(x) && t == m + i + f + x;
    assert t[0] == if m == [] then i[0] else m[0];
  }
}
