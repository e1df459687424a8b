/** A text read behind other bytes: the same, at later places. */
module JsonShift {
  import opened Options
  import opened JsonBytes
  import opened JsonNumbers
  import opened JsonStrings
  import opened JsonTokenizer
  import opened JsonDraining

  /** The text `s` is what `t` has after its first `n` bytes. */
  predicate Behind(s: Bytes, t: Bytes, n: nat) {
    |t| == n + |s| && t[n..] == s
  }

  function LaterError(e: Error, n: nat): Error {
    Error(e.kind, n + e.offset)
  }

  function LaterLexed(r: Lexed, n: nat): Lexed {
    match r
    case To(end) => To(n + end)
    case Wrong(e) => Wrong(LaterError(e, n))
  }

  function LaterScan(r: Scan, n: nat): Scan {
    match r
    case End(pos) => End(n + pos)
    case Bad(pos) => Bad(n + pos)
  }

  function LaterStep(step: Step, n: nat): Step {
    match step
    case Item(event, next) => Item(event, next.(pos := n + next.pos))
    case Done => Done
    case Fail(e) => Fail(LaterError(e, n))
  }

  function Later(d: Drained, n: nat): Drained {
    d.(error := if d.error.Some? then Some(LaterError(d.error.value, n)) else None)
  }

  function Before(event: Event, d: Drained): Drained {
    Drained([event] + d.events, d.error)
  }

  // ----- tokens -----

  lemma ByteBehind(s: Bytes, t: Bytes, n: nat, pos: nat)
    requires Behind(s, t, n)
    ensures n + pos < |t| <==> pos < |s|
    ensures pos < |s| ==> t[n + pos] == s[pos]
  {
    if pos < |s| {
      assert t[n..][pos] == t[n + pos];
    }
  }

  lemma SliceBehind(s: Bytes, t: Bytes, n: nat, a: nat, b: nat)
    requires Behind(s, t, n) && a <= b <= |s|
    ensures n + b <= |t| && t[n + a..n + b] == s[a..b]
  {
    assert t[n..][a..b] == t[n + a..n + b];
  }

  lemma {:induction false} SpaceBehind(s: Bytes, t: Bytes, n: nat, pos: nat)
    requires Behind(s, t, n)
    ensures SkipSpace(t, n + pos) == n + SkipSpace(s, pos)
    decreases |s| - pos
  {
    hide IsSpace;
    ByteBehind(s, t, n, pos);
    if pos < |s| && IsSpace(s[pos]) {
      SpaceBehind(s, t, n, pos + 1);
    }
  }

  lemma {:induction false} HexBehind(s: Bytes, t: Bytes, n: nat, pos: nat, k: nat)
    requires Behind(s, t, n)
    ensures HexEnd(t, n + pos, k) == LaterLexed(HexEnd(s, pos, k), n)
    decreases k
  {
    hide HexDigit;
    ByteBehind(s, t, n, pos);
    if k > 0 {
      HexBehind(s, t, n, pos + 1, k - 1);
    }
  }

  lemma EscapeBehind(s: Bytes, t: Bytes, n: nat, pos: nat)
    requires Behind(s, t, n)
    ensures EscapeEnd(t, n + pos) == LaterLexed(EscapeEnd(s, pos), n)
  {
    hide HexEnd, SimpleEscape;
    ByteBehind(s, t, n, pos + 1);
    HexBehind(s, t, n, pos + 2, 4);
  }

  lemma {:induction false} StringBehind(s: Bytes, t: Bytes, n: nat, pos: nat)
    requires Behind(s, t, n) && pos <= |s|
    ensures StringEnd(t, n + pos) == LaterLexed(StringEnd(s, pos), n)
    decreases |s| - pos
  {
    hide EscapeEnd;
    ByteBehind(s, t, n, pos);
    if pos < |s| && s[pos] == BACKSLASH {
      EscapeEnds(s, pos);
      EscapeBehind(s, t, n, pos);
      var r := EscapeEnd(s, pos);
      if r.To? {
        StringBehind(s, t, n, r.end);
      }
    } else if pos < |s| && s[pos] != QUOTE && s[pos] > 0x1F {
      StringBehind(s, t, n, pos + 1);
    }
  }

  lemma {:induction false} LiteralBehind(s: Bytes, t: Bytes, n: nat, pos: nat, literal: Bytes, k: nat)
    requires Behind(s, t, n) && k <= |literal|
    ensures LiteralTo(t, n + pos, literal, k) == LaterLexed(LiteralTo(s, pos, literal, k), n)
    decreases |literal| - k
  {
    ByteBehind(s, t, n, pos + k);
    if k < |literal| {
      LiteralBehind(s, t, n, pos, literal, k + 1);
    }
  }

  lemma {:induction false} DigitsBehind(s: Bytes, t: Bytes, n: nat, pos: nat)
    requires Behind(s, t, n)
    ensures DigitsEnd(t, n + pos) == n + DigitsEnd(s, pos)
    decreases |s| - pos
  {
    hide IsDigit;
    ByteBehind(s, t, n, pos);
    if DigitAt(s, pos) {
      DigitsBehind(s, t, n, pos + 1);
    }
  }

  lemma DigitsScanBehind(s: Bytes, t: Bytes, n: nat, pos: nat)
    requires Behind(s, t, n)
    ensures ScanDigits(t, n + pos) == LaterScan(ScanDigits(s, pos), n)
  {
    hide IsDigit;
    ByteBehind(s, t, n, pos);
    DigitsBehind(s, t, n, pos);
  }

  lemma ExpBehind(s: Bytes, t: Bytes, n: nat, pos: nat)
    requires Behind(s, t, n)
    ensures ScanExp(t, n + pos) == LaterScan(ScanExp(s, pos), n)
  {
    hide ScanDigits, IsExponentMark;
    ByteBehind(s, t, n, pos);
    ByteBehind(s, t, n, pos + 1);
    DigitsScanBehind(s, t, n, pos + 1);
    DigitsScanBehind(s, t, n, pos + 2);
  }

  lemma FracBehind(s: Bytes, t: Bytes, n: nat, pos: nat)
    requires Behind(s, t, n)
    ensures ScanFrac(t, n + pos) == LaterScan(ScanFrac(s, pos), n)
  {
    hide ScanDigits, ScanExp;
    ByteBehind(s, t, n, pos);
    ExpBehind(s, t, n, pos);
    DigitsScanBehind(s, t, n, pos + 1);
    ExpBehind(s, t, n, ScanDigits(s, pos + 1).pos);
  }

  lemma NumberBehind(s: Bytes, t: Bytes, n: nat, start: nat)
    requires Behind(s, t, n)
    ensures ScanNumber(t, n + start) == LaterScan(ScanNumber(s, start), n)
  {
    hide ScanInt;
    ByteBehind(s, t, n, start);
    IntBehind(s, t, n, start);
    IntBehind(s, t, n, start + 1);
  }

  lemma IntBehind(s: Bytes, t: Bytes, n: nat, pos: nat)
    requires Behind(s, t, n)
    ensures ScanInt(t, n + pos) == LaterScan(ScanInt(s, pos), n)
  {
    hide ScanDigits, ScanFrac, IsDigit;
    ByteBehind(s, t, n, pos);
    ByteBehind(s, t, n, pos + 1);
    DigitsScanBehind(s, t, n, pos);
    FracBehind(s, t, n, pos + 1);
    FracBehind(s, t, n, ScanDigits(s, pos).pos);
  }

  // ----- calls -----

  lemma StringTokenBehind(s: Bytes, t: Bytes, n: nat, pos: nat)
    requires Behind(s, t, n) && pos <= |s|
    ensures StringEnd(t, n + pos) == LaterLexed(StringEnd(s, pos), n)
    ensures StringEnd(s, pos).To? ==> var end := StringEnd(s, pos).end; t[n + pos..n + end] == s[pos..end]
  {
    hide StringEnd;
    StringBehind(s, t, n, pos);
    if StringEnd(s, pos).To? {
      SliceBehind(s, t, n, pos, StringEnd(s, pos).end);
    }
  }

  lemma NumberTokenBehind(s: Bytes, t: Bytes, n: nat, pos: nat)
    requires Behind(s, t, n) && pos < |s|
    ensures ScanNumber(t, n + pos) == LaterScan(ScanNumber(s, pos), n)
    ensures ScanNumber(s, pos).End? ==> var end := ScanNumber(s, pos).pos; pos <= end <= |s| && t[n + pos..n + end] == s[pos..end]
  {
    hide ScanNumber;
    NumberBehind(s, t, n, pos);
    ScanBounds(s, pos);
    if ScanNumber(s, pos).End? {
      SliceBehind(s, t, n, pos, ScanNumber(s, pos).pos);
    }
  }

  lemma LiteralStepBehind(s: Bytes, t: Bytes, n: nat, pos: nat, stack: seq<Container>, literal: Bytes, event: Event)
    requires Behind(s, t, n)
    ensures LiteralStep(t, n + pos, stack, literal, event) == LaterStep(LiteralStep(s, pos, stack, literal, event), n)
  {
    hide LiteralTo;
    LiteralBehind(s, t, n, pos, literal, 0);
  }

  lemma ValueAtBehind(s: Bytes, t: Bytes, n: nat, settings: Settings, p: nat, stack: seq<Container>)
    requires Behind(s, t, n) && p <= |s|
    ensures ValueAt(t, settings, n + p, stack) == LaterStep(ValueAt(s, settings, p, stack), n)
  {
    hide StringEnd, ScanNumber, LiteralStep, IsDigit, StrOf;
    ByteBehind(s, t, n, p);
    LiteralStepBehind(s, t, n, p, stack, TRUE, Bool(true));
    LiteralStepBehind(s, t, n, p, stack, FALSE, Bool(false));
    LiteralStepBehind(s, t, n, p, stack, NULL, Null);
    if p < |s| {
      StringTokenBehind(s, t, n, p + 1);
      NumberTokenBehind(s, t, n, p);
    }
  }

  lemma ValueBehind(s: Bytes, t: Bytes, n: nat, settings: Settings, pos: nat, stack: seq<Container>)
    requires Behind(s, t, n) && pos <= |s|
    ensures ValueStep(t, settings, n + pos, stack) == LaterStep(ValueStep(s, settings, pos, stack), n)
  {
    hide SkipSpace, ValueAt;
    SpaceBehind(s, t, n, pos);
    ValueAtBehind(s, t, n, settings, SkipSpace(s, pos), stack);
  }

  lemma KeyBehind(s: Bytes, t: Bytes, n: nat, pos: nat, stack: seq<Container>)
    requires Behind(s, t, n) && pos <= |s|
    ensures KeyStep(t, n + pos, stack) == LaterStep(KeyStep(s, pos, stack), n)
  {
    hide SkipSpace, StringEnd, StrOf;
    var p := SkipSpace(s, pos);
    SpaceBehind(s, t, n, pos);
    ByteBehind(s, t, n, p);
    if p < |s| {
      StringTokenBehind(s, t, n, p + 1);
    }
  }

  lemma AfterBehind(s: Bytes, t: Bytes, n: nat, settings: Settings, pos: nat, stack: seq<Container>)
    requires Behind(s, t, n) && pos <= |s|
    ensures AfterStep(t, settings, n + pos, stack) == LaterStep(AfterStep(s, settings, pos, stack), n)
  {
    hide SkipSpace, ValueStep, KeyStep;
    var p := SkipSpace(s, pos);
    SpaceBehind(s, t, n, pos);
    ByteBehind(s, t, n, p);
    if p < |s| {
      ValueBehind(s, t, n, settings, p + 1, stack);
      KeyBehind(s, t, n, p + 1, stack);
    }
  }

  /** Any call but the first. */
  lemma StepBehind(s: Bytes, t: Bytes, n: nat, settings: Settings, c: Config)
    requires Behind(s, t, n) && c.pos <= |s| && c.state != Start
    ensures NextStep(t, settings, c.(pos := n + c.pos)) == LaterStep(NextStep(s, settings, c), n)
  {
    hide SkipSpace, ValueStep, KeyStep, AfterStep;
    var p := SkipSpace(s, c.pos);
    SpaceBehind(s, t, n, c.pos);
    ByteBehind(s, t, n, p);
    ValueBehind(s, t, n, settings, p, c.stack);
    KeyBehind(s, t, n, p, c.stack);
    AfterBehind(s, t, n, settings, c.pos, c.stack);
    if p < |s| {
      ValueBehind(s, t, n, settings, p + 1, c.stack);
    }
  }

  /** From the first event on, other bytes before a text only move the error. */
  lemma {:induction false} DrainBehind(s: Bytes, t: Bytes, n: nat, settings: Settings, c: Config)
    requires Behind(s, t, n) && Within(s, c) && c.state != Start
    ensures Drain(t, settings, c.(pos := n + c.pos)) == Later(Drain(s, settings, c), n)
    decreases |s| - c.pos
  {
    hide NextStep, Behind;
    assert |t| == n + |s| by { LengthBehind(s, t, n); }
    StepBehind(s, t, n, settings, c);
    StepAdvances(s, settings, c);
    StepAdvances(t, settings, c.(pos := n + c.pos));
    var step := NextStep(s, settings, c);
    if step.Item? {
      DrainBehind(s, t, n, settings, step.next);
    }
  }

  lemma LengthBehind(s: Bytes, t: Bytes, n: nat)
    requires Behind(s, t, n)
    ensures |t| == n + |s|
  {
  }

  /**
   * An ignored byte order mark that no other one follows gives the events of the text behind it, and its error three
   * bytes later.
   */
  lemma BomIsSkipped(s: Bytes, settings: Settings)
    requires settings.ignoreBom && !HasBom(s)
    ensures Drain(BOM + s, settings, BEGIN) == Later(Drain(s, settings, BEGIN), 3)
  {
    hide ValueStep, Drain;
    var t := BOM + s;
    assert t[..3] == BOM && t[3..] == s;
    ValueBehind(s, t, 3, settings, 0, []);
    DrainFirst(s, settings);
    DrainFirst(t, settings);
    var step := NextStep(s, settings, BEGIN);
    StepAdvances(s, settings, BEGIN);
    if step.Item? {
      DrainBehind(s, t, 3, settings, step.next);
    }
  }

  /** The first call, and then the others. */
  lemma DrainFirst(s: Bytes, settings: Settings)
    ensures var step, d := NextStep(s, settings, BEGIN), Drain(s, settings, BEGIN);
            if step.Item? then Within(s, step.next) && d == Before(step.event, Drain(s, settings, step.next))
            else d == Drained([], if step.Fail? then Some(step.error) else None)
  {
    hide NextStep;
    StepAdvances(s, settings, BEGIN);
  }
}
