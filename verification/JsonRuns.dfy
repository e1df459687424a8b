/** What holds of every run of the tokenizer, whatever the text. */
module JsonRuns {
  import opened Options
  import opened JsonBytes
  import opened JsonNumbers
  import opened JsonStrings
  import opened JsonTokenizer
  import opened JsonDraining

  // ----- error offsets -----

  /** An error is at the end of the text exactly when it says so. */
  predicate Located(s: Bytes, e: Error) {
    e.offset <= |s| && (e.kind == UnexpectedEof <==> e.offset == |s|)
  }

  predicate StepLocated(s: Bytes, step: Step) {
    step.Fail? ==> Located(s, step.error)
  }

  lemma {:induction false} HexLocated(s: Bytes, pos: nat, k: nat)
    requires pos <= |s|
    ensures HexEnd(s, pos, k).Wrong? ==> Located(s, HexEnd(s, pos, k).error)
    decreases k
  {
    if k > 0 && pos < |s| {
      HexLocated(s, pos + 1, k - 1);
    }
  }

  lemma {:induction false} StringLocated(s: Bytes, pos: nat)
    requires pos <= |s|
    ensures StringEnd(s, pos).Wrong? ==> Located(s, StringEnd(s, pos).error)
    decreases |s| - pos
  {
    hide HexDigit, SimpleEscape;
    if pos < |s| {
      if s[pos] == BACKSLASH {
        EscapeEnds(s, pos);
        if pos + 2 <= |s| {
          HexLocated(s, pos + 2, 4);
        }
        if EscapeEnd(s, pos).To? {
          StringLocated(s, EscapeEnd(s, pos).end);
        }
      } else {
        StringLocated(s, pos + 1);
      }
    }
  }

  lemma {:induction false} LiteralLocated(s: Bytes, pos: nat, literal: Bytes, k: nat)
    requires k <= |literal| && pos + k <= |s|
    ensures LiteralTo(s, pos, literal, k).Wrong? ==> Located(s, LiteralTo(s, pos, literal, k).error)
    decreases |literal| - k
  {
    if k < |literal| && At(s, pos + k, literal[k]) {
      LiteralLocated(s, pos, literal, k + 1);
    }
  }

  lemma ValueLocated(s: Bytes, settings: Settings, pos: nat, stack: seq<Container>)
    requires pos <= |s|
    ensures StepLocated(s, ValueStep(s, settings, pos, stack))
  {
    hide StringEnd, ScanNumber, LiteralTo, SkipSpace;
    var p := SkipSpace(s, pos);
    if p < |s| {
      StringLocated(s, p + 1);
      ScanBounds(s, p);
      LiteralLocated(s, p, TRUE, 0);
      LiteralLocated(s, p, FALSE, 0);
      LiteralLocated(s, p, NULL, 0);
    }
  }

  lemma KeyLocated(s: Bytes, pos: nat, stack: seq<Container>)
    requires pos <= |s|
    ensures StepLocated(s, KeyStep(s, pos, stack))
  {
    hide StringEnd, SkipSpace;
    var p := SkipSpace(s, pos);
    if p < |s| {
      StringLocated(s, p + 1);
    }
  }

  lemma NextLocated(s: Bytes, settings: Settings, c: Config)
    requires Within(s, c)
    ensures StepLocated(s, NextStep(s, settings, c))
  {
    hide ValueStep, KeyStep, SkipSpace;
    var p := SkipSpace(s, c.pos);
    ValueLocated(s, settings, p, c.stack);
    KeyLocated(s, p, c.stack);
    if p < |s| {
      ValueLocated(s, settings, p + 1, c.stack);
      KeyLocated(s, p + 1, c.stack);
    }
    if c.state == Start {
      ValueLocated(s, settings, if HasBom(s) then 3 else 0, []);
    }
  }

  /** An error is `UnexpectedEof` exactly when its offset is the text's length. */
  lemma {:induction false} ErrorIsLocated(s: Bytes, settings: Settings, c: Config)
    requires Within(s, c) && Drain(s, settings, c).error.Some?
    ensures Located(s, Drain(s, settings, c).error.value)
    decreases |s| - c.pos
  {
    hide NextStep;
    StepAdvances(s, settings, c);
    NextLocated(s, settings, c);
    var step := NextStep(s, settings, c);
    if step.Item? {
      ErrorIsLocated(s, settings, step.next);
    }
  }

  // ----- depth limits -----

  lemma LowerStep(s: Bytes, low: Settings, high: Settings, c: Config)
    requires Within(s, c) && low.ignoreBom == high.ignoreBom && low.maxDepth <= high.maxDepth
    ensures var step := NextStep(s, low, c);
            step == NextStep(s, high, c) || (step.Fail? && step.error.kind == DepthExceeded && |c.stack| >= low.maxDepth)
  {
    hide StringEnd, ScanNumber, LiteralTo, SkipSpace, KeyStep;
  }

  /** A lower limit gives the same drain, or its beginning and then `DepthExceeded`. */
  lemma {:induction false} LowerDepth(s: Bytes, low: Settings, high: Settings, c: Config)
    requires Within(s, c) && low.ignoreBom == high.ignoreBom && low.maxDepth <= high.maxDepth
    ensures var a, b := Drain(s, low, c), Drain(s, high, c);
            a == b || (a.error.Some? && a.error.value.kind == DepthExceeded && a.events <= b.events)
    decreases |s| - c.pos
  {
    hide NextStep;
    LowerStep(s, low, high, c);
    StepAdvances(s, low, c);
    var step := NextStep(s, low, c);
    if step.Item? && step == NextStep(s, high, c) {
      LowerDepth(s, low, high, step.next);
    }
  }

  /** At most the limit is open after the step, and `DepthExceeded` is the refusal to open one more. */
  predicate StepLimited(settings: Settings, stack: seq<Container>, step: Step) {
    match step
    case Item(_, next) => |next.stack| <= settings.maxDepth
    case Fail(e) => e.kind == DepthExceeded ==> |stack| == settings.maxDepth
    case Done => true
  }

  lemma ValueLimited(s: Bytes, settings: Settings, pos: nat, stack: seq<Container>)
    requires pos <= |s| && |stack| <= settings.maxDepth
    ensures StepLimited(settings, stack, ValueStep(s, settings, pos, stack))
  {
    hide StringEnd, ScanNumber, LiteralTo, SkipSpace;
    var p := SkipSpace(s, pos);
    if p < |s| {
      StringErrors(s, p + 1);
      LiteralErrors(s, p, TRUE, 0);
      LiteralErrors(s, p, FALSE, 0);
      LiteralErrors(s, p, NULL, 0);
    }
  }

  lemma KeyLimited(s: Bytes, settings: Settings, pos: nat, stack: seq<Container>)
    requires pos <= |s| && |stack| <= settings.maxDepth
    ensures StepLimited(settings, stack, KeyStep(s, pos, stack))
  {
    hide StringEnd, SkipSpace;
    var p := SkipSpace(s, pos);
    if p < |s| {
      StringErrors(s, p + 1);
    }
  }

  /** No more than the limit is ever open. */
  lemma DepthIsLimited(s: Bytes, settings: Settings, c: Config)
    requires Within(s, c) && |c.stack| <= settings.maxDepth
    ensures StepLimited(settings, c.stack, NextStep(s, settings, c))
  {
    hide ValueStep, KeyStep, SkipSpace;
    var p := SkipSpace(s, c.pos);
    ValueLimited(s, settings, p, c.stack);
    KeyLimited(s, settings, p, c.stack);
    if p < |s| {
      ValueLimited(s, settings, p + 1, c.stack);
      KeyLimited(s, settings, p + 1, c.stack);
    }
    if c.state == Start {
      ValueLimited(s, settings, if HasBom(s) then 3 else 0, []);
    }
  }

  lemma {:induction false} HexErrors(s: Bytes, pos: nat, k: nat)
    ensures HexEnd(s, pos, k).Wrong? ==> HexEnd(s, pos, k).error.kind != DepthExceeded
    decreases k
  {
    if k > 0 {
      HexErrors(s, pos + 1, k - 1);
    }
  }

  lemma {:induction false} StringErrors(s: Bytes, pos: nat)
    requires pos <= |s|
    ensures StringEnd(s, pos).Wrong? ==> StringEnd(s, pos).error.kind != DepthExceeded
    decreases |s| - pos
  {
    hide HexDigit, SimpleEscape;
    if pos < |s| {
      EscapeEnds(s, pos);
      HexErrors(s, pos + 2, 4);
      if s[pos] == BACKSLASH {
        if EscapeEnd(s, pos).To? {
          StringErrors(s, EscapeEnd(s, pos).end);
        }
      } else {
        StringErrors(s, pos + 1);
      }
    }
  }

  lemma {:induction false} LiteralErrors(s: Bytes, pos: nat, literal: Bytes, k: nat)
    requires k <= |literal|
    ensures LiteralTo(s, pos, literal, k).Wrong? ==> LiteralTo(s, pos, literal, k).error.kind != DepthExceeded
    decreases |literal| - k
  {
    if k < |literal| {
      LiteralErrors(s, pos, literal, k + 1);
    }
  }

  // ----- cutting a text -----

  /** A decision on bytes before `m` only. */
  predicate Decided(r: Lexed, m: nat) {
    match r
    case To(end) => end < m
    case Wrong(e) => e.offset < m && e.kind != UnexpectedEof
  }

  predicate StepDecided(step: Step, m: nat) {
    match step
    case Item(_, next) => next.pos < m
    case Fail(e) => e.offset < m && e.kind != UnexpectedEof
    case Done => false
  }

  lemma {:induction false} SpaceCut(s: Bytes, m: nat, pos: nat)
    requires pos <= |s| && m <= |s| && SkipSpace(s, pos) < m
    ensures SkipSpace(s[..m], pos) == SkipSpace(s, pos)
    decreases |s| - pos
  {
    if pos < |s| && IsSpace(s[pos]) {
      SpaceCut(s, m, pos + 1);
    }
  }

  lemma {:induction false} HexCut(s: Bytes, m: nat, pos: nat, k: nat)
    requires m <= |s| && Decided(HexEnd(s, pos, k), m)
    ensures HexEnd(s[..m], pos, k) == HexEnd(s, pos, k)
    decreases k
  {
    hide HexDigit;
    if k > 0 && pos < |s| && HexDigit(s[pos]).Some? {
      HexGoesOn(s, pos + 1, k - 1);
      HexCut(s, m, pos + 1, k - 1);
    }
  }

  lemma {:induction false} HexGoesOn(s: Bytes, pos: nat, k: nat)
    ensures var r := HexEnd(s, pos, k); pos <= if r.To? then r.end else r.error.offset
    decreases k
  {
    hide HexDigit;
    if k > 0 {
      HexGoesOn(s, pos + 1, k - 1);
    }
  }

  lemma EscapeCut(s: Bytes, m: nat, pos: nat)
    requires pos < m <= |s| && Decided(EscapeEnd(s, pos), m)
    ensures EscapeEnd(s[..m], pos) == EscapeEnd(s, pos)
  {
    hide HexDigit, SimpleEscape;
    HexGoesOn(s, pos + 2, 4);
    if pos + 1 < |s| && SimpleEscape(s[pos + 1]).None? && s[pos + 1] == LETTER_U {
      HexCut(s, m, pos + 2, 4);
    }
  }

  lemma {:induction false} StringCut(s: Bytes, m: nat, pos: nat)
    requires pos < m <= |s| && Decided(StringEnd(s, pos), m)
    ensures StringEnd(s[..m], pos) == StringEnd(s, pos)
    decreases |s| - pos
  {
    hide EscapeEnd;
    if s[pos] == BACKSLASH {
      EscapeEnds(s, pos);
      var r := EscapeEnd(s, pos);
      EscapeCut(s, m, pos);
      if r.To? {
        StringCut(s, m, r.end);
      }
    } else if s[pos] != QUOTE && s[pos] > 0x1F {
      StringCut(s, m, pos + 1);
    }
  }

  lemma {:induction false} LiteralCut(s: Bytes, m: nat, pos: nat, literal: Bytes, k: nat)
    requires m <= |s| && k <= |literal| && Decided(LiteralTo(s, pos, literal, k), m)
    ensures LiteralTo(s[..m], pos, literal, k) == LiteralTo(s, pos, literal, k)
    decreases |literal| - k
  {
    if k < |literal| && At(s, pos + k, literal[k]) {
      LiteralGoesOn(s, pos, literal, k + 1);
      LiteralCut(s, m, pos, literal, k + 1);
    }
  }

  lemma {:induction false} LiteralGoesOn(s: Bytes, pos: nat, literal: Bytes, k: nat)
    requires k <= |literal|
    ensures var r := LiteralTo(s, pos, literal, k); pos + k <= if r.To? then r.end else r.error.offset
    decreases |literal| - k
  {
    if k < |literal| {
      LiteralGoesOn(s, pos, literal, k + 1);
    }
  }

  lemma {:induction false} DigitsCut(s: Bytes, m: nat, pos: nat)
    requires m <= |s| && DigitsEnd(s, pos) < m
    ensures DigitsEnd(s[..m], pos) == DigitsEnd(s, pos)
    decreases |s| - pos
  {
    hide IsDigit;
    if DigitAt(s, pos) {
      DigitsCut(s, m, pos + 1);
    }
  }

  lemma NumberCut(s: Bytes, m: nat, pos: nat)
    requires m <= |s| && ScanNumber(s, pos).pos < m
    ensures ScanNumber(s[..m], pos) == ScanNumber(s, pos)
  {
    hide IsDigit, IsExponentMark, ScanInt;
    IntCut(s, m, if At(s, pos, MINUS) then pos + 1 else pos);
  }

  lemma DigitsScanCut(s: Bytes, m: nat, pos: nat)
    requires m <= |s| && ScanDigits(s, pos).pos < m
    ensures ScanDigits(s[..m], pos) == ScanDigits(s, pos)
  {
    hide IsDigit;
    if DigitAt(s, pos) {
      DigitsCut(s, m, pos);
    }
  }

  lemma ExpCut(s: Bytes, m: nat, pos: nat)
    requires m <= |s| && ScanExp(s, pos).pos < m
    ensures pos <= ScanExp(s, pos).pos && ScanExp(s[..m], pos) == ScanExp(s, pos)
  {
    hide IsDigit, IsExponentMark, ScanDigits;
    ScanGoesOn(s, pos + 1);
    ScanGoesOn(s, pos + 2);
    if pos < |s| && IsExponentMark(s[pos]) {
      DigitsScanCut(s, m, if At(s, pos + 1, PLUS) || At(s, pos + 1, MINUS) then pos + 2 else pos + 1);
    }
  }

  lemma ScanGoesOn(s: Bytes, pos: nat)
    ensures pos <= ScanDigits(s, pos).pos
  {
  }

  lemma FracCut(s: Bytes, m: nat, pos: nat)
    requires m <= |s| && ScanFrac(s, pos).pos < m
    ensures pos <= ScanFrac(s, pos).pos && ScanFrac(s[..m], pos) == ScanFrac(s, pos)
  {
    hide IsDigit, ScanDigits, ScanExp;
    ScanGoesOn(s, pos + 1);
    if At(s, pos, POINT) {
      var r := ScanDigits(s, pos + 1);
      if r.End? {
        ExpCut(s, m, r.pos);
      }
      DigitsScanCut(s, m, pos + 1);
    } else {
      ExpCut(s, m, pos);
    }
  }

  lemma IntCut(s: Bytes, m: nat, pos: nat)
    requires m <= |s| && ScanInt(s, pos).pos < m
    ensures pos <= ScanInt(s, pos).pos && ScanInt(s[..m], pos) == ScanInt(s, pos)
  {
    hide IsDigit, ScanDigits, ScanFrac;
    ScanGoesOn(s, pos);
    if At(s, pos, ZERO) {
      if !DigitAt(s, pos + 1) {
        FracCut(s, m, pos + 1);
      }
    } else {
      var r := ScanDigits(s, pos);
      if r.End? {
        FracCut(s, m, r.pos);
      }
      DigitsScanCut(s, m, pos);
    }
  }

  /** A step's place is not before `p`. */
  predicate StepFrom(step: Step, p: nat) {
    match step
    case Item(_, next) => p < next.pos
    case Fail(e) => p <= e.offset
    case Done => true
  }

  lemma StringGoesOn(s: Bytes, pos: nat)
    requires pos <= |s|
    ensures var r := StringEnd(s, pos); pos <= if r.To? then r.end else r.error.offset
  {
    hide StringEnd;
  }

  lemma ValueFrom(s: Bytes, settings: Settings, p: nat, stack: seq<Container>)
    requires p <= |s|
    ensures StepFrom(ValueAt(s, settings, p, stack), p)
  {
    hide StringEnd, ScanNumber, LiteralTo;
    if p < |s| {
      StringGoesOn(s, p + 1);
      ScanBounds(s, p);
      LiteralGoesOn(s, p, TRUE, 0);
      LiteralAdvances(s, p, TRUE, 0);
      LiteralGoesOn(s, p, FALSE, 0);
      LiteralAdvances(s, p, FALSE, 0);
      LiteralGoesOn(s, p, NULL, 0);
      LiteralAdvances(s, p, NULL, 0);
    }
  }

  lemma SliceCut(s: Bytes, m: nat, a: nat, b: nat)
    requires a <= b <= m <= |s|
    ensures s[..m][a..b] == s[a..b]
  {
  }

  lemma StringTokenCut(s: Bytes, m: nat, pos: nat)
    requires pos <= |s| && m <= |s| && Decided(StringEnd(s, pos), m)
    ensures pos < m && StringEnd(s[..m], pos) == StringEnd(s, pos)
    ensures StringEnd(s, pos).To? ==> s[..m][pos..StringEnd(s, pos).end] == s[pos..StringEnd(s, pos).end]
  {
    hide StringEnd;
    StringGoesOn(s, pos);
    StringCut(s, m, pos);
  }

  lemma ValueAtCut(s: Bytes, settings: Settings, m: nat, p: nat, stack: seq<Container>)
    requires p < m <= |s| && StepDecided(ValueAt(s, settings, p, stack), m)
    ensures ValueAt(s[..m], settings, p, stack) == ValueAt(s, settings, p, stack)
  {
    hide StringEnd, ScanNumber, LiteralTo;
    assert s[..m][p] == s[p];
    if s[p] == QUOTE {
      StringTokenCut(s, m, p + 1);
    } else if s[p] == MINUS || IsDigit(s[p]) {
      ScanBounds(s, p);
      NumberCut(s, m, p);
      SliceCut(s, m, p, ScanNumber(s, p).pos);
    } else if s[p] == 0x74 {
      LiteralCut(s, m, p, TRUE, 0);
    } else if s[p] == 0x66 {
      LiteralCut(s, m, p, FALSE, 0);
    } else if s[p] == 0x6E {
      LiteralCut(s, m, p, NULL, 0);
    }
  }

  lemma ValueCut(s: Bytes, settings: Settings, m: nat, pos: nat, stack: seq<Container>)
    requires pos <= |s| && m <= |s| && StepDecided(ValueStep(s, settings, pos, stack), m)
    ensures pos < m && ValueStep(s[..m], settings, pos, stack) == ValueStep(s, settings, pos, stack)
    ensures StepFrom(ValueStep(s, settings, pos, stack), pos)
  {
    hide ValueAt;
    var p := SkipSpace(s, pos);
    ValueFrom(s, settings, p, stack);
    SpaceCut(s, m, pos);
    ValueAtCut(s, settings, m, p, stack);
  }

  lemma KeyCut(s: Bytes, m: nat, pos: nat, stack: seq<Container>)
    requires pos <= |s| && m <= |s| && StepDecided(KeyStep(s, pos, stack), m)
    ensures pos < m && KeyStep(s[..m], pos, stack) == KeyStep(s, pos, stack)
    ensures StepFrom(KeyStep(s, pos, stack), pos)
  {
    hide StringEnd;
    var p := SkipSpace(s, pos);
    if p < |s| {
      StringGoesOn(s, p + 1);
      SpaceCut(s, m, pos);
      assert s[..m][p] == s[p];
      if s[p] == QUOTE {
        StringTokenCut(s, m, p + 1);
      }
    }
  }

  lemma AfterCut(s: Bytes, settings: Settings, m: nat, pos: nat, stack: seq<Container>)
    requires pos <= |s| && m <= |s| && StepDecided(AfterStep(s, settings, pos, stack), m)
    ensures pos < m && AfterStep(s[..m], settings, pos, stack) == AfterStep(s, settings, pos, stack)
    ensures StepFrom(AfterStep(s, settings, pos, stack), pos)
  {
    hide ValueStep, KeyStep;
    var p := SkipSpace(s, pos);
    if stack != [] && At(s, p, COMMA) {
      if stack[|stack| - 1] == InArray {
        ValueCut(s, settings, m, p + 1, stack);
      } else {
        KeyCut(s, m, p + 1, stack);
      }
    }
    SpaceCut(s, m, pos);
  }

  lemma ColonCut(s: Bytes, settings: Settings, m: nat, c: Config)
    requires c.pos <= |s| && m <= |s| && c.state == Colon && StepDecided(NextStep(s, settings, c), m)
    ensures c.pos < m && NextStep(s[..m], settings, c) == NextStep(s, settings, c) && StepFrom(NextStep(s, settings, c), c.pos)
  {
    hide ValueStep;
    var p := SkipSpace(s, c.pos);
    if At(s, p, COLON) {
      ValueCut(s, settings, m, p + 1, c.stack);
    }
    SpaceCut(s, m, c.pos);
  }

  lemma FirstCut(s: Bytes, settings: Settings, m: nat, c: Config)
    requires c.pos <= |s| && m <= |s| && (c.state == ArrayFirst || c.state == ObjectFirst)
    requires StepDecided(NextStep(s, settings, c), m)
    ensures c.pos < m && NextStep(s[..m], settings, c) == NextStep(s, settings, c) && StepFrom(NextStep(s, settings, c), c.pos)
  {
    hide ValueStep, KeyStep;
    var p := SkipSpace(s, c.pos);
    if c.state == ArrayFirst && !At(s, p, CLOSE_ARRAY) {
      ValueCut(s, settings, m, p, c.stack);
    } else if c.state == ObjectFirst && !At(s, p, CLOSE_OBJECT) {
      KeyCut(s, m, p, c.stack);
    }
    SpaceCut(s, m, c.pos);
  }

  /** A byte order mark that is not allowed is one character. */
  predicate CutAfterBom(s: Bytes, settings: Settings, m: nat) {
    HasBom(s) && !settings.ignoreBom ==> m >= 3
  }

  lemma StartCut(s: Bytes, settings: Settings, m: nat)
    requires m <= |s| && CutAfterBom(s, settings, m) && StepDecided(StartStep(s, settings), m)
    ensures 0 < m && StartStep(s[..m], settings) == StartStep(s, settings)
  {
    hide ValueStep;
    if HasBom(s) {
      if settings.ignoreBom {
        ValueCut(s, settings, m, 3, []);
      }
      assert s[..m][..3] == s[..3];
    } else {
      if m >= 3 {
        assert s[..m][..3] == s[..3];
      }
      ValueCut(s, settings, m, 0, []);
    }
  }

  /** A call that is decided by the bytes before `m` gives the same on those bytes alone. */
  lemma StepCut(s: Bytes, settings: Settings, m: nat, c: Config)
    requires Within(s, c) && m <= |s| && CutAfterBom(s, settings, m) && StepDecided(NextStep(s, settings, c), m)
    ensures c.pos < m && NextStep(s[..m], settings, c) == NextStep(s, settings, c) && StepFrom(NextStep(s, settings, c), c.pos)
  {
    hide ValueStep, KeyStep, AfterStep, StartStep, HasBom;
    match c.state
    case Start =>
      StepAdvances(s, settings, c);
      StartCut(s, settings, m);
    case ArrayFirst => FirstCut(s, settings, m, c);
    case ObjectFirst => FirstCut(s, settings, m, c);
    case Colon => ColonCut(s, settings, m, c);
    case AfterValue => AfterCut(s, settings, m, c.pos, c.stack);
    case Finished =>
  }

  /** An error that is not the end of the text is decided by the character at its offset: a text cut anywhere after that
      character gives the same events and the same error. */
  lemma {:induction false} ErrorIsDecided(s: Bytes, settings: Settings, m: nat, c: Config)
    requires Within(s, c) && m <= |s| && CutAfterBom(s, settings, m)
    requires var error := Drain(s, settings, c).error; error.Some? && error.value.kind != UnexpectedEof && error.value.offset < m
    ensures Within(s[..m], c) && Drain(s[..m], settings, c) == Drain(s, settings, c)
    ensures c.pos <= Drain(s, settings, c).error.value.offset
    decreases |s| - c.pos
  {
    hide NextStep, HasBom;
    var step := NextStep(s, settings, c);
    StepAdvances(s, settings, c);
    if step.Item? {
      ErrorIsDecided(s, settings, m, step.next);
    }
    StepCut(s, settings, m, c);
  }

  // ----- the byte order mark -----

  /** Without a byte order mark, or after it, the policy changes nothing. */
  lemma {:induction false} PolicyIsForBoms(s: Bytes, a: Settings, b: Settings, c: Config)
    requires Within(s, c) && (HasBom(s) ==> c.state != Start) && a.maxDepth == b.maxDepth
    ensures Drain(s, a, c) == Drain(s, b, c)
    decreases |s| - c.pos
  {
    hide NextStep, HasBom;
    SamePolicy(s, a, b, c);
    StepAdvances(s, a, c);
    var step := NextStep(s, a, c);
    if step.Item? {
      PolicyIsForBoms(s, a, b, step.next);
    }
  }

  lemma SamePolicy(s: Bytes, a: Settings, b: Settings, c: Config)
    requires Within(s, c) && (HasBom(s) ==> c.state != Start) && a.maxDepth == b.maxDepth
    ensures NextStep(s, a, c) == NextStep(s, b, c)
  {
    hide StringEnd, ScanNumber, LiteralTo, SkipSpace, KeyStep;
  }
}
