/** The strict JSON pull tokenizer: one event a call, from an explicit stack of open containers. */
module JsonTokenizer {
  import opened Options
  import opened JsonBytes
  import opened JsonNumbers
  import opened JsonStrings

  datatype ErrorKind =
    | UnexpectedEof | UnexpectedChar | InvalidNumber | InvalidLiteral | InvalidEscape
    | ControlCharInString | DepthExceeded | TrailingContent | BomNotAllowed

  /** What went wrong, and the first offending byte. */
  datatype Error = Error(kind: ErrorKind, offset: nat)

  datatype Container = InArray | InObject

  /** What the next call expects. */
  datatype State = Start | ArrayFirst | ObjectFirst | Colon | AfterValue | Finished

  datatype Str = Plain(raw: Bytes) | Escaped(raw: Bytes)

  datatype Event =
    | StartObject | EndObject | StartArray | EndArray
    | Key(str: Str) | String(str: Str) | Number(text: Bytes) | Bool(b: bool) | Null

  datatype Settings = Settings(ignoreBom: bool, maxDepth: nat)

  const BOM: Bytes := [0xEF, 0xBB, 0xBF]
  const TRUE: Bytes := [0x74, 0x72, 0x75, 0x65]
  const FALSE: Bytes := [0x66, 0x61, 0x6C, 0x73, 0x65]
  const NULL: Bytes := [0x6E, 0x75, 0x6C, 0x6C]
  const COMMA: bv8 := 0x2C
  const COLON: bv8 := 0x3A
  const OPEN_ARRAY: bv8 := 0x5B
  const CLOSE_ARRAY: bv8 := 0x5D
  const OPEN_OBJECT: bv8 := 0x7B
  const CLOSE_OBJECT: bv8 := 0x7D

  // ----- tokens -----

  predicate IsSpace(b: bv8) {
    b == 0x20 || b == 0x09 || b == 0x0A || b == 0x0D
  }

  function SkipSpace(s: Bytes, pos: nat): (end: nat)
    ensures pos <= end && (pos <= |s| ==> end <= |s|) && (end < |s| ==> !IsSpace(s[end]))
    ensures forall i :: pos <= i < end ==> i < |s| && IsSpace(s[i])
    decreases |s| - pos
  {
    if pos < |s| && IsSpace(s[pos]) then SkipSpace(s, pos + 1) else pos
  }

  /** At the end of the text every error is its end. */
  function ErrorHere(s: Bytes, pos: nat, kind: ErrorKind): Error {
    Error(if pos >= |s| then UnexpectedEof else kind, pos)
  }

  datatype Lexed = To(end: nat) | Wrong(error: Error)

  function HexEnd(s: Bytes, pos: nat, k: nat): Lexed
    decreases k
  {
    if k == 0 then To(pos)
    else if pos < |s| && HexDigit(s[pos]).Some? then HexEnd(s, pos + 1, k - 1)
    else Wrong(ErrorHere(s, pos, InvalidEscape))
  }

  /** The escape whose backslash is at `pos`. */
  function EscapeEnd(s: Bytes, pos: nat): Lexed {
    if pos + 1 < |s| && SimpleEscape(s[pos + 1]).Some? then To(pos + 2)
    else if At(s, pos + 1, LETTER_U) then HexEnd(s, pos + 2, 4)
    else Wrong(ErrorHere(s, pos + 1, InvalidEscape))
  }

  lemma {:induction false} HexEnds(s: Bytes, pos: nat, k: nat)
    requires pos <= |s|
    ensures HexEnd(s, pos, k).To? ==> HexEnd(s, pos, k).end == pos + k <= |s|
    ensures HexEnd(s, pos, k).Wrong? ==> pos <= HexEnd(s, pos, k).error.offset <= |s|
    decreases k
  {
    if k > 0 && pos < |s| {
      HexEnds(s, pos + 1, k - 1);
    }
  }

  lemma EscapeEnds(s: Bytes, pos: nat)
    requires pos < |s|
    ensures EscapeEnd(s, pos).To? ==> pos < EscapeEnd(s, pos).end <= |s|
    ensures EscapeEnd(s, pos).Wrong? ==> pos < EscapeEnd(s, pos).error.offset <= |s|
  {
    if pos + 2 <= |s| {
      HexEnds(s, pos + 2, 4);
    }
  }

  /** Where the string that goes on at `pos` has its closing quote. */
  function StringEnd(s: Bytes, pos: nat): (r: Lexed)
    requires pos <= |s|
    ensures r.To? ==> pos <= r.end < |s| && s[r.end] == QUOTE
    ensures r.Wrong? ==> pos <= r.error.offset <= |s|
    decreases |s| - pos
  {
    if pos == |s| then Wrong(Error(UnexpectedEof, pos))
    else if s[pos] == QUOTE then To(pos)
    else if s[pos] == BACKSLASH then
      EscapeEnds(s, pos);
      var r := EscapeEnd(s, pos);
      if r.To? then StringEnd(s, r.end) else r
    else if s[pos] <= 0x1F then Wrong(Error(ControlCharInString, pos))
    else StringEnd(s, pos + 1)
  }

  function StrOf(raw: Bytes): Str {
    if BACKSLASH in raw then Escaped(raw) else Plain(raw)
  }

  /** The rest of a literal from its `k`-th byte on. */
  function LiteralTo(s: Bytes, pos: nat, literal: Bytes, k: nat): Lexed
    requires k <= |literal|
    decreases |literal| - k
  {
    if k == |literal| then To(pos + k)
    else if At(s, pos + k, literal[k]) then LiteralTo(s, pos, literal, k + 1)
    else Wrong(ErrorHere(s, pos + k, InvalidLiteral))
  }

  // ----- one call -----

  datatype Config = Config(pos: nat, stack: seq<Container>, state: State)

  /** An event and where the tokenizer is then, the end of the text, or an error. */
  datatype Step = Item(event: Event, next: Config) | Done | Fail(error: Error)

  function OpenStep(settings: Settings, pos: nat, stack: seq<Container>, container: Container): Step {
    if |stack| >= settings.maxDepth then Fail(Error(DepthExceeded, pos))
    else if container == InArray then Item(StartArray, Config(pos + 1, stack + [InArray], ArrayFirst))
    else Item(StartObject, Config(pos + 1, stack + [InObject], ObjectFirst))
  }

  function CloseStep(pos: nat, stack: seq<Container>): Step {
    if stack == [] then Fail(Error(UnexpectedChar, pos))
    else
      var n := |stack| - 1;
      Item(if stack[n] == InArray then EndArray else EndObject, Config(pos + 1, stack[..n], AfterValue))
  }

  function LiteralStep(s: Bytes, pos: nat, stack: seq<Container>, literal: Bytes, event: Event): Step {
    var r := LiteralTo(s, pos, literal, 0);
    if r.To? then Item(event, Config(r.end, stack, AfterValue)) else Fail(r.error)
  }

  /** A value that begins at `p`, with the white space before it read. */
  function ValueAt(s: Bytes, settings: Settings, p: nat, stack: seq<Container>): Step
    requires p <= |s|
  {
    if p == |s| then Fail(Error(UnexpectedEof, p))
    else if s[p] == OPEN_ARRAY then OpenStep(settings, p, stack, InArray)
    else if s[p] == OPEN_OBJECT then OpenStep(settings, p, stack, InObject)
    else if s[p] == QUOTE then
      var r := StringEnd(s, p + 1);
      if r.To? then Item(String(StrOf(s[p + 1..r.end])), Config(r.end + 1, stack, AfterValue)) else Fail(r.error)
    else if s[p] == MINUS || IsDigit(s[p]) then
      var r := ScanNumber(s, p);
      ScanBounds(s, p);
      if r.End? then Item(Number(s[p..r.pos]), Config(r.pos, stack, AfterValue))
      else Fail(ErrorHere(s, r.pos, InvalidNumber))
    else if s[p] == 0x74 then LiteralStep(s, p, stack, TRUE, Bool(true))
    else if s[p] == 0x66 then LiteralStep(s, p, stack, FALSE, Bool(false))
    else if s[p] == 0x6E then LiteralStep(s, p, stack, NULL, Null)
    else Fail(Error(UnexpectedChar, p))
  }

  function ValueStep(s: Bytes, settings: Settings, pos: nat, stack: seq<Container>): Step
    requires pos <= |s|
  {
    ValueAt(s, settings, SkipSpace(s, pos), stack)
  }

  function KeyStep(s: Bytes, pos: nat, stack: seq<Container>): Step
    requires pos <= |s|
  {
    var p := SkipSpace(s, pos);
    if !At(s, p, QUOTE) then Fail(ErrorHere(s, p, UnexpectedChar))
    else
      var r := StringEnd(s, p + 1);
      if r.To? then Item(Key(StrOf(s[p + 1..r.end])), Config(r.end + 1, stack, Colon)) else Fail(r.error)
  }

  function AfterStep(s: Bytes, settings: Settings, pos: nat, stack: seq<Container>): Step
    requires pos <= |s|
  {
    var p := SkipSpace(s, pos);
    if stack == [] then if p < |s| then Fail(Error(TrailingContent, p)) else Done
    else
      var container := stack[|stack| - 1];
      if At(s, p, COMMA) then
        if container == InArray then ValueStep(s, settings, p + 1, stack) else KeyStep(s, p + 1, stack)
      else if At(s, p, if container == InArray then CLOSE_ARRAY else CLOSE_OBJECT) then CloseStep(p, stack)
      else Fail(ErrorHere(s, p, UnexpectedChar))
  }

  predicate HasBom(s: Bytes) {
    |s| >= 3 && s[..3] == BOM
  }

  function StartStep(s: Bytes, settings: Settings): Step {
    if HasBom(s) then
      if settings.ignoreBom then ValueStep(s, settings, 3, []) else Fail(Error(BomNotAllowed, 0))
    else ValueStep(s, settings, 0, [])
  }

  function NextStep(s: Bytes, settings: Settings, c: Config): Step
    requires c.pos <= |s|
  {
    match c.state
    case Start => StartStep(s, settings)
    case ArrayFirst =>
      var p := SkipSpace(s, c.pos);
      if At(s, p, CLOSE_ARRAY) then CloseStep(p, c.stack) else ValueStep(s, settings, p, c.stack)
    case ObjectFirst =>
      var p := SkipSpace(s, c.pos);
      if At(s, p, CLOSE_OBJECT) then CloseStep(p, c.stack) else KeyStep(s, p, c.stack)
    case Colon =>
      var p := SkipSpace(s, c.pos);
      if At(s, p, COLON) then ValueStep(s, settings, p + 1, c.stack) else Fail(ErrorHere(s, p, UnexpectedChar))
    case AfterValue => AfterStep(s, settings, c.pos, c.stack)
    case Finished => Done
  }

  /** An event is read from at least one byte. */
  predicate Advances(s: Bytes, pos: nat, step: Step) {
    step.Item? ==> pos < step.next.pos <= |s| && step.next.state != Start
  }

  lemma {:induction false} LiteralAdvances(s: Bytes, pos: nat, literal: Bytes, k: nat)
    requires k <= |literal| && pos + k <= |s|
    ensures LiteralTo(s, pos, literal, k).To? ==> LiteralTo(s, pos, literal, k).end == pos + |literal| <= |s|
    ensures LiteralTo(s, pos, literal, k).Wrong? ==> pos <= LiteralTo(s, pos, literal, k).error.offset <= |s|
    decreases |literal| - k
  {
    if k < |literal| && At(s, pos + k, literal[k]) {
      LiteralAdvances(s, pos, literal, k + 1);
    }
  }

  lemma ValueAdvances(s: Bytes, settings: Settings, pos: nat, stack: seq<Container>)
    requires pos <= |s|
    ensures Advances(s, pos, ValueStep(s, settings, pos, stack))
  {
    hide ScanNumber, StringEnd, SkipSpace, LiteralTo;
    var p := SkipSpace(s, pos);
    if p < |s| {
      ScanBounds(s, p);
      LiteralAdvances(s, p, TRUE, 0);
      LiteralAdvances(s, p, FALSE, 0);
      LiteralAdvances(s, p, NULL, 0);
    }
  }

  lemma StepAdvances(s: Bytes, settings: Settings, c: Config)
    requires c.pos <= |s| && (c.state == Start ==> c.pos == 0)
    ensures Advances(s, c.pos, NextStep(s, settings, c))
  {
    hide ValueStep, StringEnd, SkipSpace;
    var p := SkipSpace(s, c.pos);
    ValueAdvances(s, settings, p, c.stack);
    ValueAdvances(s, settings, c.pos, c.stack);
    if p < |s| {
      ValueAdvances(s, settings, p + 1, c.stack);
    }
    if c.state == Start {
      ValueAdvances(s, settings, if HasBom(s) then 3 else 0, []);
    }
  }

  /** What one call is measured against: its result, and where it leaves the tokenizer. */
  predicate Follows(step: Step, r: Result, c: Config) {
    match step
    case Item(event, next) => r == Ok(Some(event)) && c == next
    case Done => r == Ok(None)
    case Fail(error) => r == Err(error)
  }

  datatype Result = Ok(event: Option<Event>) | Err(error: Error)

  // ----- the tokenizer -----

  class Tokenizer {
    const input: Bytes
    const settings: Settings
    var pos: nat
    var stack: seq<Container>
    var state: State

    constructor (input: Bytes, settings: Settings)
      ensures this.input == input && this.settings == settings && At() == Config(0, [], Start)
    {
      this.input := input;
      this.settings := settings;
      pos := 0;
      stack := [];
      state := Start;
    }

    function At(): Config
      reads this
    {
      Config(pos, stack, state)
    }

    predicate Valid()
      reads this
    {
      pos <= |input| && (state == Start ==> pos == 0 && stack == [])
    }

    method SkipWhitespace()
      requires pos <= |input|
      modifies this`pos
      ensures pos == SkipSpace(input, old(pos)) <= |input|
    {
      while pos < |input| && IsSpace(input[pos])
        invariant pos <= |input| && SkipSpace(input, pos) == SkipSpace(input, old(pos))
        decreases |input| - pos
      {
        pos := pos + 1;
      }
    }

    /** The escape whose backslash is the current byte. */
    method ReadEscape() returns (error: Option<Error>)
      requires JsonNumbers.At(input, pos, BACKSLASH)
      modifies this`pos
      ensures pos <= |input|
      ensures error.None? ==> EscapeEnd(input, old(pos)) == To(pos)
      ensures error.Some? ==> EscapeEnd(input, old(pos)) == Wrong(error.value)
    {
      hide HexDigit, SimpleEscape;
      EscapeEnds(input, pos);
      pos := pos + 1;
      if pos < |input| && SimpleEscape(input[pos]).Some? {
        pos := pos + 1;
        return None;
      }
      if pos < |input| && input[pos] == LETTER_U {
        pos := pos + 1;
        for k := 0 to 4
          invariant pos <= |input| && HexEnd(input, old(pos) + 2, 4) == HexEnd(input, pos, 4 - k)
        {
          if !(pos < |input| && HexDigit(input[pos]).Some?) {
            return Some(ErrorHere(input, pos, InvalidEscape));
          }
          pos := pos + 1;
        }
        return None;
      }
      error := Some(ErrorHere(input, pos, InvalidEscape));
    }

    /** The string whose opening quote is the current byte. */
    method ReadString() returns (str: Str, error: Option<Error>)
      requires JsonNumbers.At(input, pos, QUOTE)
      modifies this`pos
      ensures pos <= |input|
      ensures error.None? ==>
        var r := StringEnd(input, old(pos) + 1);
        r.To? && pos == r.end + 1 && str == StrOf(input[old(pos) + 1..r.end])
      ensures error.Some? ==> StringEnd(input, old(pos) + 1) == Wrong(error.value)
    {
      hide EscapeEnd;
      pos := pos + 1;
      var start := pos;
      var escaped := false;
      str := Plain([]);
      while true
        invariant start == old(pos) + 1 <= pos <= |input|
        invariant StringEnd(input, start) == StringEnd(input, pos)
        invariant escaped <==> BACKSLASH in input[start..pos]
        decreases |input| - pos
      {
        if pos == |input| {
          return str, Some(Error(UnexpectedEof, pos));
        } else if input[pos] == QUOTE {
          var raw := input[start..pos];
          pos := pos + 1;
          return if escaped then Escaped(raw) else Plain(raw), None;
        } else if input[pos] == BACKSLASH {
          ghost var at := pos;
          escaped := true;
          EscapeEnds(input, pos);
          error := ReadEscape();
          if error.Some? {
            return;
          }
          assert input[start..pos][at - start] == BACKSLASH;
        } else if input[pos] <= 0x1F {
          return str, Some(Error(ControlCharInString, pos));
        } else {
          var end := SkipPlain(input, pos);
          PlainMoves(input, pos, end);
          PlainKeeps(input, start, pos, end);
          pos := end;
        }
      }
    }

    method ReadNumber() returns (text: Bytes, error: Option<Error>)
      requires pos < |input|
      modifies this`pos
      ensures pos <= |input|
      ensures error.None? ==> ScanNumber(input, old(pos)) == End(pos) && text == input[old(pos)..pos]
      ensures error.Some? ==>
        var r := ScanNumber(input, old(pos)); r.Bad? && error.value == ErrorHere(input, r.pos, InvalidNumber)
    {
      hide ScanNumber;
      var r := ScanAll(input, pos);
      ScanBounds(input, pos);
      if r.Bad? {
        pos := r.pos;
        return [], Some(ErrorHere(input, pos, InvalidNumber));
      }
      text := input[pos..r.pos];
      pos := r.pos;
      error := None;
    }

    method ReadLiteral(literal: Bytes) returns (error: Option<Error>)
      requires pos < |input|
      modifies this`pos
      ensures pos <= |input|
      ensures error.None? ==> LiteralTo(input, old(pos), literal, 0) == To(pos)
      ensures error.Some? ==> LiteralTo(input, old(pos), literal, 0) == Wrong(error.value)
    {
      for k := 0 to |literal|
        invariant pos == old(pos) + k <= |input|
        invariant LiteralTo(input, old(pos), literal, 0) == LiteralTo(input, old(pos), literal, k)
      {
        if !(pos < |input| && input[pos] == literal[k]) {
          return Some(ErrorHere(input, pos, InvalidLiteral));
        }
        pos := pos + 1;
      }
      error := None;
    }

    method Open(container: Container) returns (r: Result)
      requires pos < |input|
      modifies this
      ensures pos <= |input|
      ensures Follows(OpenStep(settings, old(pos), old(stack), container), r, At())
    {
      if |stack| >= settings.maxDepth {
        return Err(Error(DepthExceeded, pos));
      }
      stack := stack + [container];
      pos := pos + 1;
      match container
      case InArray =>
        state := ArrayFirst;
        r := Ok(Some(StartArray));
      case InObject =>
        state := ObjectFirst;
        r := Ok(Some(StartObject));
    }

    method Close() returns (r: Result)
      requires pos < |input|
      modifies this
      ensures pos <= |input|
      ensures Follows(CloseStep(old(pos), old(stack)), r, At())
    {
      if stack == [] {
        return Err(Error(UnexpectedChar, pos));
      }
      var event := if stack[|stack| - 1] == InArray then EndArray else EndObject;
      stack := stack[..|stack| - 1];
      pos := pos + 1;
      state := AfterValue;
      r := Ok(Some(event));
    }

    /** One value, or the opening bracket of one. */
    method Value() returns (r: Result)
      requires pos <= |input|
      modifies this
      ensures pos <= |input|
      ensures Follows(ValueStep(input, settings, old(pos), old(stack)), r, At())
    {
      hide StringEnd, ScanNumber, LiteralTo, SkipSpace, IsDigit;
      SkipWhitespace();
      if pos == |input| {
        return Err(ErrorHere(input, pos, UnexpectedChar));
      }
      var b := input[pos];
      var event, error;
      if b == OPEN_ARRAY {
        r := Open(InArray);
        return;
      } else if b == OPEN_OBJECT {
        r := Open(InObject);
        return;
      } else if b == QUOTE {
        var str;
        str, error := ReadString();
        event := String(str);
      } else if b == MINUS || IsDigit(b) {
        var text;
        text, error := ReadNumber();
        event := Number(text);
      } else if b == 0x74 {
        error := ReadLiteral(TRUE);
        event := Bool(true);
      } else if b == 0x66 {
        error := ReadLiteral(FALSE);
        event := Bool(false);
      } else if b == 0x6E {
        error := ReadLiteral(NULL);
        event := Null;
      } else {
        return Err(ErrorHere(input, pos, UnexpectedChar));
      }
      if error.Some? {
        return Err(error.value);
      }
      state := AfterValue;
      r := Ok(Some(event));
    }

    method ReadKey() returns (r: Result)
      requires pos <= |input|
      modifies this
      ensures pos <= |input|
      ensures Follows(KeyStep(input, old(pos), old(stack)), r, At())
    {
      hide StringEnd, SkipSpace;
      SkipWhitespace();
      if !(pos < |input| && input[pos] == QUOTE) {
        return Err(ErrorHere(input, pos, UnexpectedChar));
      }
      var str, error := ReadString();
      if error.Some? {
        return Err(error.value);
      }
      state := Colon;
      r := Ok(Some(Key(str)));
    }

    method ReadAfterValue() returns (r: Result)
      requires pos <= |input|
      modifies this
      ensures pos <= |input|
      ensures Follows(AfterStep(input, settings, old(pos), old(stack)), r, At())
    {
      hide ValueStep, KeyStep, SkipSpace;
      SkipWhitespace();
      if stack == [] {
        if pos < |input| {
          return Err(Error(TrailingContent, pos));
        }
        return Ok(None);
      }
      var container := stack[|stack| - 1];
      if pos < |input| && input[pos] == COMMA {
        pos := pos + 1;
        match container
        case InArray =>
          r := Value();
        case InObject =>
          r := ReadKey();
      } else if pos < |input| && input[pos] == (if container == InArray then CLOSE_ARRAY else CLOSE_OBJECT) {
        r := Close();
      } else {
        r := Err(ErrorHere(input, pos, UnexpectedChar));
      }
    }

    method Begin() returns (r: Result)
      requires pos == 0 && stack == []
      modifies this
      ensures pos <= |input|
      ensures Follows(StartStep(input, settings), r, At())
    {
      hide ValueStep;
      if HasBom(input) {
        if !settings.ignoreBom {
          return Err(Error(BomNotAllowed, pos));
        }
        pos := 3;
      }
      r := Value();
    }

    /** One event, or the first error; after an error or the end, nothing more. */
    method Next() returns (r: Result)
      requires Valid()
      modifies this
      ensures Valid()
      ensures match NextStep(input, settings, old(At()))
              case Item(event, next) => r == Ok(Some(event)) && At() == next
              case Done => r == Ok(None) && state == Finished
              case Fail(error) => r == Err(error) && state == Finished
    {
      hide ValueStep, KeyStep, AfterStep, StartStep, SkipSpace;
      StepAdvances(input, settings, At());
      match state {
        case Finished =>
          return Ok(None);
        case Start =>
          r := Begin();
        case ArrayFirst =>
          SkipWhitespace();
          if pos < |input| && input[pos] == CLOSE_ARRAY {
            r := Close();
          } else {
            r := Value();
          }
        case ObjectFirst =>
          SkipWhitespace();
          if pos < |input| && input[pos] == CLOSE_OBJECT {
            r := Close();
          } else {
            r := ReadKey();
          }
        case Colon =>
          SkipWhitespace();
          if pos < |input| && input[pos] == COLON {
            pos := pos + 1;
            r := Value();
          } else {
            r := Err(ErrorHere(input, pos, UnexpectedChar));
          }
        case AfterValue =>
          r := ReadAfterValue();
      }
      if !(r.Ok? && r.event.Some?) {
        state := Finished;
      }
    }
  }

  /** Plain bytes move the scan of a string on. */
  lemma {:induction false} PlainMoves(s: Bytes, pos: nat, end: nat)
    requires pos <= end <= |s| && forall i :: pos <= i < end ==> !Special(s[i])
    ensures StringEnd(s, pos) == StringEnd(s, end)
    decreases end - pos
  {
    if pos < end {
      PlainMoves(s, pos + 1, end);
    }
  }

  lemma PlainKeeps(s: Bytes, start: nat, pos: nat, end: nat)
    requires start <= pos <= end <= |s| && forall i :: pos <= i < end ==> !Special(s[i])
    ensures BACKSLASH in s[start..pos] <==> BACKSLASH in s[start..end]
  {
    assert s[start..end] == s[start..pos] + s[pos..end];
    assert BACKSLASH !in s[pos..end];
  }
}
