/** The JSON writer: calls in document order, each either appending to the text or refused with nothing written. */
module JsonWriter {
  import opened Options
  import opened JsonBytes
  import opened JsonNumbers
  import opened JsonStrings
  import opened JsonTokenizer
  import opened JsonEscapes
  import opened JsonSpellings

  datatype Layout = Compact | Indented

  datatype WriteError =
    | NotANumber | ValueWithoutKey | UnexpectedKey | KeyWithoutValue | MismatchedClose
    | SecondTopLevelValue | StringOpen | NoStringOpen | Incomplete

  /** An open container: whether something in it has begun, and whether a key waits for its value. */
  datatype Frame = Frame(container: Container, hasMembers: bool, awaitingValue: bool)

  /** What an open string will be when it ends. */
  datatype Role = KeyRole | ValueRole

  type Encoding = Option<Scalar -> bool>

  datatype Writing = Writing(out: Bytes, stack: seq<Frame>, role: Option<Role>, complete: bool, encodable: Encoding)

  datatype Outcome = Written(next: Writing) | Refused(error: WriteError)

  // ----- layout -----

  function Spaces(n: nat): Bytes {
    if n == 0 then [] else Spaces(n - 1) + [0x20, 0x20]
  }

  /** Before an element, a member or a closing bracket. */
  function LineBreak(layout: Layout, depth: nat): Bytes {
    if layout == Indented then [0x0A] + Spaces(depth) else []
  }

  function AfterKey(layout: Layout): Bytes {
    if layout == Indented then [COLON, 0x20] else [COLON]
  }

  function Comma(hasMembers: bool): Bytes {
    if hasMembers then [COMMA] else []
  }

  // ----- calls -----

  function Top(stack: seq<Frame>): Frame
    requires stack != []
  {
    stack[|stack| - 1]
  }

  function Below(stack: seq<Frame>): seq<Frame>
    requires stack != []
  {
    stack[..|stack| - 1]
  }

  /** Why a value may not start. */
  function CheckValue(w: Writing): Option<WriteError> {
    if w.role.Some? then Some(StringOpen)
    else if w.stack == [] then if w.complete then Some(SecondTopLevelValue) else None
    else if Top(w.stack).container == InArray || Top(w.stack).awaitingValue then None
    else Some(ValueWithoutKey)
  }

  /** What is written before a value. */
  function Gap(layout: Layout, stack: seq<Frame>): Bytes {
    if stack == [] || Top(stack).container == InObject then []
    else Comma(Top(stack).hasMembers) + LineBreak(layout, |stack|)
  }

  /** The open containers once a value in the innermost has begun. */
  function Begun(stack: seq<Frame>): seq<Frame> {
    if stack == [] then []
    else if Top(stack).container == InArray then Below(stack) + [Top(stack).(hasMembers := true)]
    else Below(stack) + [Top(stack).(awaitingValue := false)]
  }

  function BeginValue(layout: Layout, w: Writing): Writing {
    w.(out := w.out + Gap(layout, w.stack), stack := Begun(w.stack))
  }

  function EndValue(w: Writing): Writing {
    if w.stack == [] then w.(complete := true) else w
  }

  function Push(w: Writing, text: Bytes): Writing {
    w.(out := w.out + text)
  }

  function ScalarStep(layout: Layout, w: Writing, text: Bytes): Outcome {
    if CheckValue(w).Some? then Refused(CheckValue(w).value)
    else Written(EndValue(Push(BeginValue(layout, w), text)))
  }

  function NumberStep(layout: Layout, w: Writing, text: Bytes, isNumber: bool): Outcome {
    if CheckValue(w).Some? then Refused(CheckValue(w).value)
    else if !isNumber then Refused(NotANumber)
    else ScalarStep(layout, w, text)
  }

  function BeginStringStep(layout: Layout, w: Writing): Outcome {
    if CheckValue(w).Some? then Refused(CheckValue(w).value)
    else Written(Push(BeginValue(layout, w), [QUOTE]).(role := Some(ValueRole)))
  }

  function BeginKeyStep(layout: Layout, w: Writing): Outcome {
    if w.role.Some? then Refused(StringOpen)
    else if w.stack == [] || Top(w.stack).container != InObject || Top(w.stack).awaitingValue then Refused(UnexpectedKey)
    else
      var frames := Below(w.stack) + [Frame(InObject, true, true)];
      var gap := Comma(Top(w.stack).hasMembers) + LineBreak(layout, |w.stack|);
      Written(Push(w, gap + [QUOTE]).(stack := frames, role := Some(KeyRole)))
  }

  predicate Encodes(encodable: Encoding, c: Scalar) {
    encodable.None? || encodable.value(c)
  }

  /** Which characters the output's encoding has. */
  ghost function Has(encodable: Encoding): Scalar -> bool {
    match encodable
    case None => (c: Scalar) => true
    case Some(p) => p
  }

  lemma HasIt(encodable: Encoding, c: Scalar)
    ensures Has(encodable)(c) <==> Encodes(encodable, c)
  {
  }

  /** A text as the escaping writes it. */
  function Glyphs(t: Text, encodable: Encoding): seq<Glyph> {
    if t == [] then [] else [Glyph(t[0], Encodes(encodable, t[0]))] + Glyphs(t[1..], encodable)
  }

  function TextStep(w: Writing, t: Text): Outcome {
    if w.role.None? then Refused(NoStringOpen) else Written(Push(w, Spelled(Glyphs(t, w.encodable))))
  }

  function EndStringStep(layout: Layout, w: Writing): Outcome {
    if w.role.None? then Refused(NoStringOpen)
    else
      var closed := Push(w, [QUOTE]).(role := None);
      Written(if w.role.value == KeyRole then Push(closed, AfterKey(layout)) else EndValue(closed))
  }

  /** A string that has begun, written whole. */
  function WholeStep(layout: Layout, begun: Outcome, t: Text): Outcome {
    if begun.Refused? then begun
    else
      var text := TextStep(begun.next, t);
      if text.Refused? then text else EndStringStep(layout, text.next)
  }

  function StartStep(layout: Layout, w: Writing, container: Container): Outcome {
    if CheckValue(w).Some? then Refused(CheckValue(w).value)
    else
      var begun := Push(BeginValue(layout, w), [if container == InArray then OPEN_ARRAY else OPEN_OBJECT]);
      Written(begun.(stack := begun.stack + [Frame(container, false, false)]))
  }

  function EndStep(layout: Layout, w: Writing, container: Container): Outcome {
    if w.role.Some? then Refused(StringOpen)
    else if w.stack == [] || Top(w.stack).container != container then Refused(MismatchedClose)
    else if Top(w.stack).awaitingValue then Refused(KeyWithoutValue)
    else
      var gap := if Top(w.stack).hasMembers then LineBreak(layout, |w.stack| - 1) else [];
      var bracket := [if container == InArray then CLOSE_ARRAY else CLOSE_OBJECT];
      Written(EndValue(Push(w, gap + bracket).(stack := Below(w.stack))))
  }

  function FinishStep(w: Writing): Option<WriteError> {
    if w.role.Some? || w.stack != [] || !w.complete then Some(Incomplete) else None
  }

  datatype Call =
    | WriteNull | WriteBool(b: bool) | WriteNumber(text: Bytes) | WriteString(t: Text) | WriteKey(t: Text)
    | BeginString | BeginKey | StringText(t: Text) | EndString
    | StartContainer(container: Container) | EndContainer(container: Container)
    | WithEncodable(p: Scalar -> bool)

  /** What a call does. */
  ghost function Apply(layout: Layout, w: Writing, call: Call): Outcome {
    match call
    case WriteNull => ScalarStep(layout, w, NULL)
    case WriteBool(b) => ScalarStep(layout, w, if b then TRUE else FALSE)
    case WriteNumber(text) => NumberStep(layout, w, text, IsNumber(text))
    case WriteString(t) => WholeStep(layout, BeginStringStep(layout, w), t)
    case WriteKey(t) => WholeStep(layout, BeginKeyStep(layout, w), t)
    case BeginString => BeginStringStep(layout, w)
    case BeginKey => BeginKeyStep(layout, w)
    case StringText(t) => TextStep(w, t)
    case EndString => EndStringStep(layout, w)
    case StartContainer(container) => StartStep(layout, w, container)
    case EndContainer(container) => EndStep(layout, w, container)
    case WithEncodable(p) => Written(w.(encodable := Some(p)))
  }

  const NOTHING: Writing := Writing([], [], None, false, None)

  /** What a call is measured against: it reports the refusal and changes nothing, or leaves the writer as it should. */
  ghost predicate Does(outcome: Outcome, error: Option<WriteError>, was: Writing, now: Writing) {
    match outcome
    case Written(next) => error == None && now == next
    case Refused(e) => error == Some(e) && now == was
  }

  // ----- the writer -----

  class Writer {
    const layout: Layout
    var out: Bytes
    var encodable: Encoding
    var stack: seq<Frame>
    var role: Option<Role>
    var complete: bool

    constructor (layout: Layout)
      ensures this.layout == layout && At() == NOTHING
    {
      this.layout := layout;
      out := [];
      encodable := None;
      stack := [];
      role := None;
      complete := false;
    }

    function At(): Writing
      reads this
    {
      Writing(out, stack, role, complete, encodable)
    }

    method Encode(p: Scalar -> bool)
      modifies this
      ensures Apply(layout, old(At()), WithEncodable(p)) == Written(At())
    {
      encodable := Some(p);
    }

    /** The text, if it is one whole value. */
    method Finish() returns (text: Bytes, error: Option<WriteError>)
      ensures error == FinishStep(At()) && text == out
    {
      error := None;
      text := out;
      if role.Some? || stack != [] || !complete {
        error := Some(Incomplete);
      }
    }

    method Null() returns (error: Option<WriteError>)
      modifies this
      ensures Does(Apply(layout, old(At()), WriteNull), error, old(At()), At())
    {
      hide Gap, Begun;
      error := Check();
      if error.None? {
        WriteScalar(NULL);
      }
    }

    method Boolean(value: bool) returns (error: Option<WriteError>)
      modifies this
      ensures Does(Apply(layout, old(At()), WriteBool(value)), error, old(At()), At())
    {
      hide Gap, Begun;
      error := Check();
      if error.None? {
        WriteScalar(if value then TRUE else FALSE);
      }
    }

    method Number(text: Bytes) returns (error: Option<WriteError>)
      modifies this
      ensures Does(Apply(layout, old(At()), WriteNumber(text)), error, old(At()), At())
    {
      hide Gap, Begun, IsNumber;
      error := Check();
      if error.Some? {
        return;
      }
      var isNumber := IsNumberText(text);
      if !isNumber {
        return Some(NotANumber);
      }
      WriteScalar(text);
    }

    method String(t: Text) returns (error: Option<WriteError>)
      modifies this
      ensures Does(Apply(layout, old(At()), WriteString(t)), error, old(At()), At())
    {
      hide BeginStringStep, Spelled, Glyphs;
      BegunString(layout, At());
      error := OpenString();
      if error.None? {
        PushEscaped(t);
        EndOpenString();
      }
    }

    method Key(t: Text) returns (error: Option<WriteError>)
      modifies this
      ensures Does(Apply(layout, old(At()), WriteKey(t)), error, old(At()), At())
    {
      hide BeginKeyStep, Spelled, Glyphs;
      BegunKey(layout, At());
      error := OpenKey();
      if error.None? {
        PushEscaped(t);
        EndOpenString();
      }
    }

    method OpenString() returns (error: Option<WriteError>)
      modifies this
      ensures Does(Apply(layout, old(At()), BeginString), error, old(At()), At())
    {
      hide Gap, Begun;
      error := Check();
      if error.None? {
        PushGap();
        out := out + [QUOTE];
        role := Some(ValueRole);
      }
    }

    method OpenKey() returns (error: Option<WriteError>)
      modifies this
      ensures Does(Apply(layout, old(At()), BeginKey), error, old(At()), At())
    {
      hide LineBreak;
      if role.Some? {
        return Some(StringOpen);
      }
      if stack == [] {
        return Some(UnexpectedKey);
      }
      var depth, n := |stack|, |stack| - 1;
      if stack[n].container != InObject || stack[n].awaitingValue {
        return Some(UnexpectedKey);
      }
      ghost var comma := Comma(stack[n].hasMembers);
      if stack[n].hasMembers {
        out := out + [COMMA];
      }
      assert out == old(out) + comma;
      stack := stack[n := stack[n].(hasMembers := true, awaitingValue := true)];
      PushLineBreak(depth);
      assert out == old(out) + (comma + LineBreak(layout, depth));
      out := out + [QUOTE];
      assert out == old(out) + (comma + LineBreak(layout, depth) + [QUOTE]);
      role := Some(KeyRole);
      error := None;
    }

    method Text(t: Text) returns (error: Option<WriteError>)
      modifies this
      ensures Does(Apply(layout, old(At()), StringText(t)), error, old(At()), At())
      ensures error.None? <==> old(role).Some?
      ensures error.None? ==> |old(out)| <= |out| && out[..|old(out)|] == old(out)
                              && TextWrittenFor(out[|old(out)|..], t, Has(old(encodable)))
    {
      hide TextWrittenFor, Spelled, Glyphs, Has;
      if role.None? {
        return Some(NoStringOpen);
      }
      PushEscaped(t);
      error := None;
    }

    method CloseString() returns (error: Option<WriteError>)
      modifies this
      ensures Does(Apply(layout, old(At()), EndString), error, old(At()), At())
    {
      if role.None? {
        return Some(NoStringOpen);
      }
      EndOpenString();
      error := None;
    }

    method Start(container: Container) returns (error: Option<WriteError>)
      modifies this
      ensures Does(Apply(layout, old(At()), StartContainer(container)), error, old(At()), At())
    {
      hide Gap, Begun;
      error := Check();
      if error.None? {
        PushGap();
        out := out + [if container == InArray then OPEN_ARRAY else OPEN_OBJECT];
        stack := stack + [Frame(container, false, false)];
      }
    }

    method End(container: Container) returns (error: Option<WriteError>)
      modifies this
      ensures Does(Apply(layout, old(At()), EndContainer(container)), error, old(At()), At())
    {
      hide LineBreak;
      if role.Some? {
        return Some(StringOpen);
      }
      if stack == [] {
        return Some(MismatchedClose);
      }
      var frame := stack[|stack| - 1];
      if frame.container != container {
        return Some(MismatchedClose);
      }
      if frame.awaitingValue {
        return Some(KeyWithoutValue);
      }
      ghost var gap := if frame.hasMembers then LineBreak(layout, |stack| - 1) else [];
      ghost var bracket := [if container == InArray then CLOSE_ARRAY else CLOSE_OBJECT];
      stack := stack[..|stack| - 1];
      if frame.hasMembers {
        PushLineBreak(|stack|);
      }
      out := out + [if container == InArray then CLOSE_ARRAY else CLOSE_OBJECT];
      assert out == old(out) + (gap + bracket);
      EndWholeValue();
      error := None;
    }

    method Check() returns (error: Option<WriteError>)
      ensures error == CheckValue(At())
    {
      if role.Some? {
        return Some(StringOpen);
      }
      if stack == [] {
        return if complete then Some(SecondTopLevelValue) else None;
      }
      var frame := stack[|stack| - 1];
      match frame.container
      case InArray => return None;
      case InObject => return if frame.awaitingValue then None else Some(ValueWithoutKey);
    }

    method PushGap()
      modifies this`out, this`stack
      ensures At() == BeginValue(layout, old(At()))
    {
      hide LineBreak;
      var depth := |stack|;
      if depth == 0 {
        assert out + [] == out;
        return;
      }
      var frame := stack[depth - 1];
      match frame.container
      case InArray =>
        ghost var comma := Comma(frame.hasMembers);
        if frame.hasMembers {
          out := out + [COMMA];
        }
        assert out == old(out) + comma;
        stack := stack[depth - 1 := frame.(hasMembers := true)];
        PushLineBreak(depth);
        assert out == old(out) + (comma + LineBreak(layout, depth));
      case InObject =>
        stack := stack[depth - 1 := frame.(awaitingValue := false)];
        assert out + [] == out;
    }

    method EndWholeValue()
      modifies this`complete
      ensures At() == EndValue(old(At()))
    {
      if stack == [] {
        complete := true;
      }
    }

    method WriteScalar(text: Bytes)
      modifies this
      ensures At() == EndValue(Push(BeginValue(layout, old(At())), text))
    {
      hide Gap, Begun;
      PushGap();
      out := out + text;
      EndWholeValue();
    }

    method EndOpenString()
      requires role.Some?
      modifies this
      ensures EndStringStep(layout, old(At())) == Written(At())
    {
      out := out + [QUOTE];
      var ending := role.value;
      role := None;
      match ending
      case KeyRole =>
        ghost var closed := out;
        out := out + [COLON];
        if layout == Indented {
          out := out + [0x20];
        }
        assert out == closed + AfterKey(layout);
      case ValueRole => EndWholeValue();
    }

    method PushLineBreak(depth: nat)
      modifies this`out
      ensures out == old(out) + LineBreak(layout, depth)
    {
      if layout == Indented {
        out := out + [0x0A];
        ghost var broken := out;
        for i := 0 to depth
          invariant out == broken + Spaces(i)
        {
          out := out + [0x20, 0x20];
        }
      }
    }

    method PushEscaped(t: Text)
      modifies this`out
      ensures out == old(out) + Spelled(Glyphs(t, encodable))
      ensures TextWrittenFor(out[|old(out)|..], t, Has(encodable))
    {
      hide Encoded, Encodes, TextWrittenFor, WrittenFor;
      NothingWritten(Has(encodable));
      assert out[|out|..] == [];
      for i := 0 to |t|
        invariant |old(out)| <= |out| && out[..|old(out)|] == old(out)
        invariant TextWrittenFor(out[|old(out)|..], t[..i], Has(encodable))
        invariant out + Spelled(Glyphs(t[i..], encodable)) == old(out) + Spelled(Glyphs(t, encodable))
      {
        ghost var was, rest := out, Spelled(Glyphs(t[i + 1..], encodable));
        PushChar(t[i]);
        ghost var piece := Encoded(t[i], Encodes(encodable, t[i]));
        HasIt(encodable, t[i]);
        EncodedIsWrittenFor(t[i], Has(encodable)(t[i]));
        TextWrittenMore(was[|old(out)|..], t[..i], piece, t[i], Has(encodable));
        assert out[|old(out)|..] == was[|old(out)|..] + piece && t[..i + 1] == t[..i] + [t[i]];
        assert t[i..][1..] == t[i + 1..];
        SpelledFirst(Glyph(t[i], Encodes(encodable, t[i])), Glyphs(t[i + 1..], encodable));
        assert out + rest == was + (Encoded(t[i], Encodes(encodable, t[i])) + rest);
      }
      assert out + [] == out;
      assert t[..|t|] == t;
    }

    method PushChar(c: Scalar)
      modifies this`out
      ensures out == old(out) + Encoded(c, Encodes(encodable, c))
    {
      var short := ShortEscape(c);
      if short.Some? {
        out := out + [BACKSLASH];
        out := out + [short.value];
        assert out == old(out) + [BACKSLASH, short.value];
      } else if IsControl(c) {
        PushUnicodeEscapes(c);
      } else if encodable.Some? && !encodable.value(c) {
        PushUnicodeEscapes(c);
      } else {
        out := out + Utf8(c);
      }
    }

    method PushUnicodeEscapes(c: Scalar)
      modifies this`out
      ensures out == old(out) + UnicodeEscapes(c)
    {
      hide LowUnit, HighSurrogate, LowSurrogate, UnicodeEscape;
      assert IsScalar(c);
      var units := if c < 0x10000 then [LowUnit(c)] else [HighSurrogate(c), LowSurrogate(c)];
      PushUnit(units[0]);
      if |units| == 2 {
        PushUnit(units[1]);
      }
    }

    method PushUnit(u: bv16)
      modifies this`out
      ensures out == old(out) + UnicodeEscape(u)
    {
      hide HexChar, Nibble;
      out := out + [BACKSLASH];
      out := out + [LETTER_U];
      ghost var before := out;
      for k := 0 to 4
        invariant out == before + HexChars(u)[..k]
      {
        out := out + [HexChar(Nibble(u, k))];
      }
    }
  }

  lemma BegunString(layout: Layout, w: Writing)
    ensures BeginStringStep(layout, w).Written? ==> BeginStringStep(layout, w).next.role == Some(ValueRole)
  {
  }

  lemma BegunKey(layout: Layout, w: Writing)
    ensures BeginKeyStep(layout, w).Written? ==> BeginKeyStep(layout, w).next.role == Some(KeyRole)
  {
  }

  lemma SpelledFirst(g: Glyph, gs: seq<Glyph>)
    ensures Spelled([g] + gs) == Encoded(g.c, g.encodable) + Spelled(gs)
  {
    assert ([g] + gs)[1..] == gs;
  }
}
