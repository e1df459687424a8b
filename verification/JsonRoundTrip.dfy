/** What the writer wrote is what the tokenizer reads: the same events, with every string decoding to the text written. */
module JsonRoundTrip {
  import opened Options
  import opened JsonBytes
  import opened JsonNumbers
  import opened JsonStrings
  import opened JsonTokenizer
  import opened JsonGrammar
  import opened JsonDraining
  import opened JsonEscapes
  import W = JsonWriter

  type Layout = W.Layout
  type Writing = W.Writing
  type Call = W.Call
  type Frame = W.Frame

  // ----- what a run of calls says -----

  /** An event with its text decoded. */
  datatype Spoken =
    | SaidStart(container: Container) | SaidEnd(container: Container)
    | SaidKey(t: Text) | SaidString(t: Text) | SaidNumber(text: Bytes) | SaidBool(b: bool) | SaidNull

  /** The role and the text so far of a string that is written in parts. */
  datatype Pending = Pending(role: W.Role, text: Text)

  datatype Said = Said(events: seq<Spoken>, open: Option<Pending>)

  function SaidText(p: Pending): Spoken {
    if p.role == W.KeyRole then SaidKey(p.text) else SaidString(p.text)
  }

  function Add(said: Said, event: Spoken): Said {
    Said(said.events + [event], None)
  }

  /** What an accepted call says. */
  ghost function Hear(said: Said, call: Call): Said {
    match call
    case WriteNull => Add(said, SaidNull)
    case WriteBool(b) => Add(said, SaidBool(b))
    case WriteNumber(text) => Add(said, SaidNumber(text))
    case WriteString(t) => Add(said, SaidString(t))
    case WriteKey(t) => Add(said, SaidKey(t))
    case BeginString => Said(said.events, Some(Pending(W.ValueRole, [])))
    case BeginKey => Said(said.events, Some(Pending(W.KeyRole, [])))
    case StringText(t) =>
      if said.open.None? then said
      else Said(said.events, Some(Pending(said.open.value.role, said.open.value.text + t)))
    case EndString => if said.open.None? then said else Add(said, SaidText(said.open.value))
    case StartContainer(container) => Add(said, SaidStart(container))
    case EndContainer(container) => Add(said, SaidEnd(container))
    case WithEncodable(_) => said
  }

  /** Where a run of calls leaves the writer, what the accepted ones said, and how many containers were open at most. */
  datatype Run = Run(now: Writing, said: Said, deepest: nat)

  ghost function RunOf(layout: Layout, calls: seq<Call>): Run
    decreases |calls|
  {
    if |calls| == 0 then Run(W.NOTHING, Said([], None), 0)
    else
      var n := |calls| - 1;
      var r := RunOf(layout, calls[..n]);
      match W.Apply(layout, r.now, calls[n])
      case Written(next) => Run(next, Hear(r.said, calls[n]), Larger(r.deepest, |next.stack|))
      case Refused(_) => r
  }

  /** An event read for one that was written. */
  ghost predicate Heard(e: Event, w: Spoken) {
    match w
    case SaidStart(container) => e == if container == InArray then StartArray else StartObject
    case SaidEnd(container) => e == if container == InArray then EndArray else EndObject
    case SaidKey(t) => e.Key? && e.str == StrOf(e.str.raw) && Means(e.str.raw, t)
    case SaidString(t) => e.String? && e.str == StrOf(e.str.raw) && Means(e.str.raw, t)
    case SaidNumber(text) => e == Number(text)
    case SaidBool(b) => e == Bool(b)
    case SaidNull => e == Null
  }

  ghost predicate HeardAll(es: seq<Event>, said: seq<Spoken>) {
    |es| == |said| && forall i :: 0 <= i < |es| ==> Heard(es[i], said[i])
  }

  // ----- reading what was written so far, whatever comes next -----

  /** What may come next: after a value nothing that would go on a number. */
  predicate Follows(c: Config, t: Bytes) {
    c.state == AfterValue && t != [] ==> !Continues(t[0])
  }

  predicate ReadsWith(out: Bytes, t: Bytes, settings: Settings, es: seq<Event>, c: Config) {
    Follows(c, t) ==> Steps(out + t, settings, BEGIN, es, c)
  }

  ghost predicate Reads(out: Bytes, settings: Settings, es: seq<Event>, c: Config) {
    forall t :: ReadsWith(out, t, settings, es, c)
  }

  /** More text that the next call reads. */
  predicate Gives(out: Bytes, more: Bytes, settings: Settings, c: Config, e: Event, d: Config, t: Bytes) {
    Follows(d, t) ==>
      Follows(c, more + t) && c.pos <= |out + more + t| && NextStep(out + more + t, settings, c) == Item(e, d)
  }

  lemma ReadsMore(out: Bytes, more: Bytes, settings: Settings, es: seq<Event>, c: Config, e: Event, d: Config)
    requires Reads(out, settings, es, c) && forall t :: Gives(out, more, settings, c, e, d, t)
    ensures Reads(out + more, settings, es + [e], d)
  {
    hide NextStep, Steps, Follows;
    forall t ensures ReadsWith(out + more, t, settings, es + [e], d) {
      assert Gives(out, more, settings, c, e, d, t);
      assert ReadsWith(out, more + t, settings, es, c);
      assert out + (more + t) == out + more + t;
      if Follows(d, t) {
        LeadsOne(out + more + t, settings, e, d);
        StepsFirst(out + more + t, settings, c, [e], d);
        StepsJoin(out + more + t, settings, BEGIN, es, c, [e], d);
      }
    }
  }

  // ----- the writer's state and the tokenizer's -----

  function Containers(stack: seq<Frame>): seq<Container> {
    seq(|stack|, i requires 0 <= i < |stack| => stack[i].container)
  }

  predicate WellFramed(stack: seq<Frame>) {
    forall i :: 0 <= i < |stack| ==>
      && (stack[i].container == InArray ==> !stack[i].awaitingValue)
      && (stack[i].awaitingValue ==> stack[i].hasMembers)
      && (i < |stack| - 1 ==> stack[i].hasMembers && !stack[i].awaitingValue)
  }

  /** Where the tokenizer is inside an open container. */
  predicate InsideAgrees(layout: Layout, out: Bytes, frame: Frame, c: Config) {
    if frame.awaitingValue then c.state == Colon && c.pos <= |out| && out[c.pos..] == W.AfterKey(layout)
    else
      && c.pos == |out|
      && c.state == if frame.hasMembers then AfterValue else if frame.container == InArray then ArrayFirst else ObjectFirst
  }

  predicate Agrees(layout: Layout, w: Writing, es: seq<Event>, c: Config) {
    && c.stack == Containers(w.stack) && WellFramed(w.stack)
    && (w.complete ==> w.stack == [])
    && if w.stack != [] then InsideAgrees(layout, w.out, W.Top(w.stack), c)
       else if w.complete then c == Config(|w.out|, [], AfterValue)
       else w.out == [] && es == [] && c == BEGIN
  }

  /** With no string open, the text so far reads as the events so far. */
  ghost predicate Settled(layout: Layout, w: Writing, settings: Settings, es: seq<Event>, c: Config) {
    && w.role.None? && |w.stack| <= settings.maxDepth
    && Agrees(layout, w, es, c) && Reads(w.out, settings, es, c)
  }

  lemma ContainersJoin(stack: seq<Frame>, f: Frame)
    ensures Containers(stack + [f]) == Containers(stack) + [f.container]
  {
  }

  lemma ContainersBegun(stack: seq<Frame>)
    ensures Containers(W.Begun(stack)) == Containers(stack)
    ensures stack != [] ==> Containers(W.Below(stack)) == Containers(stack)[..|stack| - 1]
  {
  }

  // ----- white space the writer writes -----

  lemma {:induction false} SpacesAreSpace(n: nat)
    ensures AllSpace(W.Spaces(n))
    decreases n
  {
    if n > 0 {
      SpacesAreSpace(n - 1);
    }
  }

  lemma LineBreakIsSpace(layout: Layout, depth: nat)
    ensures AllSpace(W.LineBreak(layout, depth))
  {
    SpacesAreSpace(depth);
  }

  // ----- reaching a value -----

  /** How a value's text may begin. */
  predicate Begins(k: Bytes) {
    k != [] && !IsSpace(k[0]) && k[0] != CLOSE_ARRAY && k[0] != 0xEF
  }

  /** The text written before a value leads the tokenizer to it. */
  predicate AtValue(s: Bytes, settings: Settings, c: Config, p: nat) {
    c.pos <= |s| && p <= |s| && NextStep(s, settings, c) == ValueAt(s, settings, p, c.stack)
  }

  lemma SpaceSkips(s: Bytes, pos: nat, w: Bytes, k: Bytes)
    requires ReadsAt(s, pos, w + k) && AllSpace(w) && k != [] && !IsSpace(k[0])
    ensures SkipSpace(s, pos) == pos + |w| < |s| && s[pos + |w|] == k[0] && pos <= |s|
  {
    hide ReadsAt, IsSpace;
    ReadsPart(s, pos, w, k);
    ReadsByte(s, pos + |w|, k, 0);
    SpaceReads(s, pos, w);
  }

  lemma FirstValueStep(s: Bytes, settings: Settings, k: Bytes)
    requires ReadsAt(s, 0, k) && Begins(k)
    ensures AtValue(s, settings, BEGIN, 0)
  {
    hide ValueAt, ReadsAt;
    ReadsByte(s, 0, k, 0);
    BomFirst(s);
    NoSpace(s, 0);
  }

  lemma FirstElementStep(s: Bytes, settings: Settings, c: Config, w: Bytes, k: Bytes)
    requires c.state == ArrayFirst && ReadsAt(s, c.pos, w + k) && AllSpace(w) && Begins(k)
    ensures AtValue(s, settings, c, c.pos + |w|)
  {
    hide ValueAt, ReadsAt, IsSpace;
    SpaceSkips(s, c.pos, w, k);
    NoSpace(s, c.pos + |w|);
  }

  lemma NextElementStep(s: Bytes, settings: Settings, c: Config, w: Bytes, k: Bytes)
    requires c.state == AfterValue && c.stack != [] && c.stack[|c.stack| - 1] == InArray
    requires ReadsAt(s, c.pos, [COMMA] + w + k) && AllSpace(w) && Begins(k)
    ensures AtValue(s, settings, c, c.pos + 1 + |w|)
  {
    hide ValueAt, ReadsAt, IsSpace;
    assert [COMMA] + w + k == [COMMA] + (w + k);
    ReadsPart(s, c.pos, [COMMA], w + k);
    ReadsByte(s, c.pos, [COMMA], 0);
    SpaceSkips(s, c.pos + 1, w, k);
    Brackets();
    NoSpace(s, c.pos);
  }

  lemma MemberValueStep(s: Bytes, settings: Settings, c: Config, w: Bytes, k: Bytes)
    requires c.state == Colon && ReadsAt(s, c.pos, [COLON] + w + k) && AllSpace(w) && Begins(k)
    ensures AtValue(s, settings, c, c.pos + 1 + |w|)
  {
    hide ValueAt, ReadsAt, IsSpace;
    assert [COLON] + w + k == [COLON] + (w + k);
    ReadsPart(s, c.pos, [COLON], w + k);
    ReadsByte(s, c.pos, [COLON], 0);
    SpaceSkips(s, c.pos + 1, w, k);
    Brackets();
    NoSpace(s, c.pos);
  }

  lemma ReadsTail(out: Bytes, at: nat, more: Bytes, t: Bytes)
    requires at <= |out|
    ensures ReadsAt(out + more + t, at, out[at..] + more)
  {
    var s := out + more + t;
    assert s[at..|out| + |more|] == out[at..] + more;
  }

  lemma CommaStops(w: Bytes)
    ensures !Continues(([COMMA] + w)[0])
  {
  }

  /** Before a value: nothing, a line break, a comma and a line break, or the colon of its key. */
  lemma ReachesValue(layout: Layout, w: Writing, settings: Settings, es: seq<Event>, c: Config, k: Bytes, t: Bytes)
    requires w.role.None? && Agrees(layout, w, es, c) && W.CheckValue(w).None? && Begins(k)
    ensures var gap := W.Gap(layout, w.stack);
            AtValue(w.out + (gap + k) + t, settings, c, |w.out| + |gap|) && Follows(c, gap + k + t)
  {
    hide AtValue, ReadsAt, IsSpace, Continues, Containers, W.LineBreak, Begins;
    var gap := W.Gap(layout, w.stack);
    if w.stack == [] {
      TailReads(w.out, k, [], t);
      assert gap + k == k + [];
      FirstValueStep(w.out + (gap + k) + t, settings, k);
    } else {
      var frame, line := W.Top(w.stack), W.LineBreak(layout, |w.stack|);
      LineBreakIsSpace(layout, |w.stack|);
      if frame.awaitingValue {
        MemberReaches(layout, w, settings, c, k, t);
      } else if frame.hasMembers {
        TopContainer(w.stack);
        LaterReaches(w.out, settings, c, line, k, t);
      } else {
        assert gap == [] + line == line;
        TailReads(w.out, line + k, [], t);
        assert gap + k == (line + k) + [];
        FirstElementStep(w.out + (gap + k) + t, settings, c, line, k);
      }
    }
  }

  lemma LaterReaches(out: Bytes, settings: Settings, c: Config, line: Bytes, k: Bytes, t: Bytes)
    requires c.state == AfterValue && c.pos == |out| && c.stack != [] && c.stack[|c.stack| - 1] == InArray
    requires AllSpace(line) && Begins(k)
    ensures AtValue(out + ([COMMA] + line + k) + t, settings, c, |out| + |[COMMA] + line|) && Follows(c, [COMMA] + line + k + t)
  {
    hide AtValue, ReadsAt, AllSpace, Begins;
    var more := [COMMA] + line + k;
    TailReads(out, more, [], t);
    assert more + [] == more;
    NextElementStep(out + more + t, settings, c, line, k);
    CommaFollows(c, more, [], t);
  }

  lemma TopContainer(stack: seq<Frame>)
    requires stack != []
    ensures |Containers(stack)| == |stack| && Containers(stack)[|stack| - 1] == W.Top(stack).container
  {
  }

  lemma MemberReaches(layout: Layout, w: Writing, settings: Settings, c: Config, k: Bytes, t: Bytes)
    requires w.stack != [] && WellFramed(w.stack) && InsideAgrees(layout, w.out, W.Top(w.stack), c)
    requires W.Top(w.stack).awaitingValue && Begins(k)
    ensures W.Gap(layout, w.stack) == [] && Follows(c, [] + k + t)
    ensures AtValue(w.out + ([] + k) + t, settings, c, |w.out|)
  {
    hide AtValue, ReadsAt;
    var s := w.out + ([] + k) + t;
    var colon := W.AfterKey(layout);
    assert W.Top(w.stack).container == InObject;
    ReadsTail(w.out, c.pos, [] + k, t);
    assert colon == [COLON] + colon[1..];
    assert w.out[c.pos..] + ([] + k) == [COLON] + colon[1..] + k;
    assert AllSpace(colon[1..]);
    assert |w.out| - c.pos == |colon|;
    MemberValueStep(s, settings, c, colon[1..], k);
  }

  // ----- a value that is a token -----

  lemma ScalarBegins(v: Json)
    requires Good(v) && !v.JsonArray? && !v.JsonObject?
    ensures Begins(Spell(v))
  {
    hide IsNumber, IsBody;
    match v
    case JsonNumber(text) => NumberBegins(text);
    case _ =>
  }

  /** The writer after a whole value. */
  function ScalarWritten(layout: Layout, w: Writing, text: Bytes): Writing {
    W.EndValue(W.Push(W.BeginValue(layout, w), text))
  }

  lemma ScalarAgrees(layout: Layout, w: Writing, es: seq<Event>, c: Config, k: Bytes, fs: seq<Event>)
    requires w.role.None? && Agrees(layout, w, es, c) && W.CheckValue(w).None?
    ensures Agrees(layout, ScalarWritten(layout, w, k), fs, Config(|w.out + (W.Gap(layout, w.stack) + k)|, c.stack, AfterValue))
    ensures ScalarWritten(layout, w, k).out == w.out + (W.Gap(layout, w.stack) + k)
    ensures ScalarWritten(layout, w, k).role.None? && |ScalarWritten(layout, w, k).stack| == |w.stack|
  {
    hide Containers;
    ContainersBegun(w.stack);
    BegunFrames(w.stack);
    assert w.out + W.Gap(layout, w.stack) + k == w.out + (W.Gap(layout, w.stack) + k);
  }

  lemma BegunFrames(stack: seq<Frame>)
    requires WellFramed(stack) && (stack != [] ==> W.Top(stack).container == InArray || W.Top(stack).awaitingValue)
    ensures WellFramed(W.Begun(stack)) && |W.Begun(stack)| == |stack|
    ensures stack != [] ==> W.Top(W.Begun(stack)).hasMembers && !W.Top(W.Begun(stack)).awaitingValue
  {
  }

  /** A scalar that is written is read. */
  lemma ScalarSettles(layout: Layout, w: Writing, settings: Settings, es: seq<Event>, c: Config, v: Json) returns (d: Config)
    requires Settled(layout, w, settings, es, c) && W.CheckValue(w).None?
    requires Good(v) && !v.JsonArray? && !v.JsonObject?
    ensures Settled(layout, ScalarWritten(layout, w, Spell(v)), settings, es + [EventsOf(v)[0]], d)
  {
    hide Reads, Agrees, Good, Spell, EventsOf, W.Gap;
    var gap, k, e := W.Gap(layout, w.stack), Spell(v), EventsOf(v)[0];
    d := Config(|w.out + (gap + k)|, c.stack, AfterValue);
    forall t ensures Gives(w.out, gap + k, settings, c, e, d, t) {
      ScalarGives(layout, w, settings, es, c, v, t);
    }
    ReadsMore(w.out, gap + k, settings, es, c, e, d);
    ScalarAgrees(layout, w, es, c, k, es + [e]);
  }

  lemma ScalarGives(layout: Layout, w: Writing, settings: Settings, es: seq<Event>, c: Config, v: Json, t: Bytes)
    requires w.role.None? && Agrees(layout, w, es, c) && W.CheckValue(w).None?
    requires Good(v) && !v.JsonArray? && !v.JsonObject?
    ensures var more := W.Gap(layout, w.stack) + Spell(v);
            Gives(w.out, more, settings, c, EventsOf(v)[0], Config(|w.out + more|, c.stack, AfterValue), t)
  {
    hide Agrees, Good, Spell, EventsOf, W.Gap, ReadsAt, NextStep, ValueAt, W.CheckValue, Continues;
    var gap, k := W.Gap(layout, w.stack), Spell(v);
    var s, p := w.out + (gap + k) + t, |w.out + gap|;
    ScalarBegins(v);
    ReachesValue(layout, w, settings, es, c, k, t);
    ReadsMiddle(w.out, gap, k, t);
    if Follows(Config(|w.out + (gap + k)|, c.stack, AfterValue), t) {
      if t != [] {
        assert s[p + |k|] == t[0];
      }
      ScalarReads(v, s, settings, p, c.stack);
    }
  }

  lemma ReadsMiddle(out: Bytes, gap: Bytes, k: Bytes, t: Bytes)
    ensures ReadsAt(out + (gap + k) + t, |out + gap|, k)
  {
    var s := out + (gap + k) + t;
    assert s[|out + gap|..|out + gap| + |k|] == k;
  }

  // ----- containers -----

  function OpenBracket(container: Container): bv8 {
    if container == InArray then OPEN_ARRAY else OPEN_OBJECT
  }

  lemma OpenAgrees(layout: Layout, w: Writing, es: seq<Event>, c: Config, container: Container, fs: seq<Event>)
    requires w.role.None? && Agrees(layout, w, es, c) && W.CheckValue(w).None?
    ensures var next := W.StartStep(layout, w, container).next;
            var more := W.Gap(layout, w.stack) + [OpenBracket(container)];
            && next.out == w.out + more && next.role.None? && |next.stack| == |w.stack| + 1
            && Agrees(layout, next, fs, Config(|w.out + more|, c.stack + [container],
                                               if container == InArray then ArrayFirst else ObjectFirst))
  {
    hide Containers;
    ContainersBegun(w.stack);
    BegunFrames(w.stack);
    ContainersJoin(W.Begun(w.stack), W.Frame.Frame(container, false, false));
    assert w.out + W.Gap(layout, w.stack) + [OpenBracket(container)] == w.out + (W.Gap(layout, w.stack) + [OpenBracket(container)]);
  }

  lemma OpenGives(layout: Layout, w: Writing, settings: Settings, es: seq<Event>, c: Config, container: Container, t: Bytes)
    requires w.role.None? && Agrees(layout, w, es, c) && W.CheckValue(w).None? && |c.stack| < settings.maxDepth
    ensures var more := W.Gap(layout, w.stack) + [OpenBracket(container)];
            Gives(w.out, more, settings, c, if container == InArray then StartArray else StartObject,
                  Config(|w.out + more|, c.stack + [container], if container == InArray then ArrayFirst else ObjectFirst), t)
  {
    hide Agrees, W.Gap, NextStep, W.CheckValue, Continues, StringEnd, ScanNumber, LiteralTo, ReadsAt;
    var gap, k := W.Gap(layout, w.stack), [OpenBracket(container)];
    ReachesValue(layout, w, settings, es, c, k, t);
    ReadsMiddle(w.out, gap, k, t);
    ReadsByte(w.out + (gap + k) + t, |w.out + gap|, k, 0);
  }

  lemma OpenSettles(layout: Layout, w: Writing, settings: Settings, es: seq<Event>, c: Config, container: Container)
    returns (d: Config)
    requires Settled(layout, w, settings, es, c) && W.CheckValue(w).None? && |w.stack| < settings.maxDepth
    ensures Settled(layout, W.StartStep(layout, w, container).next, settings,
                    es + [if container == InArray then StartArray else StartObject], d)
  {
    hide Reads, W.Gap, W.StartStep, W.CheckValue, Gives;
    var more := W.Gap(layout, w.stack) + [OpenBracket(container)];
    var e := if container == InArray then StartArray else StartObject;
    d := Config(|w.out + more|, c.stack + [container], if container == InArray then ArrayFirst else ObjectFirst);
    forall t ensures Gives(w.out, more, settings, c, e, d, t) {
      OpenGives(layout, w, settings, es, c, container, t);
    }
    ReadsMore(w.out, more, settings, es, c, e, d);
    OpenAgrees(layout, w, es, c, container, es + [e]);
  }

  function CloseBracket(container: Container): bv8 {
    if container == InArray then CLOSE_ARRAY else CLOSE_OBJECT
  }

  function EndOf(container: Container): Event {
    if container == InArray then EndArray else EndObject
  }

  /** What is written before a closing bracket. */
  function CloseGap(layout: Layout, stack: seq<Frame>): Bytes
    requires stack != []
  {
    if W.Top(stack).hasMembers then W.LineBreak(layout, |stack| - 1) else []
  }

  lemma CloseGapIsSpace(layout: Layout, stack: seq<Frame>)
    requires stack != []
    ensures AllSpace(CloseGap(layout, stack))
  {
    LineBreakIsSpace(layout, |stack| - 1);
  }

  lemma CloseAgrees(layout: Layout, w: Writing, es: seq<Event>, c: Config, container: Container, fs: seq<Event>)
    requires Agrees(layout, w, es, c) && W.EndStep(layout, w, container).Written?
    ensures w.stack != [] && c.stack != []
    ensures var next := W.EndStep(layout, w, container).next;
            var more := CloseGap(layout, w.stack) + [CloseBracket(container)];
            && next.out == w.out + more && next.role.None? && |next.stack| < |w.stack|
            && Agrees(layout, next, fs, Config(|w.out + more|, c.stack[..|c.stack| - 1], AfterValue))
  {
    hide Containers, W.LineBreak;
    ContainersBegun(w.stack);
    TopContainer(w.stack);
  }

  /** A closing bracket that is read. */
  lemma CloseReads(s: Bytes, settings: Settings, c: Config, w: Bytes, container: Container)
    requires c.stack != [] && c.stack[|c.stack| - 1] == container
    requires c.state == AfterValue || (c.state == if container == InArray then ArrayFirst else ObjectFirst)
    requires ReadsAt(s, c.pos, w + [CloseBracket(container)]) && AllSpace(w)
    ensures c.pos <= |s|
    ensures NextStep(s, settings, c)
            == Item(EndOf(container), Config(c.pos + |w| + 1, c.stack[..|c.stack| - 1], AfterValue))
  {
    hide ReadsAt, IsSpace, ValueStep, KeyStep;
    Brackets();
    SpaceSkips(s, c.pos, w, [CloseBracket(container)]);
  }

  lemma SpaceOrBracketStops(w: Bytes, container: Container)
    requires AllSpace(w)
    ensures !Continues((w + [CloseBracket(container)])[0])
  {
    if w != [] {
      SpaceStops(w[0]);
    }
  }

  lemma CloseGives(layout: Layout, w: Writing, settings: Settings, es: seq<Event>, c: Config, container: Container, t: Bytes)
    requires Agrees(layout, w, es, c) && W.EndStep(layout, w, container).Written?
    ensures w.stack != [] && c.stack != []
    ensures var more := CloseGap(layout, w.stack) + [CloseBracket(container)];
            Gives(w.out, more, settings, c, EndOf(container),
                  Config(|w.out + more|, c.stack[..|c.stack| - 1], AfterValue), t)
  {
    hide NextStep, Continues, ReadsAt, Containers, CloseGap, CloseBracket;
    TopContainer(w.stack);
    var gap, k := CloseGap(layout, w.stack), [CloseBracket(container)];
    CloseGapIsSpace(layout, w.stack);
    SpaceOrBracketStops(gap, container);
    ReadsTail(w.out, c.pos, gap + k, t);
    assert w.out[c.pos..] + (gap + k) == gap + k;
    CloseReads(w.out + (gap + k) + t, settings, c, gap, container);
    assert (gap + k + t)[0] == (gap + k)[0];
  }

  lemma CloseSettles(layout: Layout, w: Writing, settings: Settings, es: seq<Event>, c: Config, container: Container)
    returns (d: Config)
    requires Settled(layout, w, settings, es, c) && W.EndStep(layout, w, container).Written?
    ensures Settled(layout, W.EndStep(layout, w, container).next, settings, es + [EndOf(container)], d)
  {
    hide Reads, W.EndStep, Gives, CloseGap, EndOf, Agrees;
    CloseAgrees(layout, w, es, c, container, es + [EndOf(container)]);
    var more := CloseGap(layout, w.stack) + [CloseBracket(container)];
    d := Config(|w.out + more|, c.stack[..|c.stack| - 1], AfterValue);
    forall t ensures Gives(w.out, more, settings, c, EndOf(container), d, t) {
      CloseGives(layout, w, settings, es, c, container, t);
    }
    ReadsMore(w.out, more, settings, es, c, EndOf(container), d);
  }

  // ----- keys -----

  lemma KeyTokenReads(s: Bytes, pos: nat, w: Bytes, raw: Bytes, stack: seq<Container>)
    requires ReadsAt(s, pos, w + Quoted(raw)) && AllSpace(w) && IsBody(raw)
    ensures pos <= |s| && KeyStep(s, pos, stack) == Item(Key(StrOf(raw)), Config(pos + |w| + |Quoted(raw)|, stack, Colon))
  {
    hide ReadsAt, IsSpace, StringEnd, IsBody;
    Brackets();
    ReadsPart(s, pos, w, Quoted(raw));
    StringReads(s, pos + |w|, raw);
    SpaceSkips(s, pos, w, Quoted(raw));
  }

  /** A key that is read: the first of its object, or one after a comma. */
  lemma KeyIsRead(s: Bytes, settings: Settings, c: Config, w: Bytes, raw: Bytes)
    requires c.state == ObjectFirst && ReadsAt(s, c.pos, w + Quoted(raw)) && AllSpace(w) && IsBody(raw)
    ensures c.pos <= |s|
    ensures NextStep(s, settings, c) == Item(Key(StrOf(raw)), Config(c.pos + |w| + |Quoted(raw)|, c.stack, Colon))
  {
    hide ReadsAt, IsSpace, KeyStep, IsBody;
    Brackets();
    SpaceSkips(s, c.pos, w, Quoted(raw));
    ReadsPart(s, c.pos, w, Quoted(raw));
    assert [] + Quoted(raw) == Quoted(raw);
    KeyTokenReads(s, c.pos + |w|, [], raw, c.stack);
  }

  lemma NextKeyIsRead(s: Bytes, settings: Settings, c: Config, w: Bytes, raw: Bytes)
    requires c.state == AfterValue && c.stack != [] && c.stack[|c.stack| - 1] == InObject
    requires ReadsAt(s, c.pos, [COMMA] + w + Quoted(raw)) && AllSpace(w) && IsBody(raw)
    ensures c.pos <= |s|
    ensures NextStep(s, settings, c) == Item(Key(StrOf(raw)), Config(c.pos + 1 + |w| + |Quoted(raw)|, c.stack, Colon))
  {
    hide ReadsAt, IsSpace, KeyStep, IsBody, ValueStep;
    Brackets();
    assert [COMMA] + w + Quoted(raw) == [COMMA] + (w + Quoted(raw));
    ReadsPart(s, c.pos, [COMMA], w + Quoted(raw));
    ReadsByte(s, c.pos, [COMMA], 0);
    NoSpace(s, c.pos);
    KeyTokenReads(s, c.pos + 1, w, raw, c.stack);
  }

  /** The writer after a whole key. */
  function KeyWritten(layout: Layout, w: Writing, raw: Bytes): Writing
    requires W.BeginKeyStep(layout, w).Written?
  {
    W.Push(W.BeginKeyStep(layout, w).next, raw + [QUOTE] + W.AfterKey(layout)).(role := None)
  }

  function KeyGap(layout: Layout, stack: seq<Frame>): Bytes
    requires stack != []
  {
    W.Comma(W.Top(stack).hasMembers) + W.LineBreak(layout, |stack|)
  }

  lemma KeyParts(out: Bytes, gap: Bytes, raw: Bytes, after: Bytes)
    ensures out + (gap + [QUOTE]) + (raw + [QUOTE] + after) == out + (gap + Quoted(raw) + after)
  {
  }

  lemma KeyAgrees(layout: Layout, w: Writing, es: seq<Event>, c: Config, raw: Bytes, fs: seq<Event>)
    requires Agrees(layout, w, es, c) && W.BeginKeyStep(layout, w).Written?
    ensures w.stack != []
    ensures var next := KeyWritten(layout, w, raw);
            var k := KeyGap(layout, w.stack) + Quoted(raw);
            && next.out == w.out + (k + W.AfterKey(layout)) && next.role.None? && |next.stack| == |w.stack|
            && Agrees(layout, next, fs, Config(|w.out + k|, c.stack, Colon))
  {
    hide Containers, W.LineBreak, Quoted, W.Comma, W.AfterKey;
    ContainersBegun(w.stack);
    TopContainer(w.stack);
    var below, f := W.Below(w.stack), W.Frame.Frame(InObject, true, true);
    ContainersJoin(below, f);
    assert Containers(w.stack) == Containers(below) + [InObject];
    var gap, after := KeyGap(layout, w.stack), W.AfterKey(layout);
    KeyParts(w.out, gap, raw, after);
    var out := w.out + (gap + Quoted(raw) + after);
    assert out[|w.out + (gap + Quoted(raw))|..] == after;
  }

  lemma FirstKeyGives(out: Bytes, settings: Settings, c: Config, line: Bytes, raw: Bytes, after: Bytes, t: Bytes)
    requires c.state == ObjectFirst && c.pos == |out| && AllSpace(line) && IsBody(raw)
    ensures Gives(out, line + Quoted(raw) + after, settings, c, Key(StrOf(raw)), Config(|out + (line + Quoted(raw))|, c.stack, Colon), t)
  {
    hide NextStep, Continues, ReadsAt, Quoted, IsBody, AllSpace;
    var k := line + Quoted(raw);
    TailReads(out, k, after, t);
    KeyIsRead(out + (k + after) + t, settings, c, line, raw);
  }

  lemma LaterKeyGives(out: Bytes, settings: Settings, c: Config, line: Bytes, raw: Bytes, after: Bytes, t: Bytes)
    requires c.state == AfterValue && c.pos == |out| && c.stack != [] && c.stack[|c.stack| - 1] == InObject
    requires AllSpace(line) && IsBody(raw)
    ensures Gives(out, [COMMA] + line + Quoted(raw) + after, settings, c, Key(StrOf(raw)),
                  Config(|out + ([COMMA] + line + Quoted(raw))|, c.stack, Colon), t)
  {
    hide NextStep, ReadsAt, Quoted, IsBody, AllSpace, Follows;
    var k := [COMMA] + line + Quoted(raw);
    TailReads(out, k, after, t);
    NextKeyIsRead(out + (k + after) + t, settings, c, line, raw);
    CommaFollows(c, k, after, t);
  }

  lemma TailReads(out: Bytes, k: Bytes, after: Bytes, t: Bytes)
    ensures ReadsAt(out + (k + after) + t, |out|, k)
  {
    hide ReadsAt;
    ReadsTail(out, |out|, k + after, t);
    assert out[|out|..] + (k + after) == k + after;
    ReadsPart(out + (k + after) + t, |out|, k, after);
  }

  lemma CommaFollows(c: Config, k: Bytes, after: Bytes, t: Bytes)
    requires k != [] && k[0] == COMMA
    ensures Follows(c, k + after + t)
  {
    assert (k + after + t)[0] == k[0];
    CommaStops([]);
  }

  lemma KeyGives(layout: Layout, w: Writing, settings: Settings, es: seq<Event>, c: Config, raw: Bytes, t: Bytes)
    requires Agrees(layout, w, es, c) && W.BeginKeyStep(layout, w).Written? && IsBody(raw)
    ensures w.stack != []
    ensures var k := KeyGap(layout, w.stack) + Quoted(raw);
            Gives(w.out, k + W.AfterKey(layout), settings, c, Key(StrOf(raw)), Config(|w.out + k|, c.stack, Colon), t)
  {
    hide NextStep, Continues, ReadsAt, Containers, Quoted, W.LineBreak, W.AfterKey, IsBody, Gives;
    TopContainer(w.stack);
    var line := W.LineBreak(layout, |w.stack|);
    LineBreakIsSpace(layout, |w.stack|);
    assert [] + line == line;
    if W.Top(w.stack).hasMembers {
      LaterKeyGives(w.out, settings, c, line, raw, W.AfterKey(layout), t);
    } else {
      FirstKeyGives(w.out, settings, c, line, raw, W.AfterKey(layout), t);
    }
  }

  lemma KeySettles(layout: Layout, w: Writing, settings: Settings, es: seq<Event>, c: Config, raw: Bytes) returns (d: Config)
    requires Settled(layout, w, settings, es, c) && W.BeginKeyStep(layout, w).Written? && IsBody(raw)
    ensures Settled(layout, KeyWritten(layout, w, raw), settings, es + [Key(StrOf(raw))], d)
  {
    hide Reads, W.BeginKeyStep, Gives, KeyGap, Quoted, StrOf, Agrees, KeyWritten, W.AfterKey, IsBody;
    KeyAgrees(layout, w, es, c, raw, es + [Key(StrOf(raw))]);
    var k := KeyGap(layout, w.stack) + Quoted(raw);
    d := Config(|w.out + k|, c.stack, Colon);
    forall t ensures Gives(w.out, k + W.AfterKey(layout), settings, c, Key(StrOf(raw)), d, t) {
      KeyGives(layout, w, settings, es, c, raw, t);
    }
    ReadsMore(w.out, k + W.AfterKey(layout), settings, es, c, Key(StrOf(raw)), d);
  }

  // ----- strings in parts -----

  function BeginStep(layout: Layout, w: Writing, role: W.Role): W.Outcome {
    if role == W.KeyRole then W.BeginKeyStep(layout, w) else W.BeginStringStep(layout, w)
  }

  /** The writer with a string open that has these characters so far. */
  predicate OpenedBy(layout: Layout, before: Writing, role: W.Role, now: Writing, gs: seq<Glyph>) {
    var begun := BeginStep(layout, before, role);
    && begun.Written? && now.stack == begun.next.stack && now.complete == begun.next.complete
    && now.role == Some(role) && now.out == begun.next.out + Spelled(gs)
  }

  lemma {:induction false} GlyphChars(t: Text, encodable: W.Encoding)
    ensures Chars(W.Glyphs(t, encodable)) == t
    decreases |t|
  {
    hide W.Encodes;
    if t != [] {
      GlyphChars(t[1..], encodable);
      assert W.Glyphs(t, encodable)[1..] == W.Glyphs(t[1..], encodable);
    }
  }

  lemma BeginOpens(layout: Layout, w: Writing, role: W.Role)
    requires BeginStep(layout, w, role).Written?
    ensures OpenedBy(layout, w, role, BeginStep(layout, w, role).next, [])
  {
    hide W.Gap, W.Begun;
    var out := BeginStep(layout, w, role).next.out;
    assert out + [] == out;
  }

  lemma TextGoesOn(layout: Layout, before: Writing, role: W.Role, now: Writing, gs: seq<Glyph>, t: Text)
    requires OpenedBy(layout, before, role, now, gs)
    ensures var step, all := W.TextStep(now, t), gs + W.Glyphs(t, now.encodable);
            step.Written? && OpenedBy(layout, before, role, step.next, all) && Chars(all) == Chars(gs) + t
  {
    hide BeginStep, Spelled, W.Glyphs, Chars;
    var more := W.Glyphs(t, now.encodable);
    SpelledJoin(gs, more);
    GlyphChars(t, now.encodable);
    var out := BeginStep(layout, before, role).next.out;
    assert out + Spelled(gs) + Spelled(more) == out + (Spelled(gs) + Spelled(more));
  }

  /** Settling does not depend on the encoding. */
  lemma SettledAlike(layout: Layout, a: Writing, b: Writing, settings: Settings, es: seq<Event>, c: Config)
    requires Settled(layout, a, settings, es, c)
    requires a.out == b.out && a.stack == b.stack && a.role == b.role && a.complete == b.complete
    ensures Settled(layout, b, settings, es, c)
  {
    hide Reads;
  }

  function StringEvent(role: W.Role, raw: Bytes): Event {
    if role == W.KeyRole then Key(StrOf(raw)) else String(StrOf(raw))
  }

  lemma StringParts(out: Bytes, raw: Bytes)
    ensures out + [QUOTE] + raw + [QUOTE] == out + Quoted(raw)
  {
  }

  lemma KeyTail(out: Bytes, raw: Bytes, after: Bytes)
    ensures out + raw + [QUOTE] + after == out + (raw + [QUOTE] + after)
  {
  }

  /** A string that ends is one event. */
  lemma StringSettles(layout: Layout, before: Writing, role: W.Role, now: Writing, gs: seq<Glyph>, settings: Settings,
                      es: seq<Event>, c: Config) returns (d: Config)
    requires Settled(layout, before, settings, es, c) && OpenedBy(layout, before, role, now, gs)
    ensures W.EndStringStep(layout, now).Written?
    ensures Settled(layout, W.EndStringStep(layout, now).next, settings, es + [StringEvent(role, Spelled(gs))], d)
  {
    hide Settled, Spelled, W.Gap, W.Begun, W.LineBreak, W.Comma, W.AfterKey, StrOf, Says;
    var raw := Spelled(gs);
    SpelledSays(gs);
    BodySays(raw, Utf8All(Chars(gs)));
    var next := W.EndStringStep(layout, now).next;
    if role == W.KeyRole {
      d := KeySettles(layout, before, settings, es, c, raw);
      KeyTail(W.BeginKeyStep(layout, before).next.out, raw, W.AfterKey(layout));
      SettledAlike(layout, KeyWritten(layout, before, raw), next, settings, es + [Key(StrOf(raw))], d);
    } else {
      d := ScalarSettles(layout, before, settings, es, c, JsonString(raw));
      StringParts(before.out + W.Gap(layout, before.stack), raw);
      SettledRole(layout, before, settings, es, c);
      SettledAlike(layout, ScalarWritten(layout, before, Quoted(raw)), next, settings, es + [String(StrOf(raw))], d);
    }
  }

  lemma SettledRole(layout: Layout, w: Writing, settings: Settings, es: seq<Event>, c: Config)
    requires Settled(layout, w, settings, es, c)
    ensures w.role.None?
  {
  }

  lemma BodySays(raw: Bytes, text: Bytes)
    requires Says(raw, text)
    ensures IsBody(raw)
  {
  }

  // ----- whole runs -----

  /** What the tokenizer gives for the text so far, and, while a string is open, the writer before it and its characters. */
  datatype Track = Track(es: seq<Event>, c: Config, before: Writing, gs: seq<Glyph>)

  ghost predicate Tracks(layout: Layout, settings: Settings, now: Writing, said: Said, k: Track) {
    HeardAll(k.es, said.events) &&
    match now.role
    case None => said.open.None? && Settled(layout, now, settings, k.es, k.c)
    case Some(role) =>
      && said.open == Some(Pending(role, Chars(k.gs)))
      && Settled(layout, k.before, settings, k.es, k.c) && OpenedBy(layout, k.before, role, now, k.gs)
  }

  lemma HeardMore(es: seq<Event>, said: Said, e: Event, w: Spoken)
    requires HeardAll(es, said.events) && Heard(e, w)
    ensures HeardAll(es + [e], Add(said, w).events)
  {
    hide Heard;
  }

  lemma StringIsHeard(role: W.Role, gs: seq<Glyph>)
    ensures Heard(StringEvent(role, Spelled(gs)), SaidText(Pending(role, Chars(gs))))
  {
    hide Spelled, Chars, Means;
    SpelledMeans(gs);
  }

  /** The end of a string that is open. */
  lemma EndTracks(layout: Layout, settings: Settings, now: Writing, said: Said, k: Track) returns (after: Track)
    requires Tracks(layout, settings, now, said, k) && now.role.Some?
    ensures W.EndStringStep(layout, now).Written?
    ensures Tracks(layout, settings, W.EndStringStep(layout, now).next, Add(said, SaidText(said.open.value)), after)
  {
    hide Settled, OpenedBy, Spelled, Chars, Heard, HeardAll;
    var role := now.role.value;
    var d := StringSettles(layout, k.before, role, now, k.gs, settings, k.es, k.c);
    StringIsHeard(role, k.gs);
    HeardMore(k.es, said, StringEvent(role, Spelled(k.gs)), SaidText(Pending(role, Chars(k.gs))));
    after := Track(k.es + [StringEvent(role, Spelled(k.gs))], d, k.before, []);
    SettledRole(layout, W.EndStringStep(layout, now).next, settings, after.es, d);
  }

  lemma TextTracks(layout: Layout, settings: Settings, now: Writing, said: Said, k: Track, t: Text) returns (after: Track)
    requires Tracks(layout, settings, now, said, k) && now.role.Some?
    ensures W.TextStep(now, t).Written? && W.TextStep(now, t).next.role == now.role
    ensures Tracks(layout, settings, W.TextStep(now, t).next,
                   Said(said.events, Some(Pending(said.open.value.role, said.open.value.text + t))), after)
  {
    hide Settled, OpenedBy, Spelled, Chars, HeardAll;
    TextGoesOn(layout, k.before, now.role.value, now, k.gs, t);
    after := k.(gs := k.gs + W.Glyphs(t, now.encodable));
  }

  lemma BeginTracks(layout: Layout, settings: Settings, now: Writing, said: Said, k: Track, role: W.Role) returns (after: Track)
    requires Tracks(layout, settings, now, said, k) && BeginStep(layout, now, role).Written?
    ensures BeginStep(layout, now, role).next.role == Some(role)
    ensures Tracks(layout, settings, BeginStep(layout, now, role).next, Said(said.events, Some(Pending(role, []))), after)
  {
    hide Settled, Spelled, HeardAll, W.Gap, W.Begun, W.LineBreak, W.Comma;
    BeginOpens(layout, now, role);
    after := Track(k.es, k.c, now, []);
    assert Chars([]) == [];
  }

  /** A string that is written whole. */
  lemma WholeTracks(layout: Layout, settings: Settings, now: Writing, said: Said, k: Track, role: W.Role, t: Text)
    returns (after: Track)
    requires Tracks(layout, settings, now, said, k) && W.WholeStep(layout, BeginStep(layout, now, role), t).Written?
    ensures Tracks(layout, settings, W.WholeStep(layout, BeginStep(layout, now, role), t).next,
                   Add(said, SaidText(Pending(role, t))), after)
  {
    hide Tracks, BeginStep, W.TextStep, W.EndStringStep;
    var begun := BeginTracks(layout, settings, now, said, k, role);
    var texted := TextTracks(layout, settings, BeginStep(layout, now, role).next, Said(said.events, Some(Pending(role, []))), begun, t);
    assert [] + t == t;
    after := EndTracks(layout, settings, W.TextStep(BeginStep(layout, now, role).next, t).next,
                       Said(said.events, Some(Pending(role, t))), texted);
  }

  /** A value that is one token. */
  lemma ScalarTracks(layout: Layout, settings: Settings, now: Writing, said: Said, k: Track, v: Json, w: Spoken)
    returns (after: Track)
    requires Tracks(layout, settings, now, said, k) && W.CheckValue(now).None?
    requires Good(v) && !v.JsonArray? && !v.JsonObject? && Heard(EventsOf(v)[0], w)
    ensures Tracks(layout, settings, ScalarWritten(layout, now, Spell(v)), Add(said, w), after)
  {
    hide Settled, HeardAll, Heard, EventsOf, Spell, Good, W.Gap, W.Begun;
    var d := ScalarSettles(layout, now, settings, k.es, k.c, v);
    HeardMore(k.es, said, EventsOf(v)[0], w);
    after := Track(k.es + [EventsOf(v)[0]], d, now, []);
  }

  lemma StartTracks(layout: Layout, settings: Settings, now: Writing, said: Said, k: Track, container: Container)
    returns (after: Track)
    requires Tracks(layout, settings, now, said, k) && W.StartStep(layout, now, container).Written?
    requires |W.StartStep(layout, now, container).next.stack| <= settings.maxDepth
    ensures Tracks(layout, settings, W.StartStep(layout, now, container).next, Add(said, SaidStart(container)), after)
  {
    hide Settled, HeardAll, W.Gap, W.LineBreak;
    BegunLength(now.stack);
    var e := if container == InArray then StartArray else StartObject;
    var d := OpenSettles(layout, now, settings, k.es, k.c, container);
    HeardMore(k.es, said, e, SaidStart(container));
    after := Track(k.es + [e], d, now, []);
  }

  lemma BegunLength(stack: seq<Frame>)
    ensures |W.Begun(stack)| == |stack|
  {
  }

  lemma CloseTracks(layout: Layout, settings: Settings, now: Writing, said: Said, k: Track, container: Container)
    returns (after: Track)
    requires Tracks(layout, settings, now, said, k) && W.EndStep(layout, now, container).Written?
    ensures Tracks(layout, settings, W.EndStep(layout, now, container).next, Add(said, SaidEnd(container)), after)
  {
    hide Settled, HeardAll, W.LineBreak;
    var d := CloseSettles(layout, now, settings, k.es, k.c, container);
    HeardMore(k.es, said, EndOf(container), SaidEnd(container));
    after := Track(k.es + [EndOf(container)], d, now, []);
  }

  lemma EncodeTracks(layout: Layout, settings: Settings, now: Writing, said: Said, k: Track, p: Scalar -> bool)
    requires Tracks(layout, settings, now, said, k)
    ensures Tracks(layout, settings, now.(encodable := Some(p)), said, k)
  {
    hide HeardAll, Reads, Spelled, BeginStep;
  }

  /** Every accepted call keeps the text readable as what has been said. */
  lemma CallTracks(layout: Layout, settings: Settings, now: Writing, said: Said, k: Track, call: Call) returns (after: Track)
    requires Tracks(layout, settings, now, said, k) && W.Apply(layout, now, call).Written?
    requires |W.Apply(layout, now, call).next.stack| <= settings.maxDepth
    ensures Tracks(layout, settings, W.Apply(layout, now, call).next, Hear(said, call), after)
  {
    hide Tracks, W.BeginStringStep, W.BeginKeyStep, W.TextStep, W.EndStringStep, W.StartStep, W.EndStep, W.WholeStep, W.CheckValue,
         IsNumber, W.Gap, W.Begun;
    match call
    case WriteNull => after := ScalarTracks(layout, settings, now, said, k, JsonNull, SaidNull);
    case WriteBool(b) => after := ScalarTracks(layout, settings, now, said, k, JsonBool(b), SaidBool(b));
    case WriteNumber(text) => after := ScalarTracks(layout, settings, now, said, k, JsonNumber(text), SaidNumber(text));
    case WriteString(t) => after := WholeTracks(layout, settings, now, said, k, W.ValueRole, t);
    case WriteKey(t) => after := WholeTracks(layout, settings, now, said, k, W.KeyRole, t);
    case BeginString => after := BeginTracks(layout, settings, now, said, k, W.ValueRole);
    case BeginKey => after := BeginTracks(layout, settings, now, said, k, W.KeyRole);
    case StringText(t) =>
      TextRole(layout, settings, now, said, k, t);
      after := TextTracks(layout, settings, now, said, k, t);
    case EndString =>
      EndRole(layout, settings, now, said, k);
      after := EndTracks(layout, settings, now, said, k);
    case StartContainer(container) => after := StartTracks(layout, settings, now, said, k, container);
    case EndContainer(container) => after := CloseTracks(layout, settings, now, said, k, container);
    case WithEncodable(p) =>
      EncodeTracks(layout, settings, now, said, k, p);
      after := k;
  }

  lemma TextRole(layout: Layout, settings: Settings, now: Writing, said: Said, k: Track, t: Text)
    requires Tracks(layout, settings, now, said, k) && W.TextStep(now, t).Written?
    ensures now.role.Some? && said.open.Some?
  {
    hide HeardAll, Settled, OpenedBy, Spelled, W.Glyphs;
  }

  lemma EndRole(layout: Layout, settings: Settings, now: Writing, said: Said, k: Track)
    requires Tracks(layout, settings, now, said, k) && W.EndStringStep(layout, now).Written?
    ensures now.role.Some? && said.open.Some?
  {
    hide HeardAll, Settled, OpenedBy;
  }

  /** After any run of calls, the text reads as what the accepted ones said. */
  lemma {:induction false} RunTracks(layout: Layout, settings: Settings, calls: seq<Call>) returns (k: Track)
    requires RunOf(layout, calls).deepest <= settings.maxDepth
    ensures Tracks(layout, settings, RunOf(layout, calls).now, RunOf(layout, calls).said, k)
    decreases |calls|
  {
    hide Tracks, W.Apply, Hear;
    if |calls| == 0 {
      k := Track([], BEGIN, W.NOTHING, []);
      NothingTracks(layout, settings);
    } else {
      var n := |calls| - 1;
      var r := RunOf(layout, calls[..n]);
      k := RunTracks(layout, settings, calls[..n]);
      if W.Apply(layout, r.now, calls[n]).Written? {
        k := CallTracks(layout, settings, r.now, r.said, k, calls[n]);
      }
    }
  }

  lemma NothingTracks(layout: Layout, settings: Settings)
    ensures Tracks(layout, settings, W.NOTHING, Said([], None), Track([], BEGIN, W.NOTHING, []))
  {
  }

  /** The text of a finished writer drains to the events that were said, at any depth limit that was not passed. */
  lemma FinishedReads(layout: Layout, settings: Settings, calls: seq<Call>)
    requires var r := RunOf(layout, calls); W.FinishStep(r.now).None? && r.deepest <= settings.maxDepth
    ensures var r := RunOf(layout, calls);
            var drained := Drain(r.now.out, settings, BEGIN);
            drained.error == None && HeardAll(drained.events, r.said.events)
  {
    hide RunOf, HeardAll, NextStep, Steps;
    var r := RunOf(layout, calls);
    var k := RunTracks(layout, settings, calls);
    var s := r.now.out;
    assert ReadsWith(s, [], settings, k.es, k.c);
    assert s + [] == s;
    StepsDrain(s, settings, BEGIN, k.es, k.c);
    DoneAtEnd(s, settings);
    assert k.es + [] == k.es;
  }

  lemma DoneAtEnd(s: Bytes, settings: Settings)
    ensures Drain(s, settings, Config(|s|, [], AfterValue)) == Drained([], None)
  {
  }
}
