/** Draining the tokenizer: it ends without an error exactly for JSON texts, with their traversals. */
module JsonDraining {
  import opened Options
  import opened JsonBytes
  import opened JsonNumbers
  import opened JsonStrings
  import opened JsonTokenizer
  import opened JsonGrammar

  /** All events, and the error if there is one. */
  datatype Drained = Drained(events: seq<Event>, error: Option<Error>)

  predicate Within(s: Bytes, c: Config) {
    c.pos <= |s| && (c.state == Start ==> c.pos == 0 && c.stack == [])
  }

  function Drain(s: Bytes, settings: Settings, c: Config): Drained
    requires Within(s, c)
    decreases |s| - c.pos
  {
    StepAdvances(s, settings, c);
    match NextStep(s, settings, c)
    case Item(event, next) =>
      var rest := Drain(s, settings, next);
      Drained([event] + rest.events, rest.error)
    case Done => Drained([], None)
    case Fail(error) => Drained([], Some(error))
  }

  const BEGIN: Config := Config(0, [], Start)

  /** Calls until there is no more. */
  method DrainAll(s: Bytes, settings: Settings) returns (events: seq<Event>, error: Option<Error>)
    ensures Drained(events, error) == Drain(s, settings, BEGIN)
    ensures |events| <= |s|
  {
    hide NextStep;
    var t := new Tokenizer(s, settings);
    events := [];
    var c := t.At();
    while true
      invariant t.Valid() && t.input == s && t.settings == settings && c == t.At() && Within(s, c) && |events| <= c.pos
      invariant Drain(s, settings, BEGIN)
                == Drained(events + Drain(s, settings, c).events, Drain(s, settings, c).error)
      decreases |s| - c.pos
    {
      StepAdvances(s, settings, c);
      ghost var rest := Drain(s, settings, c);
      var r := t.Next();
      if r.Err? {
        assert events + [] == events;
        return events, Some(r.error);
      }
      if r.event.None? {
        assert events + [] == events;
        return events, None;
      }
      ghost var was := events;
      events := events + [r.event.value];
      c := t.At();
      assert was + rest.events == events + Drain(s, settings, c).events;
    }
  }

  lemma {:induction false} StepsDrain(s: Bytes, settings: Settings, c: Config, es: seq<Event>, d: Config)
    requires Within(s, c) && Within(s, d) && Steps(s, settings, c, es, d)
    ensures Drain(s, settings, c) == Drained(es + Drain(s, settings, d).events, Drain(s, settings, d).error)
    decreases |es|
  {
    hide NextStep;
    if es == [] {
      assert es + Drain(s, settings, d).events == Drain(s, settings, d).events;
    } else {
      StepAdvances(s, settings, c);
      StepsDrain(s, settings, NextStep(s, settings, c).next, es[1..], d);
      assert es == [es[0]] + es[1..];
    }
  }

  // ----- every JSON text is accepted -----

  /** A JSON text drains to the traversal of its value. */
  lemma TextDrains(s: Bytes, settings: Settings, before: Bytes, v: Json, after: Bytes)
    requires IsText(s, settings, before, v, after)
    ensures Drain(s, settings, BEGIN) == Drained(EventsOf(v), None)
  {
    hide ReadsAt, ValueAt, Spell, Good, IsSpace, Steps, Leads, HasBom, Drain;
    var start := if HasBom(s) && settings.ignoreBom then 3 else 0;
    var p := start + |before|;
    var q := p + |Spell(v)|;
    var d := Config(q, [], AfterValue);
    TextReads(s, settings, before, v, after);
    ReadsIn(s, start, before);
    ReadsIn(s, p, Spell(v));
    TextBegins(s, settings, v, start, before, p);
    AfterSpace(s, q, after);
    ValueReads(v, s, settings, p, []);
    NoBomAllowed(s, settings, before, v, after);
    StepsFirst(s, settings, BEGIN, EventsOf(v), d);
    StepsDrain(s, settings, BEGIN, EventsOf(v), d);
    TextEnds(s, settings, q, after);
    assert EventsOf(v) + [] == EventsOf(v);
  }

  lemma TextBegins(s: Bytes, settings: Settings, v: Json, start: nat, before: Bytes, p: nat)
    requires Good(v) && AllSpace(before) && ReadsAt(s, start, before) && p == start + |before| <= |s| && ReadsAt(s, p, Spell(v))
    ensures start <= |s| && ValueStep(s, settings, start, []) == ValueAt(s, settings, p, [])
  {
    hide ReadsAt, ValueAt, Spell, Good, IsSpace;
    SpellBegins(v);
    ReadsByte(s, p, Spell(v), 0);
    SpaceReads(s, start, before);
  }

  /** After the value there is nothing but white space. */
  lemma TextEnds(s: Bytes, settings: Settings, q: nat, after: Bytes)
    requires ReadsAt(s, q, after) && AllSpace(after) && q + |after| == |s|
    ensures Drain(s, settings, Config(q, [], AfterValue)) == Drained([], None)
  {
    hide ReadsAt, IsSpace;
    SpaceReads(s, q, after);
  }

  lemma TextReads(s: Bytes, settings: Settings, before: Bytes, v: Json, after: Bytes)
    requires IsText(s, settings, before, v, after)
    ensures var start := if HasBom(s) && settings.ignoreBom then 3 else 0;
            var p := start + |before|;
            var q := p + |Spell(v)|;
            ReadsAt(s, start, before) && ReadsAt(s, p, Spell(v)) && ReadsAt(s, q, after) && q + |after| == |s|
  {
    hide Spell, Good, AllSpace, Depth, HasBom, ReadsAt;
    var start := if HasBom(s) && settings.ignoreBom then 3 else 0;
    var text := before + Spell(v) + after;
    if HasBom(s) && settings.ignoreBom {
      WholeReads(BOM + text);
      ReadsPart(s, 0, BOM, text);
    } else {
      WholeReads(text);
    }
    ReadsPart(s, start, before + Spell(v), after);
    ReadsPart(s, start, before, Spell(v));
  }

  lemma WholeReads(s: Bytes)
    ensures ReadsAt(s, 0, s)
  {
  }

  /** No text begins with a byte order mark that is not ignored. */
  lemma NoBomAllowed(s: Bytes, settings: Settings, before: Bytes, v: Json, after: Bytes)
    requires IsText(s, settings, before, v, after)
    ensures HasBom(s) ==> settings.ignoreBom
  {
    BomFirst(s);
    SpellIsAscii(v);
    if before != [] {
      SpaceIsAscii(before[0]);
    }
  }

  lemma BomFirst(s: Bytes)
    ensures HasBom(s) ==> s[0] == 0xEF
  {
    if HasBom(s) {
      assert s[0] == s[..3][0];
    }
  }

  lemma SpaceIsAscii(b: bv8)
    ensures IsSpace(b) ==> b != 0xEF
  {
  }

  lemma SpellIsAscii(v: Json)
    requires Good(v)
    ensures Spell(v) != [] && Spell(v)[0] != 0xEF
  {
    match v
    case JsonNumber(text) => NumberBegins(text);
    case _ =>
  }

  // ----- only JSON texts are accepted -----

  ghost predicate Finishes(s: Bytes, settings: Settings, c: Config, es: seq<Event>) {
    Within(s, c) && Drain(s, settings, c) == Drained(es, None)
  }

  /** The step's event and then the drain from where it leaves the tokenizer are the events. */
  ghost predicate Ends(s: Bytes, settings: Settings, step: Step, es: seq<Event>) {
    step.Item? && es != [] && step.event == es[0] && Finishes(s, settings, step.next, es[1..])
  }

  lemma FinishesFirst(s: Bytes, settings: Settings, c: Config, es: seq<Event>)
    requires Finishes(s, settings, c, es)
    ensures NextStep(s, settings, c).Done? <==> es == []
    ensures es != [] ==> Ends(s, settings, NextStep(s, settings, c), es) && NextStep(s, settings, c).Item?
  {
    hide NextStep;
    StepAdvances(s, settings, c);
    var step := NextStep(s, settings, c);
    if step.Item? {
      assert es[1..] == Drain(s, settings, step.next).events;
    }
  }

  lemma SpaceSound(s: Bytes, pos: nat)
    requires pos <= |s|
    ensures var end := SkipSpace(s, pos); pos <= end <= |s| && AllSpace(s[pos..end]) && ReadsAt(s, pos, s[pos..end])
  {
    hide IsSpace;
  }

  lemma {:induction false} HexSound(s: Bytes, pos: nat, k: nat)
    requires pos <= |s| && HexEnd(s, pos, k).To?
    ensures pos + k <= |s| && forall i :: pos <= i < pos + k ==> HexDigit(s[i]).Some?
    decreases k
  {
    hide HexDigit;
    if k > 0 {
      HexSound(s, pos + 1, k - 1);
    }
  }

  lemma EscapeSound(s: Bytes, pos: nat, end: nat, stop: nat)
    requires pos < end <= stop <= |s| && s[pos] == BACKSLASH && EscapeEnd(s, pos) == To(end)
    ensures EscapeLength(s[pos..stop]) == end - pos
  {
    hide HexDigit, SimpleEscape;
    var t := s[pos..stop];
    if pos + 2 <= |s| {
      HexEnds(s, pos + 2, 4);
    }
    assert t[1] == s[pos + 1];
    if SimpleEscape(s[pos + 1]).None? {
      HexSound(s, pos + 2, 4);
      assert t[2..6] == s[pos + 2..pos + 6];
    }
  }

  /** What a string is scanned over is its grammar's. */
  lemma {:induction false} BodySound(s: Bytes, pos: nat)
    requires pos <= |s| && StringEnd(s, pos).To?
    ensures IsBody(s[pos..StringEnd(s, pos).end])
    decreases |s| - pos
  {
    hide EscapeEnd, EscapeLength;
    var end := StringEnd(s, pos).end;
    var t := s[pos..end];
    if pos < end {
      if s[pos] == BACKSLASH {
        EscapeEnds(s, pos);
        var next := EscapeEnd(s, pos).end;
        BodySound(s, next);
        EscapeSound(s, pos, next, end);
        assert t[next - pos..] == s[next..end];
      } else {
        BodySound(s, pos + 1);
        assert t[1..] == s[pos + 1..end];
      }
    }
  }

  lemma {:induction false} LiteralSound(s: Bytes, pos: nat, literal: Bytes, k: nat)
    requires k <= |literal| && pos + k <= |s| && s[pos..pos + k] == literal[..k] && LiteralTo(s, pos, literal, k).To?
    ensures ReadsAt(s, pos, literal) && LiteralTo(s, pos, literal, k).end == pos + |literal|
    decreases |literal| - k
  {
    if k < |literal| {
      assert s[pos..pos + k + 1] == literal[..k + 1];
      LiteralSound(s, pos, literal, k + 1);
    } else {
      assert literal[..k] == literal;
    }
  }

  /** A token that is a value by itself. */
  lemma ScalarSound(s: Bytes, settings: Settings, p: nat, stack: seq<Container>) returns (v: Json)
    requires p < |s| && s[p] != OPEN_ARRAY && s[p] != OPEN_OBJECT && ValueAt(s, settings, p, stack).Item?
    ensures Good(v) && Depth(v) == 0 && ReadsAt(s, p, Spell(v))
    ensures ValueAt(s, settings, p, stack) == Item(EventsOf(v)[0], Config(p + |Spell(v)|, stack, AfterValue)) && |EventsOf(v)| == 1
  {
    hide ScanNumber, StringEnd, LiteralTo, IsNumber, IsBody;
    if s[p] == QUOTE {
      var end := StringEnd(s, p + 1).end;
      v := JsonString(s[p + 1..end]);
      BodySound(s, p + 1);
      assert s[p..end + 1] == Quoted(s[p + 1..end]);
    } else if s[p] == MINUS || IsDigit(s[p]) {
      ScanBounds(s, p);
      ScannedIsNumber(s, p);
      v := JsonNumber(s[p..ScanNumber(s, p).pos]);
    } else if s[p] == 0x74 {
      LiteralSound(s, p, TRUE, 0);
      v := JsonBool(true);
    } else if s[p] == 0x66 {
      LiteralSound(s, p, FALSE, 0);
      v := JsonBool(false);
    } else {
      LiteralSound(s, p, NULL, 0);
      v := JsonNull;
    }
  }

  /** A value that was read is a value of the grammar, and its events are its traversal. */
  lemma {:induction false} ValueSound(s: Bytes, settings: Settings, p: nat, stack: seq<Container>, es: seq<Event>)
    returns (v: Json, k: nat)
    requires p <= |s| && Ends(s, settings, ValueAt(s, settings, p, stack), es)
    ensures Good(v) && ReadsAt(s, p, Spell(v)) && (Depth(v) > 0 ==> |stack| + Depth(v) <= settings.maxDepth)
    ensures k <= |es| && es[..k] == EventsOf(v)
    ensures Finishes(s, settings, Config(p + |Spell(v)|, stack, AfterValue), es[k..])
    decreases |es|, 2
  {
    hide Finishes, ReadsAt, StringEnd, ScanNumber, LiteralTo, IsNumber, IsBody;
    if s[p] == OPEN_ARRAY {
      v, k := ArraySound(s, settings, p, stack, es);
    } else if s[p] == OPEN_OBJECT {
      v, k := ObjectSound(s, settings, p, stack, es);
    } else {
      v := ScalarSound(s, settings, p, stack);
      k := 1;
      assert EventsOf(v) == [EventsOf(v)[0]];
    }
  }

  /** What an opening bracket that was read leaves. */
  lemma OpenSound(s: Bytes, settings: Settings, p: nat, stack: seq<Container>, es: seq<Event>)
    requires p < |s| && (s[p] == OPEN_ARRAY || s[p] == OPEN_OBJECT) && Ends(s, settings, ValueAt(s, settings, p, stack), es)
    ensures |stack| < settings.maxDepth && es != []
    ensures s[p] == OPEN_ARRAY ==> es[0] == StartArray && Finishes(s, settings, Config(p + 1, stack + [InArray], ArrayFirst), es[1..])
    ensures s[p] == OPEN_OBJECT ==> es[0] == StartObject && Finishes(s, settings, Config(p + 1, stack + [InObject], ObjectFirst), es[1..])
  {
    hide Finishes, StringEnd, ScanNumber, LiteralTo;
  }

  /** What a closing bracket that was read leaves. */
  lemma CloseSound(s: Bytes, settings: Settings, p: nat, stack: seq<Container>, container: Container, es: seq<Event>)
    requires Ends(s, settings, CloseStep(p, stack + [container]), es)
    ensures es[0] == if container == InArray then EndArray else EndObject
    ensures Finishes(s, settings, Config(p + 1, stack, AfterValue), es[1..])
  {
    hide Finishes;
    assert (stack + [container])[..|stack|] == stack;
  }

  lemma ReadsByteAt(s: Bytes, p: nat)
    requires p < |s|
    ensures ReadsAt(s, p, [s[p]])
  {
  }

  /** Brackets around what is between them. */
  lemma Bracketed(s: Bytes, p: nat, body: Bytes, close: bv8)
    requires p < |s| && ReadsAt(s, p + 1, body) && At(s, p + 1 + |body|, close)
    ensures ReadsAt(s, p, [s[p]] + body + [close])
  {
    hide ReadsAt;
    ReadsByteAt(s, p);
    ReadsByteAt(s, p + 1 + |body|);
    ReadsPart(s, p, [s[p]], body);
    ReadsPart(s, p, [s[p]] + body, [close]);
  }

  lemma {:induction false} ArraySound(s: Bytes, settings: Settings, p: nat, stack: seq<Container>, es: seq<Event>)
    returns (v: Json, k: nat)
    requires p < |s| && s[p] == OPEN_ARRAY && Ends(s, settings, ValueAt(s, settings, p, stack), es)
    ensures Good(v) && ReadsAt(s, p, Spell(v)) && |stack| + Depth(v) <= settings.maxDepth
    ensures k <= |es| && es[..k] == EventsOf(v)
    ensures Finishes(s, settings, Config(p + |Spell(v)|, stack, AfterValue), es[k..])
    decreases |es|, 1
  {
    hide Finishes, ReadsAt, ValueAt, IsSpace, Ends, SpellItems, ItemEvents;
    OpenSound(s, settings, p, stack, es);
    var open, rest := stack + [InArray], es[1..];
    FinishesFirst(s, settings, Config(p + 1, open, ArrayFirst), rest);
    var q := SkipSpace(s, p + 1);
    SpaceSound(s, p + 1);
    NoSpace(s, q);
    NotDone(s, settings, q, open);
    NoItemEvents();
    if At(s, q, CLOSE_ARRAY) {
      CloseSound(s, settings, q, stack, InArray, rest);
      v, k := JsonArray(s[p + 1..q], []), 2;
      Bracketed(s, p, s[p + 1..q], CLOSE_ARRAY);
      assert es[..2] == [es[0]] + ([] + [es[1]]) && es[2..] == rest[1..];
    } else {
      var items;
      items, k := ItemsSound(s, settings, p + 1, stack, rest);
      v, k := JsonArray([], items), k + 1;
      Bracketed(s, p, SpellItems(items), CLOSE_ARRAY);
      assert es[..k] == [es[0]] + rest[..k - 1] && es[k..] == rest[k - 1..];
    }
  }

  /** A first element, the white space around it, and what follows. */
  lemma SpelledItems(s: Bytes, pos: nat, p: nat, q: nat, r: nat, v: Json, items: seq<Element>)
    requires pos <= p <= q <= r <= |s| && ReadsAt(s, p, Spell(v)) && q == p + |Spell(v)|
    requires items != [] ==> At(s, r, COMMA) && ReadsAt(s, r + 1, SpellItems(items))
    ensures var all := [Element(s[pos..p], v, s[q..r])] + items;
            ReadsAt(s, pos, SpellItems(all)) && |SpellItems(all)| == r - pos + (if items == [] then 0 else 1 + |SpellItems(items)|)
  {
    hide Spell, ReadsAt;
    assert ([Element(s[pos..p], v, s[q..r])] + items)[1..] == items;
    SliceReads(s, pos, p);
    SliceReads(s, q, r);
    ReadsPart(s, pos, s[pos..p], Spell(v));
    ReadsPart(s, pos, s[pos..p] + Spell(v), s[q..r]);
    if items != [] {
      ReadsByteAt(s, r);
      ReadsPart(s, r, [COMMA], SpellItems(items));
      ReadsPart(s, pos, s[pos..p] + Spell(v) + s[q..r], [COMMA] + SpellItems(items));
    } else {
      assert s[pos..p] + Spell(v) + s[q..r] + [] == s[pos..p] + Spell(v) + s[q..r];
    }
  }

  lemma SliceReads(s: Bytes, a: nat, b: nat)
    requires a <= b <= |s|
    ensures ReadsAt(s, a, s[a..b])
  {
  }

  /** The elements at `pos` and their closing bracket are the first `k` of the events, and the drain goes on past them. */
  ghost predicate ItemsAre(s: Bytes, settings: Settings, pos: nat, stack: seq<Container>, es: seq<Event>,
                           items: seq<Element>, k: nat) {
    && items != [] && GoodItems(items) && ReadsAt(s, pos, SpellItems(items))
    && At(s, pos + |SpellItems(items)|, CLOSE_ARRAY)
    && |stack| + 1 + DepthItems(items) <= settings.maxDepth
    && k <= |es| && es[..k] == ItemEvents(items) + [EndArray]
    && Finishes(s, settings, Config(pos + |SpellItems(items)| + 1, stack, AfterValue), es[k..])
  }

  lemma FirstOfItems(item: Element, more: seq<Element>)
    ensures ItemEvents([item] + more) == EventsOf(item.value) + ItemEvents(more)
    ensures DepthItems([item] + more) == Larger(Depth(item.value), DepthItems(more))
    ensures AllSpace(item.before) && Good(item.value) && AllSpace(item.after) && GoodItems(more) ==> GoodItems([item] + more)
  {
    hide Good, Depth, EventsOf, AllSpace;
    assert ([item] + more)[1..] == more;
  }

  /** The events of a value and of what follows. */
  lemma ValueThenMore(es: seq<Event>, n: nat, m: nat)
    requires n + m <= |es|
    ensures es[..n + m] == es[..n] + es[n..][..m] && es[n + m..] == es[n..][m..]
  {
  }

  /** The element at `pos`, and what follows it: the bracket, or a comma and more. */
  lemma MoreItems(s: Bytes, settings: Settings, pos: nat, p: nat, q: nat, r: nat, v: Json, stack: seq<Container>, es: seq<Event>,
                  n: nat, more: seq<Element>, k: nat)
    requires pos <= p <= q <= r <= |s| && AllSpace(s[pos..p]) && Good(v) && AllSpace(s[q..r])
    requires ReadsAt(s, p, Spell(v)) && q == p + |Spell(v)| && |stack| + 1 + Depth(v) <= settings.maxDepth
    requires n <= |es| && es[..n] == EventsOf(v)
    requires if more == [] then
               && At(s, r, CLOSE_ARRAY) && k == 1 && n < |es| && es[n] == EndArray
               && Finishes(s, settings, Config(r + 1, stack, AfterValue), es[n..][1..])
             else At(s, r, COMMA) && ItemsAre(s, settings, r + 1, stack, es[n..], more, k)
    ensures ItemsAre(s, settings, pos, stack, es, [Element(s[pos..p], v, s[q..r])] + more, n + k)
  {
    hide Finishes, ReadsAt, Spell, EventsOf, Good, GoodItems, Depth, DepthItems, ItemEvents, SpellItems, AllSpace;
    var item := Element(s[pos..p], v, s[q..r]);
    SpelledItems(s, pos, p, q, r, v, more);
    FirstOfItems(item, more);
    ValueThenMore(es, n, k);
    if more == [] {
      NoItems();
      assert EventsOf(v) + [] + [EndArray] == EventsOf(v) + [EndArray];
      assert es[n..][..1] == [EndArray];
    } else {
      assert EventsOf(v) + (ItemEvents(more) + [EndArray]) == (EventsOf(v) + ItemEvents(more)) + [EndArray];
    }
  }

  lemma NoItems()
    ensures ItemEvents([]) == [] && DepthItems([]) == 0 && GoodItems([])
  {
  }

  /** Elements and their closing bracket. */
  lemma {:induction false} ItemsSound(s: Bytes, settings: Settings, pos: nat, stack: seq<Container>, es: seq<Event>)
    returns (items: seq<Element>, k: nat)
    requires pos <= |s| && Ends(s, settings, ValueStep(s, settings, pos, stack + [InArray]), es) && |stack| < settings.maxDepth
    ensures ItemsAre(s, settings, pos, stack, es, items, k)
    decreases |es|, 3
  {
    hide Finishes, ReadsAt, ValueAt, IsSpace, Ends, Spell, EventsOf, Good, Depth, ItemsAre, AllSpace;
    var open, p := stack + [InArray], SkipSpace(s, pos);
    SpaceSound(s, pos);
    var v, n := ValueSound(s, settings, p, open, es);
    ReadsIn(s, p, Spell(v));
    var q, rest := p + |Spell(v)|, es[n..];
    var r := SkipSpace(s, q);
    SpaceSound(s, q);
    FinishesFirst(s, settings, Config(q, open, AfterValue), rest);
    if r < |s| {
      NotDone(s, settings, r + 1, open);
    }
    var item := Element(s[pos..p], v, s[q..r]);
    if At(s, r, COMMA) {
      var more, m := ItemsSound(s, settings, r + 1, stack, rest);
      ItemsAreSome(s, settings, r + 1, stack, rest, more, m);
      MoreItems(s, settings, pos, p, q, r, v, stack, es, n, more, m);
      items, k := [item] + more, n + m;
    } else {
      CloseSound(s, settings, r, stack, InArray, rest);
      MoreItems(s, settings, pos, p, q, r, v, stack, es, n, [], 1);
      items, k := [item] + [], n + 1;
    }
  }

  lemma ItemsAreSome(s: Bytes, settings: Settings, pos: nat, stack: seq<Container>, es: seq<Event>, items: seq<Element>, k: nat)
    requires ItemsAre(s, settings, pos, stack, es, items, k)
    ensures items != []
  {
  }

  lemma NotDone(s: Bytes, settings: Settings, pos: nat, stack: seq<Container>)
    requires pos <= |s|
    ensures !ValueStep(s, settings, pos, stack).Done? && !KeyStep(s, pos, stack).Done?
  {
    hide StringEnd, ScanNumber, LiteralTo;
  }

  lemma {:induction false} ObjectSound(s: Bytes, settings: Settings, p: nat, stack: seq<Container>, es: seq<Event>)
    returns (v: Json, k: nat)
    requires p < |s| && s[p] == OPEN_OBJECT && Ends(s, settings, ValueAt(s, settings, p, stack), es)
    ensures Good(v) && ReadsAt(s, p, Spell(v)) && |stack| + Depth(v) <= settings.maxDepth
    ensures k <= |es| && es[..k] == EventsOf(v)
    ensures Finishes(s, settings, Config(p + |Spell(v)|, stack, AfterValue), es[k..])
    decreases |es|, 1
  {
    hide Finishes, ReadsAt, ValueAt, KeyStep, IsSpace, Ends, SpellMembers, MemberEvents;
    OpenSound(s, settings, p, stack, es);
    var open, rest := stack + [InObject], es[1..];
    FinishesFirst(s, settings, Config(p + 1, open, ObjectFirst), rest);
    var q := SkipSpace(s, p + 1);
    SpaceSound(s, p + 1);
    KeyAfterSpace(s, p + 1, open);
    NotDone(s, settings, q, open);
    NoItemEvents();
    if At(s, q, CLOSE_OBJECT) {
      CloseSound(s, settings, q, stack, InObject, rest);
      v, k := JsonObject(s[p + 1..q], []), 2;
      Bracketed(s, p, s[p + 1..q], CLOSE_OBJECT);
      assert es[..2] == [es[0]] + ([] + [es[1]]) && es[2..] == rest[1..];
    } else {
      var members;
      members, k := MembersSound(s, settings, p + 1, stack, rest);
      v, k := JsonObject([], members), k + 1;
      Bracketed(s, p, SpellMembers(members), CLOSE_OBJECT);
      assert es[..k] == [es[0]] + rest[..k - 1] && es[k..] == rest[k - 1..];
    }
  }

  lemma KeyAfterSpace(s: Bytes, pos: nat, stack: seq<Container>)
    requires pos <= |s|
    ensures KeyStep(s, SkipSpace(s, pos), stack) == KeyStep(s, pos, stack)
  {
    hide StringEnd, IsSpace;
    NoSpace(s, SkipSpace(s, pos));
  }

  /** A key that was read. */
  lemma KeyToken(s: Bytes, settings: Settings, pos: nat, stack: seq<Container>, es: seq<Event>) returns (a: nat, b: nat)
    requires pos <= |s| && Ends(s, settings, KeyStep(s, pos, stack), es)
    ensures pos <= a < a + 2 <= b <= |s|
    ensures AllSpace(s[pos..a]) && ReadsAt(s, a, Quoted(s[a + 1..b - 1])) && IsBody(s[a + 1..b - 1])
    ensures es != [] && es[0] == Key(StrOf(s[a + 1..b - 1])) && Finishes(s, settings, Config(b, stack, Colon), es[1..])
  {
    hide Finishes, StringEnd, IsSpace, IsBody, StrOf;
    a := SkipSpace(s, pos);
    SpaceSound(s, pos);
    b := StringEnd(s, a + 1).end + 1;
    BodySound(s, a + 1);
    assert s[a..b] == Quoted(s[a + 1..b - 1]);
  }

  /** A colon that was read, and where the value after it begins. */
  lemma ColonSound(s: Bytes, settings: Settings, b: nat, stack: seq<Container>, es: seq<Event>) returns (c: nat, d: nat)
    requires b <= |s| && Finishes(s, settings, Config(b, stack, Colon), es)
    ensures b <= c < c + 1 <= d <= |s| && AllSpace(s[b..c]) && s[c] == COLON && AllSpace(s[c + 1..d])
    ensures Ends(s, settings, ValueAt(s, settings, d, stack), es)
  {
    hide Finishes, Ends, IsSpace, ValueAt, AllSpace, ReadsAt;
    FinishesFirst(s, settings, Config(b, stack, Colon), es);
    c := SkipSpace(s, b);
    SpaceSound(s, b);
    if c < |s| {
      NotDone(s, settings, c + 1, stack);
    }
    d := SkipSpace(s, c + 1);
    SpaceSound(s, c + 1);
  }

  lemma SpelledMembers(s: Bytes, pos: nat, a: nat, b: nat, c: nat, d: nat, e: nat, f: nat, v: Json, members: seq<Member>)
    requires pos <= a < a + 2 <= b <= c < c + 1 <= d <= e <= f <= |s|
    requires ReadsAt(s, a, Quoted(s[a + 1..b - 1])) && s[c] == COLON && ReadsAt(s, d, Spell(v)) && e == d + |Spell(v)|
    requires members != [] ==> At(s, f, COMMA) && ReadsAt(s, f + 1, SpellMembers(members))
    ensures var all := [Member(s[pos..a], s[a + 1..b - 1], s[b..c], s[c + 1..d], v, s[e..f])] + members;
            && ReadsAt(s, pos, SpellMembers(all))
            && |SpellMembers(all)| == f - pos + (if members == [] then 0 else 1 + |SpellMembers(members)|)
  {
    hide Spell, Quoted, ReadsAt;
    var first := Member(s[pos..a], s[a + 1..b - 1], s[b..c], s[c + 1..d], v, s[e..f]);
    var key := Quoted(s[a + 1..b - 1]);
    QuotedBegins(s[a + 1..b - 1]);
    assert ([first] + members)[1..] == members;
    SliceReads(s, pos, a);
    SliceReads(s, b, c);
    SliceReads(s, c + 1, d);
    SliceReads(s, e, f);
    ReadsByteAt(s, c);
    ReadsPart(s, pos, s[pos..a], key);
    ReadsPart(s, pos, s[pos..a] + key, s[b..c]);
    ReadsPart(s, pos, s[pos..a] + key + s[b..c], [COLON]);
    var p5 := s[pos..a] + key + s[b..c] + [COLON] + s[c + 1..d];
    ReadsPart(s, pos, s[pos..a] + key + s[b..c] + [COLON], s[c + 1..d]);
    ReadsPart(s, pos, p5, Spell(v));
    ReadsPart(s, pos, p5 + Spell(v), s[e..f]);
    if members != [] {
      ReadsByteAt(s, f);
      ReadsPart(s, f, [COMMA], SpellMembers(members));
      ReadsPart(s, pos, p5 + Spell(v) + s[e..f], [COMMA] + SpellMembers(members));
    } else {
      assert p5 + Spell(v) + s[e..f] + [] == p5 + Spell(v) + s[e..f];
    }
  }

  /** The events of a key, of its value and of what follows. */
  lemma KeyThenMore(es: seq<Event>, n: nat, m: nat)
    requires 1 + n + m <= |es|
    ensures es[..1 + n + m] == [es[0]] + (es[1..][..n] + es[1..][n..][..m])
    ensures es[1 + n + m..] == es[1..][n..][m..]
  {
  }

  lemma MemberThenMore(key: Event, value: seq<Event>, more: seq<Event>, end: Event)
    ensures [key] + (value + (more + [end])) == ([key] + (value + more)) + [end]
  {
  }

  /** The members at `pos` and their closing bracket are the first `k` of the events, and the drain goes on past them. */
  ghost predicate MembersAre(s: Bytes, settings: Settings, pos: nat, stack: seq<Container>, es: seq<Event>,
                             members: seq<Member>, k: nat) {
    && members != [] && GoodMembers(members) && ReadsAt(s, pos, SpellMembers(members))
    && At(s, pos + |SpellMembers(members)|, CLOSE_OBJECT)
    && |stack| + 1 + DepthMembers(members) <= settings.maxDepth
    && k <= |es| && es[..k] == MemberEvents(members) + [EndObject]
    && Finishes(s, settings, Config(pos + |SpellMembers(members)| + 1, stack, AfterValue), es[k..])
  }

  /** The places of a key and a value that were read, and how many events the value has. */
  datatype Places = Places(pos: nat, a: nat, b: nat, c: nat, d: nat, e: nat, f: nat)

  ghost predicate MemberIs(s: Bytes, x: Places, m: Member, es: seq<Event>, n: nat) {
    && x.pos <= x.a < x.a + 2 <= x.b <= x.c < x.c + 1 <= x.d <= x.e <= x.f <= |s|
    && m == Member(s[x.pos..x.a], s[x.a + 1..x.b - 1], s[x.b..x.c], s[x.c + 1..x.d], m.value, s[x.e..x.f])
    && GoodMembers([m]) && ReadsAt(s, x.a, Quoted(m.key)) && s[x.c] == COLON
    && ReadsAt(s, x.d, Spell(m.value)) && x.e == x.d + |Spell(m.value)|
    && 1 + n <= |es| && es[0] == Key(StrOf(m.key)) && es[1..][..n] == EventsOf(m.value)
  }

  lemma FirstOfMembers(m: Member, more: seq<Member>)
    ensures MemberEvents([m] + more) == [Key(StrOf(m.key))] + (EventsOf(m.value) + MemberEvents(more))
    ensures DepthMembers([m] + more) == Larger(Depth(m.value), DepthMembers(more))
    ensures GoodMembers([m]) && GoodMembers(more) ==> GoodMembers([m] + more)
  {
    hide Good, Depth, EventsOf;
    assert ([m] + more)[1..] == more;
  }

  lemma LastMember(s: Bytes, settings: Settings, x: Places, m: Member, stack: seq<Container>, es: seq<Event>, n: nat)
    requires MemberIs(s, x, m, es, n) && At(s, x.f, CLOSE_OBJECT) && |stack| + 1 + Depth(m.value) <= settings.maxDepth
    requires 1 + n < |es| && es[1 + n] == EndObject && Finishes(s, settings, Config(x.f + 1, stack, AfterValue), es[1..][n..][1..])
    ensures MembersAre(s, settings, x.pos, stack, es, [m], 2 + n)
  {
    hide Finishes, ReadsAt, Spell, EventsOf, Good, GoodMembers, Depth, DepthMembers, MemberEvents, SpellMembers, Quoted, IsBody,
         AllSpace;
    SpelledMembers(s, x.pos, x.a, x.b, x.c, x.d, x.e, x.f, m.value, []);
    FirstOfMembers(m, []);
    assert [m] + [] == [m];
    NoMembers();
    KeyThenMore(es, n, 1);
    assert es[1..][n..][..1] == [] + [EndObject];
    MemberThenMore(es[0], EventsOf(m.value), [], EndObject);
  }

  lemma NoMembers()
    ensures MemberEvents([]) == [] && DepthMembers([]) == 0
  {
  }

  lemma MoreMembers(s: Bytes, settings: Settings, x: Places, m: Member, stack: seq<Container>, es: seq<Event>, n: nat,
                    more: seq<Member>, k: nat)
    requires MemberIs(s, x, m, es, n) && At(s, x.f, COMMA) && |stack| + 1 + Depth(m.value) <= settings.maxDepth
    requires MembersAre(s, settings, x.f + 1, stack, es[1..][n..], more, k)
    ensures MembersAre(s, settings, x.pos, stack, es, [m] + more, 1 + n + k)
  {
    hide Finishes, ReadsAt, Spell, EventsOf, Good, GoodMembers, Depth, DepthMembers, MemberEvents, SpellMembers, Quoted, IsBody,
         AllSpace;
    SpelledMembers(s, x.pos, x.a, x.b, x.c, x.d, x.e, x.f, m.value, more);
    FirstOfMembers(m, more);
    KeyThenMore(es, n, k);
    MemberThenMore(es[0], EventsOf(m.value), MemberEvents(more), EndObject);
  }

  /** Members and their closing bracket. */
  lemma {:induction false} MembersSound(s: Bytes, settings: Settings, pos: nat, stack: seq<Container>, es: seq<Event>)
    returns (members: seq<Member>, k: nat)
    requires pos <= |s| && Ends(s, settings, KeyStep(s, pos, stack + [InObject]), es) && |stack| < settings.maxDepth
    ensures MembersAre(s, settings, pos, stack, es, members, k)
    decreases |es|, 3
  {
    hide Finishes, ReadsAt, ValueAt, KeyStep, IsSpace, Ends, Spell, EventsOf, Good, Depth, Quoted, IsBody, MembersAre, AllSpace;
    var open := stack + [InObject];
    var a, b := KeyToken(s, settings, pos, open, es);
    var c, d := ColonSound(s, settings, b, open, es[1..]);
    var v, n := ValueSound(s, settings, d, open, es[1..]);
    ReadsIn(s, d, Spell(v));
    var e, rest := d + |Spell(v)|, es[1..][n..];
    var f := SkipSpace(s, e);
    SpaceSound(s, e);
    FinishesFirst(s, settings, Config(e, open, AfterValue), rest);
    if f < |s| {
      NotDone(s, settings, f + 1, open);
    }
    var x, m := Places(pos, a, b, c, d, e, f), Member(s[pos..a], s[a + 1..b - 1], s[b..c], s[c + 1..d], v, s[e..f]);
    assert [m][1..] == [];
    assert GoodMembers([m]);
    assert ReadsAt(s, x.a, Quoted(m.key)) && s[x.c] == COLON;
    assert ReadsAt(s, x.d, Spell(m.value)) && x.e == x.d + |Spell(m.value)|;
    assert 1 + n <= |es|;
    assert es[0] == Key(StrOf(m.key));
    assert es[1..][..n] == EventsOf(m.value);
    assert MemberIs(s, x, m, es, n);
    if At(s, f, COMMA) {
      var more, j := MembersSound(s, settings, f + 1, stack, rest);
      members, k := [m] + more, 1 + n + j;
      MoreMembers(s, settings, x, m, stack, es, n, more, j);
    } else {
      CloseSound(s, settings, f, stack, InObject, rest);
      members, k := [m], 2 + n;
      LastMember(s, settings, x, m, stack, es, n);
    }
  }

  /** A drain that has read its value is at its end, but for white space. */
  lemma EndSound(s: Bytes, settings: Settings, q: nat, es: seq<Event>)
    requires q <= |s| && Finishes(s, settings, Config(q, [], AfterValue), es)
    ensures es == [] && AllSpace(s[q..])
  {
    hide Finishes, IsSpace, AllSpace, Ends, ValueStep, KeyStep;
    FinishesFirst(s, settings, Config(q, [], AfterValue), es);
    SpaceSound(s, q);
    assert s[q..|s|] == s[q..];
  }

  /** The first value of a drain. */
  lemma FirstSound(s: Bytes, settings: Settings, es: seq<Event>) returns (start: nat, p: nat)
    requires Finishes(s, settings, BEGIN, es)
    ensures start == (if HasBom(s) then 3 else 0) && (HasBom(s) ==> settings.ignoreBom)
    ensures start <= p <= |s| && AllSpace(s[start..p]) && Ends(s, settings, ValueAt(s, settings, p, []), es)
  {
    hide Finishes, IsSpace, AllSpace, Ends, ValueAt;
    FinishesFirst(s, settings, BEGIN, es);
    start := if HasBom(s) then 3 else 0;
    NotDone(s, settings, start, []);
    p := SkipSpace(s, start);
    SpaceSound(s, start);
  }

  /** A drain without an error was of a JSON text, and its events are the value's traversal. */
  lemma DrainIsText(s: Bytes, settings: Settings) returns (before: Bytes, v: Json, after: Bytes)
    requires Drain(s, settings, BEGIN).error == None
    ensures IsText(s, settings, before, v, after) && Drain(s, settings, BEGIN).events == EventsOf(v)
  {
    hide ValueAt, Ends, Finishes, ReadsAt, IsSpace, Good, Spell, AllSpace, Depth, EventsOf, HasBom;
    var es := Drain(s, settings, BEGIN).events;
    AllFinishes(s, settings, es);
    var start, p := FirstSound(s, settings, es);
    var k;
    v, k := ValueSound(s, settings, p, [], es);
    var q := p + |Spell(v)|;
    ReadsIn(s, p, Spell(v));
    EndSound(s, settings, q, es[k..]);
    before, after := s[start..p], s[q..];
    assert es[..k] == es;
    TextIs(s, start, p, q, v);
  }

  lemma AllFinishes(s: Bytes, settings: Settings, es: seq<Event>)
    requires Drain(s, settings, BEGIN) == Drained(es, None)
    ensures Finishes(s, settings, BEGIN, es)
  {
  }

  lemma TextIs(s: Bytes, start: nat, p: nat, q: nat, v: Json)
    requires start <= p <= q <= |s| && ReadsAt(s, p, Spell(v)) && q == p + |Spell(v)|
    requires start == if HasBom(s) then 3 else 0
    ensures s == if HasBom(s) then BOM + (s[start..p] + Spell(v) + s[q..]) else s[start..p] + Spell(v) + s[q..]
  {
    hide Spell;
    assert s[start..] == s[start..p] + s[p..q] + s[q..];
    if HasBom(s) {
      assert s == s[..3] + s[3..];
    }
  }

  /** A drain ends without an error exactly for the JSON texts. */
  lemma AcceptsExactlyTexts(s: Bytes, settings: Settings)
    ensures Drain(s, settings, BEGIN).error == None <==> exists before, v, after :: IsText(s, settings, before, v, after)
  {
    hide IsText, Drain;
    if Drain(s, settings, BEGIN).error == None {
      var before, v, after := DrainIsText(s, settings);
    }
    if before, v, after :| IsText(s, settings, before, v, after) {
      TextDrains(s, settings, before, v, after);
    }
  }
}
