/** JSON texts as RFC 8259 sections 2 to 7 define them: trees that keep every byte, and the events they stand for. */
module JsonGrammar {
  import opened Options
  import opened JsonBytes
  import opened JsonNumbers
  import opened JsonStrings
  import opened JsonTokenizer

  datatype Json =
    | JsonNull
    | JsonBool(b: bool)
    | JsonNumber(text: Bytes)
    | JsonString(raw: Bytes)
    | JsonArray(inner: Bytes, items: seq<Element>)
    | JsonObject(inner: Bytes, members: seq<Member>)

  /** White space around a value. */
  datatype Element = Element(before: Bytes, value: Json, after: Bytes)

  datatype Member = Member(before: Bytes, key: Bytes, toColon: Bytes, toValue: Bytes, value: Json, after: Bytes)

  predicate AllSpace(w: Bytes) {
    forall i :: 0 <= i < |w| ==> IsSpace(w[i])
  }

  /** What the grammar asks of numbers, strings and white space. */
  ghost predicate Good(v: Json) {
    match v
    case JsonNumber(text) => IsNumber(text)
    case JsonString(raw) => IsBody(raw)
    case JsonArray(inner, items) => AllSpace(inner) && GoodItems(items)
    case JsonObject(inner, members) => AllSpace(inner) && GoodMembers(members)
    case _ => true
  }

  ghost predicate GoodItems(items: seq<Element>) {
    items == [] || (AllSpace(items[0].before) && Good(items[0].value) && AllSpace(items[0].after) && GoodItems(items[1..]))
  }

  ghost predicate GoodMembers(members: seq<Member>) {
    members == [] ||
    (AllSpace(members[0].before) && IsBody(members[0].key) && AllSpace(members[0].toColon) && AllSpace(members[0].toValue)
     && Good(members[0].value) && AllSpace(members[0].after) && GoodMembers(members[1..]))
  }

  function Quoted(raw: Bytes): Bytes {
    [QUOTE] + raw + [QUOTE]
  }

  /** The value as it is written. */
  function Spell(v: Json): Bytes {
    match v
    case JsonNull => NULL
    case JsonBool(b) => if b then TRUE else FALSE
    case JsonNumber(text) => text
    case JsonString(raw) => Quoted(raw)
    case JsonArray(inner, items) => [OPEN_ARRAY] + (if items == [] then inner else SpellItems(items)) + [CLOSE_ARRAY]
    case JsonObject(inner, members) =>
      [OPEN_OBJECT] + (if members == [] then inner else SpellMembers(members)) + [CLOSE_OBJECT]
  }

  function SpellItems(items: seq<Element>): Bytes {
    if items == [] then [] else
      items[0].before + Spell(items[0].value) + items[0].after
      + if |items| == 1 then [] else [COMMA] + SpellItems(items[1..])
  }

  function SpellMembers(members: seq<Member>): Bytes {
    if members == [] then [] else
      members[0].before + Quoted(members[0].key) + members[0].toColon + [COLON] + members[0].toValue
      + Spell(members[0].value) + members[0].after
      + if |members| == 1 then [] else [COMMA] + SpellMembers(members[1..])
  }

  function Larger(a: nat, b: nat): nat {
    if a < b then b else a
  }

  /** How many arrays and objects are open at once. */
  function Depth(v: Json): nat {
    match v
    case JsonArray(_, items) => 1 + DepthItems(items)
    case JsonObject(_, members) => 1 + DepthMembers(members)
    case _ => 0
  }

  function DepthItems(items: seq<Element>): nat {
    if items == [] then 0 else Larger(Depth(items[0].value), DepthItems(items[1..]))
  }

  function DepthMembers(members: seq<Member>): nat {
    if members == [] then 0 else Larger(Depth(members[0].value), DepthMembers(members[1..]))
  }

  /** The traversal of a value. */
  function EventsOf(v: Json): (es: seq<Event>)
    ensures es != []
  {
    match v
    case JsonNull => [Null]
    case JsonBool(b) => [Bool(b)]
    case JsonNumber(text) => [Number(text)]
    case JsonString(raw) => [String(StrOf(raw))]
    case JsonArray(_, items) => [StartArray] + (ItemEvents(items) + [EndArray])
    case JsonObject(_, members) => [StartObject] + (MemberEvents(members) + [EndObject])
  }

  function ItemEvents(items: seq<Element>): seq<Event> {
    if items == [] then [] else EventsOf(items[0].value) + ItemEvents(items[1..])
  }

  function MemberEvents(members: seq<Member>): seq<Event> {
    if members == [] then []
    else [Key(StrOf(members[0].key))] + (EventsOf(members[0].value) + MemberEvents(members[1..]))
  }

  /** A JSON text: a value with white space around it, nested no deeper than the limit, after an ignored byte order mark. */
  ghost predicate IsText(s: Bytes, settings: Settings, before: Bytes, v: Json, after: Bytes) {
    && Good(v) && AllSpace(before) && AllSpace(after) && Depth(v) <= settings.maxDepth
    && var text := before + Spell(v) + after;
       s == if HasBom(s) && settings.ignoreBom then BOM + text else text
  }

  // ----- tokens that are read -----

  lemma {:induction false} SpaceReads(s: Bytes, pos: nat, w: Bytes)
    requires ReadsAt(s, pos, w) && AllSpace(w) && (pos + |w| < |s| ==> !IsSpace(s[pos + |w|]))
    ensures SkipSpace(s, pos) == pos + |w|
    decreases |w|
  {
    hide IsSpace;
    if w != [] {
      ReadsByte(s, pos, w, 0);
      ReadsPart(s, pos, [w[0]], w[1..]);
      assert w == [w[0]] + w[1..];
      SpaceReads(s, pos + 1, w[1..]);
    }
  }

  lemma NoSpace(s: Bytes, pos: nat)
    requires pos < |s| ==> !IsSpace(s[pos])
    ensures SkipSpace(s, pos) == pos
  {
  }

  lemma {:induction false} HexReads(s: Bytes, pos: nat, t: Bytes, k: nat)
    requires k <= |t| && ReadsAt(s, pos, t) && forall i :: 0 <= i < |t| ==> HexDigit(t[i]).Some?
    ensures HexEnd(s, pos + k, |t| - k) == To(pos + |t|)
    decreases |t| - k
  {
    hide HexDigit;
    if k < |t| {
      ReadsByte(s, pos, t, k);
      HexReads(s, pos, t, k + 1);
    }
  }

  lemma Hex4Digits(t: Bytes)
    requires Hex4(t).Some?
    ensures |t| == 4 && forall i :: 0 <= i < 4 ==> HexDigit(t[i]).Some?
  {
    hide HexDigit;
  }

  lemma EscapeReads(s: Bytes, pos: nat, t: Bytes)
    requires ReadsAt(s, pos, t) && EscapeLength(t) > 0
    ensures EscapeEnd(s, pos) == To(pos + EscapeLength(t))
  {
    hide SimpleEscape, Hex4, HexDigit, ReadsAt;
    ReadsByte(s, pos, t, 0);
    ReadsByte(s, pos, t, 1);
    if EscapeLength(t) == 6 {
      SimpleIsNotU();
      assert t == t[..2] + t[2..6] + t[6..];
      ReadsPart(s, pos, t[..2] + t[2..6], t[6..]);
      ReadsPart(s, pos, t[..2], t[2..6]);
      Hex4Digits(t[2..6]);
      HexReads(s, pos + 2, t[2..6], 0);
    }
  }

  /** A string's inside is read up to its closing quote. */
  lemma {:induction false} BodyReads(s: Bytes, pos: nat, raw: Bytes)
    requires ReadsAt(s, pos, raw) && IsBody(raw) && At(s, pos + |raw|, QUOTE)
    ensures StringEnd(s, pos) == To(pos + |raw|)
    decreases |raw|
  {
    hide EscapeLength, EscapeEnd, ReadsAt;
    ReadsIn(s, pos, raw);
    if raw != [] {
      ReadsByte(s, pos, raw, 0);
      if raw[0] == BACKSLASH {
        var n := EscapeLength(raw);
        EscapeReads(s, pos, raw);
        assert raw == raw[..n] + raw[n..];
        ReadsPart(s, pos, raw[..n], raw[n..]);
        BodyReads(s, pos + n, raw[n..]);
      } else {
        assert raw == [raw[0]] + raw[1..];
        ReadsPart(s, pos, [raw[0]], raw[1..]);
        BodyReads(s, pos + 1, raw[1..]);
      }
    }
  }

  lemma ReadsIn(s: Bytes, pos: nat, t: Bytes)
    requires ReadsAt(s, pos, t)
    ensures pos + |t| <= |s|
  {
  }

  lemma {:induction false} LiteralReads(s: Bytes, pos: nat, literal: Bytes, k: nat)
    requires k <= |literal| && ReadsAt(s, pos, literal)
    ensures LiteralTo(s, pos, literal, k) == To(pos + |literal|)
    decreases |literal| - k
  {
    if k < |literal| {
      ReadsByte(s, pos, literal, k);
      LiteralReads(s, pos, literal, k + 1);
    }
  }

  // ----- every text is read -----

  /** The calls from `c` on give the events `es`, and leave the tokenizer at `d`. */
  predicate Steps(s: Bytes, settings: Settings, c: Config, es: seq<Event>, d: Config)
    decreases |es|
  {
    if es == [] then c == d
    else if c.pos > |s| then false
    else
      var step := NextStep(s, settings, c);
      step.Item? && step.event == es[0] && Steps(s, settings, step.next, es[1..], d)
  }

  lemma {:induction false} StepsJoin(s: Bytes, settings: Settings, c: Config, es: seq<Event>, d: Config, fs: seq<Event>, g: Config)
    requires Steps(s, settings, c, es, d) && Steps(s, settings, d, fs, g)
    ensures Steps(s, settings, c, es + fs, g)
    decreases |es|
  {
    hide NextStep;
    if es == [] {
      assert es + fs == fs;
    } else {
      assert (es + fs)[1..] == es[1..] + fs;
      StepsJoin(s, settings, NextStep(s, settings, c).next, es[1..], d, fs, g);
    }
  }

  /** The step gives the first of the events, and the calls after it the others. */
  predicate Leads(s: Bytes, settings: Settings, step: Step, es: seq<Event>, d: Config) {
    es != [] && step.Item? && step.event == es[0] && Steps(s, settings, step.next, es[1..], d)
  }

  lemma LeadsJoin(s: Bytes, settings: Settings, step: Step, es: seq<Event>, d: Config, fs: seq<Event>, g: Config)
    requires Leads(s, settings, step, es, d) && Steps(s, settings, d, fs, g)
    ensures Leads(s, settings, step, es + fs, g)
  {
    hide NextStep;
    StepsJoin(s, settings, step.next, es[1..], d, fs, g);
    assert (es + fs)[1..] == es[1..] + fs;
  }

  lemma LeadsOne(s: Bytes, settings: Settings, event: Event, d: Config)
    ensures Leads(s, settings, Item(event, d), [event], d)
  {
  }

  lemma StepsFirst(s: Bytes, settings: Settings, c: Config, es: seq<Event>, d: Config)
    requires c.pos <= |s| && Leads(s, settings, NextStep(s, settings, c), es, d)
    ensures Steps(s, settings, c, es, d)
  {
    hide NextStep;
  }

  /** What follows cannot go on a number. */
  predicate Stops(s: Bytes, pos: nat) {
    pos < |s| ==> !Continues(s[pos])
  }

  lemma SpellBegins(v: Json)
    requires Good(v)
    ensures Spell(v) != [] && !IsSpace(Spell(v)[0])
  {
    match v
    case JsonNumber(text) => NumberBegins(text);
    case _ =>
  }

  /** A value is read where it begins, as its traversal. */
  lemma {:induction false} ValueReads(v: Json, s: Bytes, settings: Settings, pos: nat, stack: seq<Container>)
    requires Good(v) && ReadsAt(s, pos, Spell(v)) && |stack| + Depth(v) <= settings.maxDepth && Stops(s, pos + |Spell(v)|)
    ensures pos <= |s| && Leads(s, settings, ValueAt(s, settings, pos, stack), EventsOf(v), Config(pos + |Spell(v)|, stack, AfterValue))
    decreases v, 0
  {
    hide Leads, ReadsAt;
    ReadsIn(s, pos, Spell(v));
    match v
    case JsonArray(inner, items) => ArrayReads(inner, items, s, settings, pos, stack);
    case JsonObject(inner, members) => ObjectReads(inner, members, s, settings, pos, stack);
    case _ =>
      ScalarReads(v, s, settings, pos, stack);
      LeadsOne(s, settings, EventsOf(v)[0], Config(pos + |Spell(v)|, stack, AfterValue));
  }

  lemma ScalarReads(v: Json, s: Bytes, settings: Settings, pos: nat, stack: seq<Container>)
    requires Good(v) && ReadsAt(s, pos, Spell(v)) && !v.JsonArray? && !v.JsonObject? && Stops(s, pos + |Spell(v)|)
    ensures pos <= |s| && ValueAt(s, settings, pos, stack) == Item(EventsOf(v)[0], Config(pos + |Spell(v)|, stack, AfterValue))
  {
    hide ReadsAt, StringEnd, ScanNumber, LiteralTo, IsNumber, IsBody, Continues;
    ReadsIn(s, pos, Spell(v));
    match v
    case JsonNull =>
      ReadsByte(s, pos, NULL, 0);
      LiteralReads(s, pos, NULL, 0);
    case JsonBool(b) =>
      ReadsByte(s, pos, Spell(v), 0);
      LiteralReads(s, pos, Spell(v), 0);
    case JsonNumber(text) =>
      NumberBegins(text);
      ReadsByte(s, pos, text, 0);
      NumberReads(s, pos, text);
      ReadsSlice(s, pos, text);
    case JsonString(raw) => StringReads(s, pos, raw);
  }

  lemma ReadsSlice(s: Bytes, pos: nat, t: Bytes)
    requires ReadsAt(s, pos, t)
    ensures pos + |t| <= |s| && s[pos..pos + |t|] == t
  {
  }

  lemma StringReads(s: Bytes, pos: nat, raw: Bytes)
    requires ReadsAt(s, pos, Quoted(raw)) && IsBody(raw)
    ensures pos + |Quoted(raw)| <= |s| && s[pos] == QUOTE
    ensures StringEnd(s, pos + 1) == To(pos + 1 + |raw|) && s[pos + 1..pos + 1 + |raw|] == raw
  {
    hide ReadsAt, StringEnd, IsBody;
    ReadsIn(s, pos, Quoted(raw));
    ReadsPart(s, pos, [QUOTE] + raw, [QUOTE]);
    ReadsPart(s, pos, [QUOTE], raw);
    ReadsByte(s, pos, [QUOTE], 0);
    ReadsByte(s, pos + 1 + |raw|, [QUOTE], 0);
    BodyReads(s, pos + 1, raw);
    ReadsSlice(s, pos + 1, raw);
  }

  lemma {:induction false} ArrayReads(inner: Bytes, items: seq<Element>, s: Bytes, settings: Settings, pos: nat, stack: seq<Container>)
    requires Good(JsonArray(inner, items)) && ReadsAt(s, pos, Spell(JsonArray(inner, items)))
    requires |stack| + 1 + DepthItems(items) <= settings.maxDepth
    ensures pos <= |s| && Leads(s, settings, ValueAt(s, settings, pos, stack), EventsOf(JsonArray(inner, items)),
                                Config(pos + |Spell(JsonArray(inner, items))|, stack, AfterValue))
    decreases items, 2
  {
    hide Leads, Steps, ReadsAt, ValueStep, SpellItems, ItemEvents, IsSpace;
    var body := if items == [] then inner else SpellItems(items);
    var c := Config(pos + 1, stack + [InArray], ArrayFirst);
    var d := Config(pos + 2 + |body|, stack, AfterValue);
    ReadsIn(s, pos, Spell(JsonArray(inner, items)));
    ReadsPart(s, pos, [OPEN_ARRAY] + body, [CLOSE_ARRAY]);
    ReadsPart(s, pos, [OPEN_ARRAY], body);
    ReadsByte(s, pos, [OPEN_ARRAY], 0);
    ReadsByte(s, pos + 1 + |body|, [CLOSE_ARRAY], 0);
    Brackets();
    LeadsOne(s, settings, StartArray, c);
    if items == [] {
      SpaceReads(s, pos + 1, inner);
      assert (stack + [InArray])[..|stack|] == stack;
      LeadsOne(s, settings, EndArray, d);
      StepsFirst(s, settings, c, [EndArray], d);
      NoItemEvents();
      assert [] + [EndArray] == [EndArray];
    } else {
      ItemsRead(items, s, settings, pos + 1, stack);
      FirstItem(items, s, settings, pos + 1, stack + [InArray]);
      StepsFirst(s, settings, c, ItemEvents(items) + [EndArray], d);
    }
    LeadsJoin(s, settings, Item(StartArray, c), [StartArray], c, ItemEvents(items) + [EndArray], d);
  }

  lemma NoItemEvents()
    ensures ItemEvents([]) == [] && MemberEvents([]) == []
  {
  }

  lemma Brackets()
    ensures !IsSpace(OPEN_ARRAY) && !IsSpace(CLOSE_ARRAY) && !IsSpace(OPEN_OBJECT) && !IsSpace(CLOSE_OBJECT)
    ensures !IsSpace(COMMA) && !IsSpace(COLON) && !IsSpace(QUOTE)
  {
  }

  /** Before the first element there is no closing bracket. */
  lemma FirstItem(items: seq<Element>, s: Bytes, settings: Settings, pos: nat, stack: seq<Container>)
    requires items != [] && GoodItems(items) && ReadsAt(s, pos, SpellItems(items))
    ensures pos <= |s| && NextStep(s, settings, Config(pos, stack, ArrayFirst)) == ValueStep(s, settings, pos, stack)
  {
    hide ReadsAt, Spell, IsSpace, ValueAt, Good;
    var item := items[0];
    var tail := if |items| == 1 then [] else [COMMA] + SpellItems(items[1..]);
    var value := Spell(item.value);
    ReadsIn(s, pos, SpellItems(items));
    ReadsPart(s, pos, item.before + value + item.after, tail);
    ReadsPart(s, pos, item.before + value, item.after);
    ReadsPart(s, pos, item.before, value);
    SpellBegins(item.value);
    ReadsByte(s, pos + |item.before|, value, 0);
    SpaceReads(s, pos, item.before);
    NoSpace(s, pos + |item.before|);
    NotClosing(item.value);
  }

  lemma NotClosing(v: Json)
    requires Good(v)
    ensures Spell(v) != [] && Spell(v)[0] != CLOSE_ARRAY
  {
    match v
    case JsonNumber(text) => NumberBegins(text);
    case _ =>
  }

  /** White space and a closing bracket. */
  lemma BracketRead(s: Bytes, settings: Settings, q: nat, after: Bytes, stack: seq<Container>, container: Container)
    requires ReadsAt(s, q, after) && AllSpace(after)
    requires At(s, q + |after|, if container == InArray then CLOSE_ARRAY else CLOSE_OBJECT)
    ensures Steps(s, settings, Config(q, stack + [container], AfterValue), [if container == InArray then EndArray else EndObject],
                  Config(q + |after| + 1, stack, AfterValue))
  {
    hide ReadsAt, IsSpace, ValueStep, KeyStep, Steps;
    var open, d := stack + [container], Config(q, stack + [container], AfterValue);
    var event, last := if container == InArray then EndArray else EndObject, Config(q + |after| + 1, stack, AfterValue);
    Brackets();
    ReadsIn(s, q, after);
    SpaceReads(s, q, after);
    assert open[..|stack|] == stack;
    assert NextStep(s, settings, d) == Item(event, last);
    LeadsOne(s, settings, event, last);
    StepsFirst(s, settings, d, [event], last);
  }

  /** White space, a comma and what it leads to. */
  lemma CommaRead(s: Bytes, settings: Settings, q: nat, after: Bytes, open: seq<Container>, es: seq<Event>, last: Config)
    requires ReadsAt(s, q, after) && AllSpace(after) && At(s, q + |after|, COMMA) && open != []
    requires var r := q + |after| + 1;
             Leads(s, settings, if open[|open| - 1] == InArray then ValueStep(s, settings, r, open) else KeyStep(s, r, open), es, last)
    ensures Steps(s, settings, Config(q, open, AfterValue), es, last)
  {
    hide ReadsAt, IsSpace, ValueStep, KeyStep, Leads;
    Brackets();
    ReadsIn(s, q, after);
    SpaceReads(s, q, after);
    StepsFirst(s, settings, Config(q, open, AfterValue), es, last);
  }

  /** The places of an element's parts. */
  lemma ItemParts(items: seq<Element>, s: Bytes, pos: nat)
    requires items != [] && ReadsAt(s, pos, SpellItems(items))
    ensures var item := items[0];
            var p := pos + |item.before|;
            var q := p + |Spell(item.value)|;
            var r := q + |item.after|;
            && pos <= r <= |s| && ReadsAt(s, pos, item.before) && ReadsAt(s, p, Spell(item.value)) && ReadsAt(s, q, item.after)
            && (|items| > 1 ==> At(s, r, COMMA) && ReadsAt(s, r + 1, SpellItems(items[1..])))
            && r + (if |items| == 1 then 0 else 1 + |SpellItems(items[1..])|) == pos + |SpellItems(items)|
  {
    hide ReadsAt, Spell;
    var item, value := items[0], Spell(items[0].value);
    var tail := if |items| == 1 then [] else [COMMA] + SpellItems(items[1..]);
    ReadsIn(s, pos, SpellItems(items));
    ReadsPart(s, pos, item.before + value + item.after, tail);
    ReadsPart(s, pos, item.before + value, item.after);
    ReadsPart(s, pos, item.before, value);
    if |items| > 1 {
      var r := pos + |item.before + value + item.after|;
      ReadsPart(s, r, [COMMA], SpellItems(items[1..]));
      ReadsByte(s, r, [COMMA], 0);
    }
  }

  /** The elements and the closing bracket. */
  lemma {:induction false} ItemsRead(items: seq<Element>, s: Bytes, settings: Settings, pos: nat, stack: seq<Container>)
    requires items != [] && GoodItems(items) && ReadsAt(s, pos, SpellItems(items)) && At(s, pos + |SpellItems(items)|, CLOSE_ARRAY)
    requires |stack| + 1 + DepthItems(items) <= settings.maxDepth
    ensures pos <= |s| && Leads(s, settings, ValueStep(s, settings, pos, stack + [InArray]), ItemEvents(items) + [EndArray],
                                Config(pos + |SpellItems(items)| + 1, stack, AfterValue))
    decreases items, 1
  {
    hide Leads, Steps, ReadsAt, ValueAt, Spell, SpellItems, IsSpace, Good, EventsOf, Depth, Continues, ValueStep;
    var item, open, rest := items[0], stack + [InArray], items[1..];
    var p := pos + |item.before|;
    var q := p + |Spell(item.value)|;
    var d, last := Config(q, open, AfterValue), Config(pos + |SpellItems(items)| + 1, stack, AfterValue);
    var more := ItemEvents(rest) + [EndArray];
    ItemParts(items, s, pos);
    SpellBegins(item.value);
    ReadsByte(s, p, Spell(item.value), 0);
    SpaceReads(s, pos, item.before);
    AfterSpace(s, q, item.after);
    ValueReads(item.value, s, settings, p, open);
    if |items| == 1 {
      BracketRead(s, settings, q, item.after, stack, InArray);
      assert rest == [];
      NoItemEvents();
      assert [] + [EndArray] == [EndArray];
    } else {
      ItemsRead(rest, s, settings, q + |item.after| + 1, stack);
      CommaRead(s, settings, q, item.after, open, more, last);
    }
    ValueAfterSpace(s, settings, pos, p, open);
    LeadsJoin(s, settings, ValueStep(s, settings, pos, open), EventsOf(item.value), d, more, last);
    assert EventsOf(item.value) + more == ItemEvents(items) + [EndArray];
  }

  lemma ValueAfterSpace(s: Bytes, settings: Settings, pos: nat, p: nat, stack: seq<Container>)
    requires pos <= |s| && p <= |s| && SkipSpace(s, pos) == p
    ensures ValueStep(s, settings, pos, stack) == ValueAt(s, settings, p, stack)
  {
    hide ValueAt;
  }

  /** White space, a comma or a closing bracket stops a number. */
  lemma AfterSpace(s: Bytes, pos: nat, w: Bytes)
    requires ReadsAt(s, pos, w) && AllSpace(w)
    requires At(s, pos + |w|, COMMA) || At(s, pos + |w|, CLOSE_ARRAY) || At(s, pos + |w|, CLOSE_OBJECT) || pos + |w| == |s|
    ensures Stops(s, pos)
  {
    hide ReadsAt;
    ReadsIn(s, pos, w);
    if w != [] {
      ReadsByte(s, pos, w, 0);
      SpaceStops(s[pos]);
    }
  }

  lemma SpaceStops(b: bv8)
    requires IsSpace(b)
    ensures !Continues(b)
  {
  }

  lemma {:induction false} ObjectReads(inner: Bytes, members: seq<Member>, s: Bytes, settings: Settings, pos: nat,
                                       stack: seq<Container>)
    requires Good(JsonObject(inner, members)) && ReadsAt(s, pos, Spell(JsonObject(inner, members)))
    requires |stack| + 1 + DepthMembers(members) <= settings.maxDepth
    ensures pos <= |s| && Leads(s, settings, ValueAt(s, settings, pos, stack), EventsOf(JsonObject(inner, members)),
                                Config(pos + |Spell(JsonObject(inner, members))|, stack, AfterValue))
    decreases members, 2
  {
    hide Leads, Steps, ReadsAt, KeyStep, SpellMembers, MemberEvents, IsSpace;
    var body := if members == [] then inner else SpellMembers(members);
    var c := Config(pos + 1, stack + [InObject], ObjectFirst);
    var d := Config(pos + 2 + |body|, stack, AfterValue);
    ReadsIn(s, pos, Spell(JsonObject(inner, members)));
    ReadsPart(s, pos, [OPEN_OBJECT] + body, [CLOSE_OBJECT]);
    ReadsPart(s, pos, [OPEN_OBJECT], body);
    ReadsByte(s, pos, [OPEN_OBJECT], 0);
    ReadsByte(s, pos + 1 + |body|, [CLOSE_OBJECT], 0);
    Brackets();
    LeadsOne(s, settings, StartObject, c);
    if members == [] {
      SpaceReads(s, pos + 1, inner);
      assert (stack + [InObject])[..|stack|] == stack;
      LeadsOne(s, settings, EndObject, d);
      StepsFirst(s, settings, c, [EndObject], d);
      NoItemEvents();
      assert [] + [EndObject] == [EndObject];
    } else {
      MembersRead(members, s, settings, pos + 1, stack);
      FirstMember(members, s, settings, pos + 1, stack + [InObject]);
      StepsFirst(s, settings, c, MemberEvents(members) + [EndObject], d);
    }
    LeadsJoin(s, settings, Item(StartObject, c), [StartObject], c, MemberEvents(members) + [EndObject], d);
  }

  lemma FirstMember(members: seq<Member>, s: Bytes, settings: Settings, pos: nat, stack: seq<Container>)
    requires members != [] && GoodMembers(members) && ReadsAt(s, pos, SpellMembers(members))
    ensures pos <= |s| && NextStep(s, settings, Config(pos, stack, ObjectFirst)) == KeyStep(s, pos, stack)
  {
    hide ReadsAt, Spell, IsSpace, Good, StringEnd, Quoted;
    MemberParts(members, s, pos);
    var m := members[0];
    Brackets();
    QuotedBegins(m.key);
    ReadsByte(s, pos + |m.before|, Quoted(m.key), 0);
    SpaceReads(s, pos, m.before);
    NoSpace(s, pos + |m.before|);
  }

  lemma QuotedBegins(raw: Bytes)
    ensures Quoted(raw) != [] && Quoted(raw)[0] == QUOTE && |Quoted(raw)| == |raw| + 2
  {
  }

  /** The places of a member's parts. */
  lemma MemberParts(members: seq<Member>, s: Bytes, pos: nat)
    requires members != [] && ReadsAt(s, pos, SpellMembers(members))
    ensures var m := members[0];
            var a := pos + |m.before|;
            var b := a + |Quoted(m.key)|;
            var c := b + |m.toColon|;
            var d := c + 1 + |m.toValue|;
            var e := d + |Spell(m.value)|;
            var f := e + |m.after|;
            && pos <= f <= |s| && ReadsAt(s, pos, m.before) && ReadsAt(s, a, Quoted(m.key)) && ReadsAt(s, b, m.toColon)
            && At(s, c, COLON) && ReadsAt(s, c + 1, m.toValue) && ReadsAt(s, d, Spell(m.value)) && ReadsAt(s, e, m.after)
            && (|members| > 1 ==> At(s, f, COMMA) && ReadsAt(s, f + 1, SpellMembers(members[1..])))
            && f + (if |members| == 1 then 0 else 1 + |SpellMembers(members[1..])|) == pos + |SpellMembers(members)|
  {
    hide ReadsAt, Spell, Quoted;
    var m := members[0];
    var tail := if |members| == 1 then [] else [COMMA] + SpellMembers(members[1..]);
    var p5 := m.before + Quoted(m.key) + m.toColon + [COLON] + m.toValue;
    ReadsIn(s, pos, SpellMembers(members));
    ReadsPart(s, pos, p5 + Spell(m.value) + m.after, tail);
    ReadsPart(s, pos, p5 + Spell(m.value), m.after);
    ReadsPart(s, pos, p5, Spell(m.value));
    ReadsPart(s, pos, m.before + Quoted(m.key) + m.toColon + [COLON], m.toValue);
    ReadsPart(s, pos, m.before + Quoted(m.key) + m.toColon, [COLON]);
    ReadsPart(s, pos, m.before + Quoted(m.key), m.toColon);
    ReadsPart(s, pos, m.before, Quoted(m.key));
    ReadsByte(s, pos + |m.before + Quoted(m.key) + m.toColon|, [COLON], 0);
    if |members| > 1 {
      var f := pos + |p5 + Spell(m.value) + m.after|;
      ReadsPart(s, f, [COMMA], SpellMembers(members[1..]));
      ReadsByte(s, f, [COMMA], 0);
    }
  }

  /** A key and what follows it, up to its value. */
  lemma KeyReads(m: Member, s: Bytes, settings: Settings, pos: nat, stack: seq<Container>)
    requires AllSpace(m.before) && IsBody(m.key) && AllSpace(m.toColon) && AllSpace(m.toValue)
    requires var a := pos + |m.before|;
             var b := a + |Quoted(m.key)|;
             var c := b + |m.toColon|;
             && ReadsAt(s, pos, m.before) && ReadsAt(s, a, Quoted(m.key)) && ReadsAt(s, b, m.toColon)
             && At(s, c, COLON) && ReadsAt(s, c + 1, m.toValue)
             && c + 1 + |m.toValue| < |s| && !IsSpace(s[c + 1 + |m.toValue|])
    ensures var b := pos + |m.before| + |Quoted(m.key)|;
            var d := b + |m.toColon| + 1 + |m.toValue|;
            && pos <= |s| && KeyStep(s, pos, stack) == Item(Key(StrOf(m.key)), Config(b, stack, Colon))
            && NextStep(s, settings, Config(b, stack, Colon)) == ValueAt(s, settings, d, stack)
  {
    hide ReadsAt, IsSpace, StringEnd, IsBody, ValueAt;
    var a := pos + |m.before|;
    var b := a + |Quoted(m.key)|;
    var c := b + |m.toColon|;
    Brackets();
    StringReads(s, a, m.key);
    SpaceReads(s, pos, m.before);
    SpaceReads(s, b, m.toColon);
    SpaceReads(s, c + 1, m.toValue);
    ReadsIn(s, pos, m.before);
  }

  /** A key and its value, and what follows them. */
  lemma MemberJoins(s: Bytes, settings: Settings, step: Step, event: Event, key: Config, es: seq<Event>, value: Config,
                    more: seq<Event>, last: Config)
    requires step == Item(event, key) && key.pos <= |s|
    requires Leads(s, settings, NextStep(s, settings, key), es, value) && Steps(s, settings, value, more, last)
    ensures Leads(s, settings, step, [event] + (es + more), last)
  {
    hide Leads, Steps, NextStep;
    LeadsJoin(s, settings, NextStep(s, settings, key), es, value, more, last);
    StepsFirst(s, settings, key, es + more, last);
    LeadsOne(s, settings, event, key);
    LeadsJoin(s, settings, step, [event], key, es + more, last);
  }

  /** The members and the closing bracket. */
  lemma {:induction false} MembersRead(members: seq<Member>, s: Bytes, settings: Settings, pos: nat, stack: seq<Container>)
    requires members != [] && GoodMembers(members) && ReadsAt(s, pos, SpellMembers(members))
    requires At(s, pos + |SpellMembers(members)|, CLOSE_OBJECT)
    requires |stack| + 1 + DepthMembers(members) <= settings.maxDepth
    ensures pos <= |s| && Leads(s, settings, KeyStep(s, pos, stack + [InObject]), MemberEvents(members) + [EndObject],
                                Config(pos + |SpellMembers(members)| + 1, stack, AfterValue))
    decreases members, 1
  {
    hide Leads, Steps, NextStep, ReadsAt, ValueAt, Spell, SpellMembers, IsSpace, IsBody, Good, EventsOf, Depth, Continues, KeyStep, Quoted,
         StrOf;
    var m, open, rest := members[0], stack + [InObject], members[1..];
    var b := pos + |m.before| + |Quoted(m.key)|;
    var d := b + |m.toColon| + 1 + |m.toValue|;
    var e := d + |Spell(m.value)|;
    var key, value := Config(b, open, Colon), Config(e, open, AfterValue);
    var last, more := Config(pos + |SpellMembers(members)| + 1, stack, AfterValue), MemberEvents(rest) + [EndObject];
    MemberParts(members, s, pos);
    SpellBegins(m.value);
    ReadsByte(s, d, Spell(m.value), 0);
    KeyReads(m, s, settings, pos, open);
    AfterSpace(s, e, m.after);
    ValueReads(m.value, s, settings, d, open);
    if |members| == 1 {
      BracketRead(s, settings, e, m.after, stack, InObject);
      assert rest == [];
      NoItemEvents();
      assert [] + [EndObject] == [EndObject];
    } else {
      MembersRead(rest, s, settings, e + |m.after| + 1, stack);
      CommaRead(s, settings, e, m.after, open, more, last);
    }
    MemberJoins(s, settings, KeyStep(s, pos, open), Key(StrOf(m.key)), key, EventsOf(m.value), value, more, last);
    assert [Key(StrOf(m.key))] + (EventsOf(m.value) + more) == MemberEvents(members) + [EndObject];
  }
}
