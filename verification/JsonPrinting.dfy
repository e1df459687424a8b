/** What the writer's calls write for a value is what a recursive printer prints: compact, or a line for each element. */
module JsonPrinting {
  import opened Options
  import opened JsonAscii
  import opened JsonBytes
  import opened JsonNumbers
  import opened JsonTokenizer
  import opened JsonGrammar
  import opened JsonEscapes
  import opened JsonRoundTrip
  import opened JsonValues
  import W = JsonWriter

  type Layout = W.Layout
  type Call = W.Call

  // ----- the printer -----

  /** In the indented layout, a new line with two spaces for each open container. */
  function NewLine(layout: Layout, depth: nat): Bytes {
    if layout.Indented? then Ascii("\n") + seq(2 * depth, _ => 0x20) else []
  }

  function PrintText(t: Text, e: W.Encoding): Bytes {
    Ascii("\"") + Spelled(W.Glyphs(t, e)) + Ascii("\"")
  }

  function Print(layout: Layout, v: Doc, depth: nat, e: W.Encoding): Bytes {
    match v
    case DocNull => Ascii("null")
    case DocBool(b) => if b then Ascii("true") else Ascii("false")
    case DocNumber(text) => text
    case DocString(t) => PrintText(t, e)
    case DocArray(items) =>
      if items == [] then Ascii("[]")
      else Ascii("[") + PrintItems(layout, items, depth + 1, e, true) + NewLine(layout, depth) + Ascii("]")
    case DocObject(members) =>
      if members == [] then Ascii("{}")
      else Ascii("{") + PrintMembers(layout, members, depth + 1, e, true) + NewLine(layout, depth) + Ascii("}")
  }

  /** A comma between elements. */
  function Between(first: bool): Bytes {
    if first then [] else Ascii(",")
  }

  function PrintItems(layout: Layout, items: seq<Doc>, depth: nat, e: W.Encoding, first: bool): Bytes {
    if items == [] then []
    else Between(first) + NewLine(layout, depth) + Print(layout, items[0], depth, e) + PrintItems(layout, items[1..], depth, e, false)
  }

  function PrintMembers(layout: Layout, members: seq<DocMember>, depth: nat, e: W.Encoding, first: bool): Bytes {
    if members == [] then []
    else
      Between(first) + NewLine(layout, depth) + PrintText(members[0].key, e) + PrintColon(layout)
      + Print(layout, members[0].value, depth, e) + PrintMembers(layout, members[1..], depth, e, false)
  }

  function PrintColon(layout: Layout): Bytes {
    if layout.Indented? then Ascii(": ") else Ascii(":")
  }

  // ----- the characters -----

  lemma {:induction false} SpacesAre(n: nat)
    ensures W.Spaces(n) == seq(2 * n, _ => 0x20)
  {
    if n > 0 {
      SpacesAre(n - 1);
    }
  }

  lemma GapsAre(layout: Layout, depth: nat, first: bool)
    ensures W.LineBreak(layout, depth) == NewLine(layout, depth) && W.Comma(!first) == Between(first)
    ensures W.AfterKey(layout) == PrintColon(layout)
  {
    SpacesAre(depth);
  }

  lemma LiteralsAre()
    ensures NULL == Ascii("null") && TRUE == Ascii("true") && FALSE == Ascii("false")
    ensures [QUOTE] == Ascii("\"") && [OPEN_ARRAY] == Ascii("[") && [CLOSE_ARRAY] == Ascii("]")
    ensures [OPEN_OBJECT] == Ascii("{") && [CLOSE_OBJECT] == Ascii("}")
  {
  }

  // ----- calls -----

  /** The run's output is as before and more, and the encoding is as before. */
  ghost predicate Prints(layout: Layout, calls: seq<Call>, more: seq<Call>, text: Bytes) {
    var r, after := RunOf(layout, calls).now, RunOf(layout, calls + more).now;
    after.out == r.out + text && after.encodable == r.encodable
  }

  lemma PrintsBoth(layout: Layout, calls: seq<Call>, a: seq<Call>, b: seq<Call>, s: Bytes, t: Bytes)
    requires Prints(layout, calls, a, s) && Prints(layout, calls + a, b, t)
    ensures Prints(layout, calls, a + b, s + t)
  {
    hide RunOf;
    assert calls + (a + b) == calls + a + b;
  }

  lemma PrintsNothing(layout: Layout, calls: seq<Call>)
    ensures Prints(layout, calls, [], [])
  {
    hide RunOf;
    assert calls + [] == calls;
  }

  lemma ScalarPrints(layout: Layout, calls: seq<Call>, v: Doc)
    requires var r := RunOf(layout, calls); Idle(r) && W.CheckValue(r.now).None?
    requires GoodDoc(v) && !v.DocArray? && !v.DocObject?
    ensures var w := RunOf(layout, calls).now;
            Prints(layout, calls, CallsOf(v), W.Gap(layout, w.stack) + Print(layout, v, |w.stack|, w.encodable))
  {
    hide IsNumber, RunOf, W.Gap, W.LineBreak, W.Glyphs, Spelled, Ascii, PrintText, W.BeginStringStep;
    LiteralsAre();
    match v
    case DocNull => ValuePrints(layout, calls, W.WriteNull, NULL);
    case DocBool(b) => ValuePrints(layout, calls, W.WriteBool(b), if b then TRUE else FALSE);
    case DocNumber(text) => ValuePrints(layout, calls, W.WriteNumber(text), text);
    case DocString(t) => StringPrints(layout, calls, t);
  }

  /** A value that is one call with a text of its own. */
  lemma ValuePrints(layout: Layout, calls: seq<Call>, call: Call, text: Bytes)
    requires var r := RunOf(layout, calls); Idle(r) && W.CheckValue(r.now).None?
    requires W.Apply(layout, RunOf(layout, calls).now, call) == W.ScalarStep(layout, RunOf(layout, calls).now, text)
    ensures Prints(layout, calls, [call], W.Gap(layout, RunOf(layout, calls).now.stack) + text)
  {
    hide RunOf, W.Gap, W.Apply, Hear;
    RunCall(layout, calls, call);
  }

  lemma StringPrints(layout: Layout, calls: seq<Call>, t: Text)
    requires var r := RunOf(layout, calls); Idle(r) && W.CheckValue(r.now).None?
    ensures var w := RunOf(layout, calls).now;
            Prints(layout, calls, [W.WriteString(t)], W.Gap(layout, w.stack) + PrintText(t, w.encodable))
  {
    hide RunOf, W.Gap, W.LineBreak, W.Glyphs, Spelled, Ascii;
    LiteralsAre();
    RunCall(layout, calls, W.WriteString(t));
  }

  lemma StartPrints(layout: Layout, calls: seq<Call>, container: Container)
    requires var r := RunOf(layout, calls); Idle(r) && W.CheckValue(r.now).None?
    ensures var w := RunOf(layout, calls).now;
            Prints(layout, calls, [W.StartContainer(container)],
                   W.Gap(layout, w.stack) + if container == InArray then Ascii("[") else Ascii("{"))
  {
    hide RunOf, W.Gap, W.LineBreak, Ascii;
    LiteralsAre();
    RunCall(layout, calls, W.StartContainer(container));
  }

  lemma EndPrints(layout: Layout, calls: seq<Call>, container: Container)
    requires var r := RunOf(layout, calls);
             && Idle(r) && r.now.stack != [] && W.Top(r.now.stack).container == container && !W.Top(r.now.stack).awaitingValue
    ensures var w := RunOf(layout, calls).now;
            Prints(layout, calls, [W.EndContainer(container)],
                   (if W.Top(w.stack).hasMembers then NewLine(layout, |w.stack| - 1) else [])
                   + if container == InArray then Ascii("]") else Ascii("}"))
  {
    hide RunOf, W.LineBreak, Ascii, NewLine;
    LiteralsAre();
    GapsAre(layout, |RunOf(layout, calls).now.stack| - 1, true);
    RunCall(layout, calls, W.EndContainer(container));
  }

  lemma KeyPrints(layout: Layout, calls: seq<Call>, key: Text)
    requires var r := RunOf(layout, calls);
             && Idle(r) && r.now.stack != [] && W.Top(r.now.stack).container == InObject && !W.Top(r.now.stack).awaitingValue
    ensures var w := RunOf(layout, calls).now;
            Prints(layout, calls, [W.WriteKey(key)],
                   Between(!W.Top(w.stack).hasMembers) + NewLine(layout, |w.stack|) + PrintText(key, w.encodable) + PrintColon(layout))
  {
    hide RunOf, W.LineBreak, W.Glyphs, Spelled, W.AfterKey, Ascii, NewLine, Between, PrintColon, W.Comma;
    LiteralsAre();
    var w := RunOf(layout, calls).now;
    GapsAre(layout, |w.stack|, !W.Top(w.stack).hasMembers);
    RunCall(layout, calls, W.WriteKey(key));
  }

  // ----- values -----

  /** A value's calls print the value, after what stands before it. */
  lemma {:induction false} DocPrints(layout: Layout, calls: seq<Call>, v: Doc)
    requires var r := RunOf(layout, calls); Idle(r) && W.CheckValue(r.now).None? && GoodDoc(v)
    ensures var w := RunOf(layout, calls).now;
            Prints(layout, calls, CallsOf(v), W.Gap(layout, w.stack) + Print(layout, v, |w.stack|, w.encodable))
    decreases v, 0
  {
    hide RunOf, Idle, Prints, Print;
    match v
    case DocArray(items) => ArrayPrints(layout, calls, items);
    case DocObject(members) => ObjectPrints(layout, calls, members);
    case _ => ScalarPrints(layout, calls, v);
  }

  lemma BegunLonger(stack: seq<W.Frame>)
    ensures |W.Begun(stack)| == |stack|
  {
  }

  lemma {:induction false} ArrayPrints(layout: Layout, calls: seq<Call>, items: seq<Doc>)
    requires var r := RunOf(layout, calls); Idle(r) && W.CheckValue(r.now).None? && GoodDoc(DocArray(items))
    ensures var w := RunOf(layout, calls).now;
            Prints(layout, calls, CallsOf(DocArray(items)), W.Gap(layout, w.stack) + Print(layout, DocArray(items), |w.stack|, w.encodable))
    decreases items, 2
  {
    hide RunOf, W.Begun, ItemCalls, ItemsSaid, ItemsDepth, W.Gap, Ascii, NewLine, PrintItems;
    var w := RunOf(layout, calls).now;
    var start, calls1 := [W.StartContainer(InArray)], calls + [W.StartContainer(InArray)];
    StartRuns(layout, calls, InArray);
    StartPrints(layout, calls, InArray);
    BegunLonger(w.stack);
    ItemsRun(layout, calls1, items);
    ItemsPrint(layout, calls1, items);
    PrintsBoth(layout, calls, start, ItemCalls(items), W.Gap(layout, w.stack) + Ascii("["),
               PrintItems(layout, items, |w.stack| + 1, w.encodable, true));
    assert calls + start + ItemCalls(items) == calls + (start + ItemCalls(items));
    EndPrints(layout, calls + (start + ItemCalls(items)), InArray);
    PrintsBoth(layout, calls, start + ItemCalls(items), [W.EndContainer(InArray)],
               W.Gap(layout, w.stack) + Ascii("[") + PrintItems(layout, items, |w.stack| + 1, w.encodable, true),
               (if items != [] then NewLine(layout, |w.stack|) else []) + Ascii("]"));
    ArrayIs(layout, items, |w.stack|, w.encodable, W.Gap(layout, w.stack));
  }

  lemma Regroup(gap: Bytes, a: Bytes, b: Bytes, c: Bytes, d: Bytes)
    ensures gap + a + b + (c + d) == gap + (a + b + c + d)
  {
  }

  lemma ArrayIs(layout: Layout, items: seq<Doc>, depth: nat, e: W.Encoding, gap: Bytes)
    ensures gap + Ascii("[") + PrintItems(layout, items, depth + 1, e, true) + ((if items != [] then NewLine(layout, depth) else []) + Ascii("]"))
            == gap + Print(layout, DocArray(items), depth, e)
  {
    hide NewLine;
    if items == [] {
      assert Ascii("[") + [] + [] + Ascii("]") == Ascii("[]");
      Regroup(gap, Ascii("["), [], [], Ascii("]"));
    } else {
      var a, b, c, d := Ascii("["), PrintItems(layout, items, depth + 1, e, true), NewLine(layout, depth), Ascii("]");
      Regroup(gap, a, b, c, d);
    }
  }

  lemma {:induction false} ItemsPrint(layout: Layout, calls: seq<Call>, items: seq<Doc>)
    requires var r := RunOf(layout, calls);
             && Idle(r) && r.now.stack != [] && W.Top(r.now.stack).container == InArray
             && forall i :: 0 <= i < |items| ==> GoodDoc(items[i])
    ensures var w := RunOf(layout, calls).now;
            Prints(layout, calls, ItemCalls(items), PrintItems(layout, items, |w.stack|, w.encodable, !W.Top(w.stack).hasMembers))
    decreases items, 1
  {
    hide RunOf, CallsOf, SaidOf, DocDepth, GoodDoc, Print, NewLine, Between, Prints;
    var w := RunOf(layout, calls).now;
    if items == [] {
      PrintsNothing(layout, calls);
    } else {
      var first := !W.Top(w.stack).hasMembers;
      DocRuns(layout, calls, items[0]);
      DocPrints(layout, calls, items[0]);
      GapIs(layout, w.stack);
      var calls1 := calls + CallsOf(items[0]);
      ItemsPrint(layout, calls1, items[1..]);
      SameEncoding(layout, calls, CallsOf(items[0]), W.Gap(layout, w.stack) + Print(layout, items[0], |w.stack|, w.encodable));
      PrintsBoth(layout, calls, CallsOf(items[0]), ItemCalls(items[1..]),
                 Between(first) + NewLine(layout, |w.stack|) + Print(layout, items[0], |w.stack|, w.encodable),
                 PrintItems(layout, items[1..], |w.stack|, w.encodable, false));
    }
  }

  lemma SameEncoding(layout: Layout, calls: seq<Call>, more: seq<Call>, text: Bytes)
    requires Prints(layout, calls, more, text)
    ensures RunOf(layout, calls + more).now.encodable == RunOf(layout, calls).now.encodable
  {
    hide RunOf;
  }

  /** What stands before an element of an array. */
  lemma GapIs(layout: Layout, stack: seq<W.Frame>)
    requires stack != [] && W.Top(stack).container == InArray
    ensures W.Gap(layout, stack) == Between(!W.Top(stack).hasMembers) + NewLine(layout, |stack|)
  {
    hide NewLine, Between, W.LineBreak, W.Comma;
    GapsAre(layout, |stack|, !W.Top(stack).hasMembers);
  }

  lemma {:induction false} ObjectPrints(layout: Layout, calls: seq<Call>, members: seq<DocMember>)
    requires var r := RunOf(layout, calls); Idle(r) && W.CheckValue(r.now).None? && GoodDoc(DocObject(members))
    ensures var w := RunOf(layout, calls).now;
            Prints(layout, calls, CallsOf(DocObject(members)),
                   W.Gap(layout, w.stack) + Print(layout, DocObject(members), |w.stack|, w.encodable))
    decreases members, 2
  {
    hide RunOf, W.Begun, MemberCalls, MembersSaid, MembersDepth, W.Gap, Ascii, NewLine, PrintMembers;
    var w := RunOf(layout, calls).now;
    var start, calls1 := [W.StartContainer(InObject)], calls + [W.StartContainer(InObject)];
    StartRuns(layout, calls, InObject);
    StartPrints(layout, calls, InObject);
    BegunLonger(w.stack);
    MembersRun(layout, calls1, members);
    MembersPrint(layout, calls1, members);
    PrintsBoth(layout, calls, start, MemberCalls(members), W.Gap(layout, w.stack) + Ascii("{"),
               PrintMembers(layout, members, |w.stack| + 1, w.encodable, true));
    assert calls + start + MemberCalls(members) == calls + (start + MemberCalls(members));
    EndPrints(layout, calls + (start + MemberCalls(members)), InObject);
    PrintsBoth(layout, calls, start + MemberCalls(members), [W.EndContainer(InObject)],
               W.Gap(layout, w.stack) + Ascii("{") + PrintMembers(layout, members, |w.stack| + 1, w.encodable, true),
               (if members != [] then NewLine(layout, |w.stack|) else []) + Ascii("}"));
    ObjectIs(layout, members, |w.stack|, w.encodable, W.Gap(layout, w.stack));
  }

  lemma ObjectIs(layout: Layout, members: seq<DocMember>, depth: nat, e: W.Encoding, gap: Bytes)
    ensures gap + Ascii("{") + PrintMembers(layout, members, depth + 1, e, true)
            + ((if members != [] then NewLine(layout, depth) else []) + Ascii("}"))
            == gap + Print(layout, DocObject(members), depth, e)
  {
    hide NewLine;
    if members == [] {
      assert Ascii("{") + [] + [] + Ascii("}") == Ascii("{}");
      Regroup(gap, Ascii("{"), [], [], Ascii("}"));
    } else {
      var a, b, c, d := Ascii("{"), PrintMembers(layout, members, depth + 1, e, true), NewLine(layout, depth), Ascii("}");
      Regroup(gap, a, b, c, d);
    }
  }

  lemma {:induction false} MembersPrint(layout: Layout, calls: seq<Call>, members: seq<DocMember>)
    requires var r := RunOf(layout, calls);
             && Idle(r) && r.now.stack != [] && W.Top(r.now.stack).container == InObject && !W.Top(r.now.stack).awaitingValue
             && forall i :: 0 <= i < |members| ==> GoodDoc(members[i].value)
    ensures var w := RunOf(layout, calls).now;
            Prints(layout, calls, MemberCalls(members), PrintMembers(layout, members, |w.stack|, w.encodable, !W.Top(w.stack).hasMembers))
    decreases members, 1
  {
    hide RunOf, CallsOf, SaidOf, DocDepth, GoodDoc, Print, NewLine, Between, Prints, PrintText, PrintColon;
    var w := RunOf(layout, calls).now;
    if members == [] {
      PrintsNothing(layout, calls);
    } else {
      var first, key, value := !W.Top(w.stack).hasMembers, [W.WriteKey(members[0].key)], CallsOf(members[0].value);
      var before := Between(first) + NewLine(layout, |w.stack|) + PrintText(members[0].key, w.encodable) + PrintColon(layout);
      KeyRuns(layout, calls, members[0].key);
      KeyPrints(layout, calls, members[0].key);
      SameEncoding(layout, calls, key, before);
      var calls1 := calls + key;
      DocRuns(layout, calls1, members[0].value);
      DocPrints(layout, calls1, members[0].value);
      MemberGap(layout, RunOf(layout, calls1).now.stack);
      var text := Print(layout, members[0].value, |w.stack|, w.encodable);
      assert W.Gap(layout, RunOf(layout, calls1).now.stack) + text == text;
      SameEncoding(layout, calls1, value, text);
      MembersPrint(layout, calls1 + value, members[1..]);
      PrintsBoth(layout, calls, key, value, before, text);
      assert calls1 + value == calls + (key + value);
      PrintsBoth(layout, calls, key + value, MemberCalls(members[1..]), before + text,
                 PrintMembers(layout, members[1..], |w.stack|, w.encodable, false));
      assert MemberCalls(members) == key + value + MemberCalls(members[1..]);
    }
  }

  lemma MemberGap(layout: Layout, stack: seq<W.Frame>)
    requires stack != [] && W.Top(stack).container == InObject
    ensures W.Gap(layout, stack) == []
  {
  }

  /** The writer prints a value. */
  lemma ValueIsPrinted(layout: Layout, p: Scalar -> bool, v: Doc)
    requires GoodDoc(v)
    ensures RunOf(layout, [W.WithEncodable(p)] + CallsOf(v)).now.out == Print(layout, v, 0, Some(p))
  {
    hide RunOf, Print, CallsOf;
    FirstRun(layout, p);
    DocPrints(layout, [W.WithEncodable(p)], v);
    NoGap(layout);
    assert [] + ([] + Print(layout, v, 0, Some(p))) == Print(layout, v, 0, Some(p));
  }

  lemma NoGap(layout: Layout)
    ensures W.Gap(layout, []) == []
  {
  }
}
