/** Every JSON value can be written, and is read back: the writer refuses nothing it should not, and the tokenizer returns
    what was written. */
module JsonValues {
  import opened Options
  import opened JsonBytes
  import opened JsonNumbers
  import opened JsonTokenizer
  import opened JsonGrammar
  import opened JsonDraining
  import opened JsonEscapes
  import opened JsonRoundTrip
  import W = JsonWriter

  /** A JSON value with its texts decoded. Keys may repeat. */
  datatype Doc =
    | DocNull | DocBool(b: bool) | DocNumber(text: Bytes) | DocString(t: Text)
    | DocArray(items: seq<Doc>) | DocObject(members: seq<DocMember>)

  datatype DocMember = DocMember(key: Text, value: Doc)

  /** Every number is one. */
  ghost predicate GoodDoc(v: Doc) {
    match v
    case DocNumber(text) => IsNumber(text)
    case DocArray(items) => forall i :: 0 <= i < |items| ==> GoodDoc(items[i])
    case DocObject(members) => forall i :: 0 <= i < |members| ==> GoodDoc(members[i].value)
    case _ => true
  }

  function DocDepth(v: Doc): nat {
    match v
    case DocArray(items) => 1 + ItemsDepth(items)
    case DocObject(members) => 1 + MembersDepth(members)
    case _ => 0
  }

  function ItemsDepth(items: seq<Doc>): nat {
    if items == [] then 0 else Larger(DocDepth(items[0]), ItemsDepth(items[1..]))
  }

  function MembersDepth(members: seq<DocMember>): nat {
    if members == [] then 0 else Larger(DocDepth(members[0].value), MembersDepth(members[1..]))
  }

  /** The calls that write a value. */
  function CallsOf(v: Doc): seq<Call> {
    match v
    case DocNull => [W.WriteNull]
    case DocBool(b) => [W.WriteBool(b)]
    case DocNumber(text) => [W.WriteNumber(text)]
    case DocString(t) => [W.WriteString(t)]
    case DocArray(items) => [W.StartContainer(InArray)] + ItemCalls(items) + [W.EndContainer(InArray)]
    case DocObject(members) => [W.StartContainer(InObject)] + MemberCalls(members) + [W.EndContainer(InObject)]
  }

  function ItemCalls(items: seq<Doc>): seq<Call> {
    if items == [] then [] else CallsOf(items[0]) + ItemCalls(items[1..])
  }

  function MemberCalls(members: seq<DocMember>): seq<Call> {
    if members == [] then []
    else [W.WriteKey(members[0].key)] + CallsOf(members[0].value) + MemberCalls(members[1..])
  }

  /** The traversal of a value. */
  function SaidOf(v: Doc): seq<Spoken> {
    match v
    case DocNull => [SaidNull]
    case DocBool(b) => [SaidBool(b)]
    case DocNumber(text) => [SaidNumber(text)]
    case DocString(t) => [SaidString(t)]
    case DocArray(items) => [SaidStart(InArray)] + ItemsSaid(items) + [SaidEnd(InArray)]
    case DocObject(members) => [SaidStart(InObject)] + MembersSaid(members) + [SaidEnd(InObject)]
  }

  function ItemsSaid(items: seq<Doc>): seq<Spoken> {
    if items == [] then [] else SaidOf(items[0]) + ItemsSaid(items[1..])
  }

  function MembersSaid(members: seq<DocMember>): seq<Spoken> {
    if members == [] then []
    else [SaidKey(members[0].key)] + SaidOf(members[0].value) + MembersSaid(members[1..])
  }

  // ----- running more calls -----

  lemma RunCall(layout: Layout, calls: seq<Call>, call: Call)
    requires W.Apply(layout, RunOf(layout, calls).now, call).Written?
    ensures var r, next := RunOf(layout, calls), W.Apply(layout, RunOf(layout, calls).now, call).next;
            RunOf(layout, calls + [call]) == Run(next, Hear(r.said, call), Larger(r.deepest, |next.stack|))
  {
    hide W.Apply, Hear;
    assert (calls + [call])[..|calls|] == calls;
  }

  /** No string is open, and no more containers than the deepest. */
  ghost predicate Idle(r: Run) {
    r.now.role.None? && r.said.open.None? && |r.now.stack| <= r.deepest
  }

  /** More calls left these containers open, and said this. */
  ghost predicate Ran(r: Run, after: Run, stack: seq<Frame>, complete: bool, said: seq<Spoken>, depth: nat) {
    && Idle(after) && after.now.stack == stack && after.now.complete == complete
    && after.said.events == r.said.events + said && after.deepest == Larger(r.deepest, depth)
  }

  function Complete(w: Writing): bool {
    w.complete || w.stack == []
  }

  /** A value that is one call. */
  lemma ScalarRuns(layout: Layout, calls: seq<Call>, v: Doc)
    requires var r := RunOf(layout, calls); Idle(r) && W.CheckValue(r.now).None?
    requires GoodDoc(v) && !v.DocArray? && !v.DocObject?
    ensures var r := RunOf(layout, calls);
            Ran(r, RunOf(layout, calls + CallsOf(v)), W.Begun(r.now.stack), Complete(r.now), SaidOf(v), |r.now.stack|)
  {
    hide IsNumber, RunOf, W.Gap, W.LineBreak, W.Glyphs, Spelled;
    BegunLength(RunOf(layout, calls).now.stack);
    RunCall(layout, calls, CallsOf(v)[0]);
  }

  lemma StartRuns(layout: Layout, calls: seq<Call>, container: Container)
    requires var r := RunOf(layout, calls); Idle(r) && W.CheckValue(r.now).None?
    ensures var r := RunOf(layout, calls);
            Ran(r, RunOf(layout, calls + [W.StartContainer(container)]), W.Begun(r.now.stack) + [W.Frame.Frame(container, false, false)],
                r.now.complete, [SaidStart(container)], |r.now.stack| + 1)
  {
    hide RunOf, W.Gap, W.LineBreak;
    BegunLength(RunOf(layout, calls).now.stack);
    RunCall(layout, calls, W.StartContainer(container));
  }

  lemma EndRuns(layout: Layout, calls: seq<Call>, container: Container)
    requires var r := RunOf(layout, calls);
             && Idle(r) && r.now.stack != [] && W.Top(r.now.stack).container == container && !W.Top(r.now.stack).awaitingValue
    ensures var r := RunOf(layout, calls);
            Ran(r, RunOf(layout, calls + [W.EndContainer(container)]), W.Below(r.now.stack),
                r.now.complete || |r.now.stack| == 1, [SaidEnd(container)], 0)
  {
    hide RunOf, W.LineBreak;
    RunCall(layout, calls, W.EndContainer(container));
  }

  lemma KeyRuns(layout: Layout, calls: seq<Call>, key: Text)
    requires var r := RunOf(layout, calls);
             && Idle(r) && r.now.stack != [] && W.Top(r.now.stack).container == InObject && !W.Top(r.now.stack).awaitingValue
    ensures var r := RunOf(layout, calls);
            Ran(r, RunOf(layout, calls + [W.WriteKey(key)]), W.Below(r.now.stack) + [W.Frame.Frame(InObject, true, true)],
                r.now.complete, [SaidKey(key)], 0)
  {
    hide RunOf, W.LineBreak, W.Glyphs, Spelled, W.AfterKey;
    RunCall(layout, calls, W.WriteKey(key));
  }

  // ----- every value -----

  /** The innermost open container, once elements have been written in it. */
  function Filled(stack: seq<Frame>, more: bool): seq<Frame>
    requires stack != []
  {
    W.Below(stack) + [W.Top(stack).(hasMembers := W.Top(stack).hasMembers || more)]
  }

  lemma {:induction false} DocRuns(layout: Layout, calls: seq<Call>, v: Doc)
    requires var r := RunOf(layout, calls); Idle(r) && W.CheckValue(r.now).None? && GoodDoc(v)
    ensures var r := RunOf(layout, calls);
            Ran(r, RunOf(layout, calls + CallsOf(v)), W.Begun(r.now.stack), Complete(r.now), SaidOf(v), |r.now.stack| + DocDepth(v))
    decreases v, 0
  {
    hide RunOf, Ran, Idle;
    match v
    case DocArray(items) => ArrayRuns(layout, calls, items);
    case DocObject(members) => ObjectRuns(layout, calls, members);
    case _ => ScalarRuns(layout, calls, v);
  }

  /** A container that is opened, filled and closed. */
  lemma ContainerRuns(layout: Layout, calls: seq<Call>, container: Container, inner: seq<Call>, filled: bool, said: seq<Spoken>, depth: nat)
    requires var r := RunOf(layout, calls); Idle(r) && W.CheckValue(r.now).None?
    requires var r1 := RunOf(layout, calls + [W.StartContainer(container)]);
             r1.now.stack != [] ==>
               Ran(r1, RunOf(layout, calls + [W.StartContainer(container)] + inner), Filled(r1.now.stack, filled), r1.now.complete, said,
                   |r1.now.stack| + depth)
    ensures var r := RunOf(layout, calls);
            Ran(r, RunOf(layout, calls + [W.StartContainer(container)] + inner + [W.EndContainer(container)]), W.Begun(r.now.stack),
                Complete(r.now), [SaidStart(container)] + said + [SaidEnd(container)], |r.now.stack| + 1 + depth)
  {
    hide RunOf, W.Begun;
    var r := RunOf(layout, calls);
    BegunLength(r.now.stack);
    StartRuns(layout, calls, container);
    EndRuns(layout, calls + [W.StartContainer(container)] + inner, container);
  }

  lemma {:induction false} ArrayRuns(layout: Layout, calls: seq<Call>, items: seq<Doc>)
    requires var r := RunOf(layout, calls); Idle(r) && W.CheckValue(r.now).None? && GoodDoc(DocArray(items))
    ensures var r := RunOf(layout, calls);
            Ran(r, RunOf(layout, calls + CallsOf(DocArray(items))), W.Begun(r.now.stack), Complete(r.now), SaidOf(DocArray(items)),
                |r.now.stack| + 1 + ItemsDepth(items))
    decreases items, 2
  {
    hide RunOf, W.Begun, ItemCalls, ItemsSaid, ItemsDepth;
    StartRuns(layout, calls, InArray);
    ItemsRun(layout, calls + [W.StartContainer(InArray)], items);
    ContainerRuns(layout, calls, InArray, ItemCalls(items), items != [], ItemsSaid(items), ItemsDepth(items));
    assert calls + CallsOf(DocArray(items)) == calls + [W.StartContainer(InArray)] + ItemCalls(items) + [W.EndContainer(InArray)];
  }

  /** The elements of an array that is open. */
  lemma {:induction false} ItemsRun(layout: Layout, calls: seq<Call>, items: seq<Doc>)
    requires var r := RunOf(layout, calls);
             && Idle(r) && r.now.stack != [] && W.Top(r.now.stack).container == InArray
             && forall i :: 0 <= i < |items| ==> GoodDoc(items[i])
    ensures var r := RunOf(layout, calls);
            Ran(r, RunOf(layout, calls + ItemCalls(items)), Filled(r.now.stack, items != []), r.now.complete, ItemsSaid(items),
                |r.now.stack| + ItemsDepth(items))
    decreases items, 1
  {
    hide RunOf, CallsOf, SaidOf, DocDepth, GoodDoc;
    var r := RunOf(layout, calls);
    if items == [] {
      assert calls + ItemCalls(items) == calls;
      assert r.said.events + [] == r.said.events;
    } else {
      DocRuns(layout, calls, items[0]);
      var calls1 := calls + CallsOf(items[0]);
      var r1 := RunOf(layout, calls1);
      ItemsRun(layout, calls1, items[1..]);
      assert calls + ItemCalls(items) == calls1 + ItemCalls(items[1..]);
    }
  }

  lemma {:induction false} ObjectRuns(layout: Layout, calls: seq<Call>, members: seq<DocMember>)
    requires var r := RunOf(layout, calls); Idle(r) && W.CheckValue(r.now).None? && GoodDoc(DocObject(members))
    ensures var r := RunOf(layout, calls);
            Ran(r, RunOf(layout, calls + CallsOf(DocObject(members))), W.Begun(r.now.stack), Complete(r.now), SaidOf(DocObject(members)),
                |r.now.stack| + 1 + MembersDepth(members))
    decreases members, 2
  {
    hide RunOf, W.Begun, MemberCalls, MembersSaid, MembersDepth;
    StartRuns(layout, calls, InObject);
    MembersRun(layout, calls + [W.StartContainer(InObject)], members);
    ContainerRuns(layout, calls, InObject, MemberCalls(members), members != [], MembersSaid(members), MembersDepth(members));
    assert calls + CallsOf(DocObject(members)) == calls + [W.StartContainer(InObject)] + MemberCalls(members) + [W.EndContainer(InObject)];
  }

  /** The members of an object that is open. */
  lemma {:induction false} MembersRun(layout: Layout, calls: seq<Call>, members: seq<DocMember>)
    requires var r := RunOf(layout, calls);
             && Idle(r) && r.now.stack != [] && W.Top(r.now.stack).container == InObject && !W.Top(r.now.stack).awaitingValue
             && forall i :: 0 <= i < |members| ==> GoodDoc(members[i].value)
    ensures var r := RunOf(layout, calls);
            Ran(r, RunOf(layout, calls + MemberCalls(members)), Filled(r.now.stack, members != []), r.now.complete, MembersSaid(members),
                |r.now.stack| + MembersDepth(members))
    decreases members, 1
  {
    hide RunOf, CallsOf, SaidOf, DocDepth, GoodDoc;
    var r := RunOf(layout, calls);
    if members == [] {
      assert calls + MemberCalls(members) == calls;
      assert r.said.events + [] == r.said.events;
    } else {
      KeyRuns(layout, calls, members[0].key);
      var calls1 := calls + [W.WriteKey(members[0].key)];
      DocRuns(layout, calls1, members[0].value);
      var calls2 := calls1 + CallsOf(members[0].value);
      MembersRun(layout, calls2, members[1..]);
      assert calls + MemberCalls(members) == calls2 + MemberCalls(members[1..]);
    }
  }

  /** Whatever the layout and the encoding: a value is written whole, and its text drains to its traversal, at any
      depth limit it fits in. */
  lemma ValueReadsBack(layout: Layout, p: Scalar -> bool, v: Doc, settings: Settings)
    requires GoodDoc(v)
    ensures var r := RunOf(layout, [W.WithEncodable(p)] + CallsOf(v));
            && W.FinishStep(r.now).None? && r.said.events == SaidOf(v)
            && (DocDepth(v) <= settings.maxDepth ==>
                  var drained := Drain(r.now.out, settings, BEGIN);
                  drained.error == None && HeardAll(drained.events, SaidOf(v)))
  {
    hide RunOf, W.Begun, HeardAll, Drain, SaidOf, DocDepth, CallsOf;
    var calls := [W.WithEncodable(p)];
    FirstRun(layout, p);
    var r := RunOf(layout, calls);
    DocRuns(layout, calls, v);
    NoneBegun();
    assert [] + SaidOf(v) == SaidOf(v);
    if DocDepth(v) <= settings.maxDepth {
      FinishedReads(layout, settings, calls + CallsOf(v));
    }
  }

  lemma NoneBegun()
    ensures W.Begun([]) == []
  {
  }

  lemma FirstRun(layout: Layout, p: Scalar -> bool)
    ensures RunOf(layout, [W.WithEncodable(p)]) == Run(W.NOTHING.(encodable := Some(p)), Said([], None), 0)
  {
    assert [W.WithEncodable(p)][..0] == [];
  }
}
