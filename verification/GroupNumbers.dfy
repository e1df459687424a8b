/** The groups of a node, and what a quantifier that takes no iteration does to their captures. */
module GroupNumbers {
  import opened Options
  import opened CharSets
  import opened Syntax
  import opened Denotation
  import opened Paths
  import opened Captures

  /** Group `nr` is in the node. */
  ghost predicate Has(n: Node, nr: nat) {
    match n
    case Group(capture, inner) => capture == Some(nr) || Has(inner, nr)
    case Concat(parts) => AnyHas(parts, nr)
    case Alt(branches) => AnyHas(branches, nr)
    case Repeat(body, _, _, _) => Has(body, nr)
    case _ => false
  }

  ghost predicate AnyHas(ns: seq<Node>, nr: nat) {
    ns != [] && (Has(ns[0], nr) || AnyHas(ns[1..], nr))
  }

  ghost function GroupsOf(n: Node): iset<nat> {
    iset nr: nat | Has(n, nr)
  }

  ghost function GroupsOfAll(ns: seq<Node>): iset<nat> {
    iset nr: nat | AnyHas(ns, nr)
  }

  /** The span holds all these groups, and its ends are two of them. */
  ghost predicate Spans(span: Span, groups: iset<nat>) {
    match span
    case Some(g) => g.0 in groups && g.1 in groups && forall nr :: nr in groups ==> g.0 <= nr <= g.1
    case None => groups == iset{}
  }

  lemma JoinSpans(a: Span, b: Span, x: iset<nat>, y: iset<nat>)
    requires Spans(a, x) && Spans(b, y)
    ensures Spans(Join(a, b), x + y)
  {
    if a.None? {
      assert x + y == y;
    }
    if b.None? {
      assert x + y == x;
    }
  }

  /** The span of a node is from its lowest group to its highest, and none if it has no group. */
  lemma {:induction false} SpanIsExact(n: Node)
    ensures Spans(GroupSpan(n), GroupsOf(n))
    decreases n, 0
  {
    match n
    case Group(Some(k), inner) =>
      SpanIsExact(inner);
      JoinSpans(Some((k, k)), GroupSpan(inner), iset{k}, GroupsOf(inner));
      assert GroupsOf(n) == iset{k} + GroupsOf(inner);
    case Group(None, inner) =>
      SpanIsExact(inner);
      assert GroupsOf(n) == GroupsOf(inner);
    case Concat(parts) =>
      SpansAreExact(parts);
      assert GroupsOf(n) == GroupsOfAll(parts);
    case Alt(branches) =>
      SpansAreExact(branches);
      assert GroupsOf(n) == GroupsOfAll(branches);
    case Repeat(body, _, _, _) =>
      SpanIsExact(body);
      assert GroupsOf(n) == GroupsOf(body);
    case _ =>
  }

  lemma {:induction false} SpansAreExact(ns: seq<Node>)
    ensures Spans(GroupSpans(ns), GroupsOfAll(ns))
    decreases ns, 0
  {
    hide Has;
    if ns != [] {
      SpanIsExact(ns[0]);
      SpansAreExact(ns[1..]);
      JoinSpans(GroupSpan(ns[0]), GroupSpans(ns[1..]), GroupsOf(ns[0]), GroupsOfAll(ns[1..]));
      assert GroupsOfAll(ns) == GroupsOf(ns[0]) + GroupsOfAll(ns[1..]);
    }
  }

  // ----- numbering -----

  /** The next number if the groups are numbered from `k` on in the order of their opening parentheses. */
  function Numbered(n: Node, k: nat): Option<nat> {
    match n
    case Group(Some(nr), inner) => if nr == k then Numbered(inner, k + 1) else None
    case Group(None, inner) => Numbered(inner, k)
    case Concat(parts) => AllNumbered(parts, k)
    case Alt(branches) => AllNumbered(branches, k)
    case Repeat(body, _, _, _) => Numbered(body, k)
    case _ => Some(k)
  }

  function AllNumbered(ns: seq<Node>, k: nat): Option<nat> {
    if ns == [] then Some(k)
    else
      var next := Numbered(ns[0], k);
      if next.None? then None else AllNumbered(ns[1..], next.value)
  }

  /** The groups of a node are then those numbers. */
  lemma {:induction false} NumbersAre(n: Node, k: nat)
    requires Numbered(n, k).Some?
    ensures k <= Numbered(n, k).value && forall nr: nat :: Has(n, nr) <==> k <= nr < Numbered(n, k).value
    decreases n, 0
  {
    match n
    case Group(Some(_), inner) => NumbersAre(inner, k + 1);
    case Group(None, inner) => NumbersAre(inner, k);
    case Concat(parts) => AllNumbersAre(parts, k);
    case Alt(branches) => AllNumbersAre(branches, k);
    case Repeat(body, _, _, _) => NumbersAre(body, k);
    case _ =>
  }

  lemma {:induction false} AllNumbersAre(ns: seq<Node>, k: nat)
    requires AllNumbered(ns, k).Some?
    ensures k <= AllNumbered(ns, k).value && forall nr: nat :: AnyHas(ns, nr) <==> k <= nr < AllNumbered(ns, k).value
    decreases ns, 0
  {
    if ns != [] {
      NumbersAre(ns[0], k);
      AllNumbersAre(ns[1..], Numbered(ns[0], k).value);
    }
  }

  // ----- captures of other groups -----

  /** The slots of group `nr`. */
  predicate Unset(slots: Slots, nr: nat) {
    (2 * nr < |slots| ==> slots[2 * nr] == None) && (2 * nr + 1 < |slots| ==> slots[2 * nr + 1] == None)
  }

  predicate SameSlots(a: Slots, b: Slots, nr: nat) {
    && |a| == |b| && (2 * nr < |a| ==> a[2 * nr] == b[2 * nr])
    && (2 * nr + 1 < |a| ==> a[2 * nr + 1] == b[2 * nr + 1])
  }

  /** The exit that takes no iteration: every group of the body is unset, and no other group changes. */
  lemma SkippedUnsets(body: Node, s: State)
    ensures forall nr: nat :: Has(body, nr) ==> Unset(Skipped(s, GroupSpan(body)).slots, nr)
    ensures forall k: nat :: Numbered(body, k).Some? ==>
              forall nr: nat :: !Has(body, nr) ==> SameSlots(s.slots, Skipped(s, GroupSpan(body)).slots, nr)
  {
    hide Has;
    SpanIsExact(body);
    assert forall nr: nat :: Has(body, nr) <==> nr in GroupsOf(body);
    forall k: nat | Numbered(body, k).Some?
      ensures forall nr: nat :: !Has(body, nr) ==> SameSlots(s.slots, Skipped(s, GroupSpan(body)).slots, nr)
    {
      NumbersAre(body, k);
    }
  }

  /** An optional repetition whose body emits instructions and may be taken at all. */
  predicate Optional(body: Node, min: nat, max: Option<nat>) {
    min == 0 && max != Some(0) && (max.Some? ==> !Silent(body))
  }

  /**
   * A quantifier that may take no iteration has that exit as its last result if it is greedy, and as its first if it is not:
   * it stays where it is, every group of its body is unset, and no other group's capture changes.
   */
  lemma NoIterationUnsets(body: Node, min: nat, max: Option<nat>, greedy: bool, e: Env, s: State, k: nat)
    requires s.pos <= |e.hay| && Optional(body, min, max) && Numbered(body, k).Some?
    ensures var rs := Results(Repeat(body, min, max, greedy), e, s);
            && rs != []
            && var t := if greedy then rs[|rs| - 1] else rs[0];
               && t.pos == s.pos && (forall nr: nat :: Has(body, nr) ==> Unset(t.slots, nr))
               && (forall nr: nat :: !Has(body, nr) ==> SameSlots(s.slots, t.slots, nr))
  {
    hide Has, Numbered, IterationResults;
    SkippedUnsets(body, s);
    ExitIsThere(body, min, max, greedy, e, s);
  }

  lemma ExitIsThere(body: Node, min: nat, max: Option<nat>, greedy: bool, e: Env, s: State)
    requires s.pos <= |e.hay| && Optional(body, min, max)
    ensures var rs := Results(Repeat(body, min, max, greedy), e, s);
            rs != [] && (if greedy then rs[|rs| - 1] else rs[0]) == Skipped(s, GroupSpan(body))
  {
    hide IterationResults, Skipped;
    OptionalResultsOfOne(body, OptionalCopies(min, max), greedy, GroupSpan(body), e, s);
  }

  // ----- what a path sets -----

  /** A path through the node may set group `nr`: it is not inside a repetition that never runs. */
  ghost predicate Sets(n: Node, nr: nat) {
    match n
    case Group(capture, inner) => capture == Some(nr) || Sets(inner, nr)
    case Concat(parts) => AnySets(parts, nr)
    case Alt(branches) => AnySets(branches, nr)
    case Repeat(body, min, max, _) => (min > 0 || max != Some(0)) && Sets(body, nr)
    case _ => false
  }

  ghost predicate AnySets(ns: seq<Node>, nr: nat) {
    ns != [] && (Sets(ns[0], nr) || AnySets(ns[1..], nr))
  }

  /** What emits no instruction sets no group, so its captures need no clearing. */
  lemma {:induction false} SilentSetsNothing(n: Node, nr: nat)
    requires Silent(n)
    ensures !Sets(n, nr)
    decreases n, 0
  {
    match n
    case Group(None, inner) => SilentSetsNothing(inner, nr);
    case Concat(parts) => AllSilentSetNothing(parts, nr);
    case Alt(branches) =>
      if |branches| == 1 {
        SilentSetsNothing(branches[0], nr);
        assert !AnySets(branches[1..], nr);
      }
    case Repeat(body, min, max, _) =>
      if Silent(body) {
        SilentSetsNothing(body, nr);
      }
    case _ =>
  }

  lemma {:induction false} AllSilentSetNothing(ns: seq<Node>, nr: nat)
    requires AllSilent(ns)
    ensures !AnySets(ns, nr)
    decreases ns, 0
  {
    if ns != [] {
      SilentSetsNothing(ns[0], nr);
      AllSilentSetNothing(ns[1..], nr);
    }
  }

  /** A group's slots are as before, or unset. */
  predicate KeptOrUnset(a: Slots, b: Slots, nr: nat) {
    && |a| == |b|
    && (2 * nr < |a| ==> b[2 * nr] == a[2 * nr] || b[2 * nr] == None)
    && (2 * nr + 1 < |a| ==> b[2 * nr + 1] == a[2 * nr + 1] || b[2 * nr + 1] == None)
  }

  /** A path sets only groups of its node. */
  lemma {:induction false} PathSetsOwn(n: Node, e: Env, s: State, t: State, nr: nat)
    requires Path(n, e, s, t) && !Sets(n, nr)
    ensures KeptOrUnset(s.slots, t.slots, nr)
    decreases n, 0, 0
  {
    match n
    case Group(Some(g), inner) =>
      var m := InsideGroup(g, inner, e, s, t);
      PathSetsOwn(inner, e, Saved(s, 2 * g), m, nr);
    case Group(None, inner) => PathSetsOwn(inner, e, s, t, nr);
    case Concat(parts) => ThroughSetsOwn(parts, e, s, t, nr);
    case Alt(branches) =>
      if branches != [] {
        var i :| 0 <= i < |branches| && Path(branches[i], e, s, t);
        EachSets(branches, i, nr);
        PathSetsOwn(branches[i], e, s, t, nr);
      }
    case Repeat(body, min, max, _) =>
      if !(min == 0 && t == Skipped(s, GroupSpan(body))) {
        var k: nat :| Allowed(k, min, max) && PathBy(body, k, e, s, t);
        BySetsOwn(body, k, e, s, t, nr);
      }
    case _ =>
  }

  lemma {:induction false} EachSets(ns: seq<Node>, i: nat, nr: nat)
    requires i < |ns| && !AnySets(ns, nr)
    ensures !Sets(ns[i], nr)
    decreases i
  {
    if i > 0 {
      EachSets(ns[1..], i - 1, nr);
    }
  }

  lemma {:induction false} ThroughSetsOwn(parts: seq<Node>, e: Env, s: State, t: State, nr: nat)
    requires PathThrough(parts, e, s, t) && !AnySets(parts, nr)
    ensures KeptOrUnset(s.slots, t.slots, nr)
    decreases parts, 0, 0
  {
    hide Path, Sets;
    if parts != [] {
      var m := FirstPart(parts, e, s, t);
      PathSetsOwn(parts[0], e, s, m, nr);
      ThroughSetsOwn(parts[1..], e, m, t, nr);
    }
  }

  lemma {:induction false} BySetsOwn(body: Node, k: nat, e: Env, s: State, t: State, nr: nat)
    requires PathBy(body, k, e, s, t) && (k > 0 ==> !Sets(body, nr))
    ensures KeptOrUnset(s.slots, t.slots, nr)
    decreases body, 1, k
  {
    hide Path, Sets;
    if k > 0 {
      var m := FirstIteration(body, k, e, s, t);
      PathSetsOwn(body, e, s, m, nr);
      BySetsOwn(body, k - 1, e, m, t, nr);
    }
  }

  /** Groups numbered in order: a path changes the captures of no other group. */
  lemma {:induction false} PathKeepsOthers(n: Node, k: nat, e: Env, s: State, t: State, nr: nat)
    requires Path(n, e, s, t) && Numbered(n, k).Some? && !Has(n, nr)
    ensures SameSlots(s.slots, t.slots, nr)
    decreases n, 0, 0
  {
    match n
    case Group(Some(g), inner) =>
      var m := InsideGroup(g, inner, e, s, t);
      PathKeepsOthers(inner, k + 1, e, Saved(s, 2 * g), m, nr);
    case Group(None, inner) => PathKeepsOthers(inner, k, e, s, t, nr);
    case Concat(parts) => ThroughKeepsOthers(parts, k, e, s, t, nr);
    case Alt(branches) =>
      if branches != [] {
        var i :| 0 <= i < |branches| && Path(branches[i], e, s, t);
        var j := OneNumbered(branches, i, k, nr);
        PathKeepsOthers(branches[i], j, e, s, t, nr);
      }
    case Repeat(body, min, max, _) =>
      if min == 0 && t == Skipped(s, GroupSpan(body)) {
        SkippedUnsets(body, s);
      } else {
        var j: nat :| Allowed(j, min, max) && PathBy(body, j, e, s, t);
        ByKeepsOthers(body, j, k, e, s, t, nr);
      }
    case _ =>
  }

  lemma {:induction false} OneNumbered(ns: seq<Node>, i: nat, k: nat, nr: nat) returns (j: nat)
    requires i < |ns| && AllNumbered(ns, k).Some? && !AnyHas(ns, nr)
    ensures Numbered(ns[i], j).Some? && !Has(ns[i], nr)
    decreases i
  {
    if i == 0 {
      j := k;
    } else {
      j := OneNumbered(ns[1..], i - 1, Numbered(ns[0], k).value, nr);
    }
  }

  lemma {:induction false} ThroughKeepsOthers(parts: seq<Node>, k: nat, e: Env, s: State, t: State, nr: nat)
    requires PathThrough(parts, e, s, t) && AllNumbered(parts, k).Some? && !AnyHas(parts, nr)
    ensures SameSlots(s.slots, t.slots, nr)
    decreases parts, 0, 0
  {
    hide Path, Has, Numbered;
    if parts != [] {
      var m := FirstPart(parts, e, s, t);
      PathKeepsOthers(parts[0], k, e, s, m, nr);
      ThroughKeepsOthers(parts[1..], Numbered(parts[0], k).value, e, m, t, nr);
    }
  }

  lemma {:induction false} ByKeepsOthers(body: Node, j: nat, k: nat, e: Env, s: State, t: State, nr: nat)
    requires PathBy(body, j, e, s, t) && Numbered(body, k).Some? && !Has(body, nr)
    ensures SameSlots(s.slots, t.slots, nr)
    decreases body, 1, j
  {
    hide Path, Has, Numbered;
    if j > 0 {
      var m := FirstIteration(body, j, e, s, t);
      PathKeepsOthers(body, k, e, s, m, nr);
      ByKeepsOthers(body, j - 1, k, e, m, t, nr);
    }
  }

  /** A group's capture is what was matched inside it. */
  lemma GroupIsCaptured(nr: nat, inner: Node, e: Env, s: State, t: State)
    requires Path(Group(Some(nr), inner), e, s, t) && Numbered(inner, nr + 1).Some? && 2 * nr + 1 < |s.slots|
    ensures Capture(t.slots, nr) == Some((s.pos, t.pos))
  {
    hide Path, Has, Numbered;
    var m := InsideGroup(nr, inner, e, s, t);
    NumbersAre(inner, nr + 1);
    PathKeepsOthers(inner, nr + 1, e, Saved(s, 2 * nr), m, nr);
  }
}
