/**
 * The code a node compiles to, at a given address and below a given number of checked repetitions: the
 * specification the compiler's pushes and patches are proved against.
 */
module Emission {
  import opened Options
  import opened Syntax
  import opened Machine
  import opened Placement

  /** The number of instructions of a node's code, wherever it is placed. */
  function Size(n: Node): nat
    decreases n, 0, 0
  {
    match n
    case Empty => 0
    case Group(Some(_), inner) => Size(inner) + 2
    case Group(None, inner) => Size(inner)
    case Concat(parts) => ConcatSize(parts)
    case Alt(branches) => AltSize(branches)
    case Repeat(body, min, max, _) =>
      var zero := if min == 0 then GroupSpan(body) else None;
      Times(min, Size(body)) +
      match OptionalCopies(min, max) {
        case None => LoopSize(body, zero)
        case Some(k) => OptionalSize(body, k, zero)
      }
    case _ => 1
  }

  function ConcatSize(parts: seq<Node>): nat
    decreases parts, 0, 0
  {
    if parts == [] then 0 else Size(parts[0]) + ConcatSize(parts[1..])
  }

  function AltSize(branches: seq<Node>): nat
    decreases branches, 0, 0
  {
    if branches == [] then 0
    else if |branches| == 1 then Size(branches[0])
    else Size(branches[0]) + 2 + AltSize(branches[1..])
  }

  function One(b: bool): nat {
    if b then 1 else 0
  }

  function LoopSize(body: Node, zero: Span): nat
    decreases body, 1, 0
  {
    Size(body) + 2 * One(CanBeEmpty(body)) + 2 * One(zero.Some?) + 2
  }

  /** An optional copy is checked if its body can match the empty text and another copy may follow. */
  predicate Checked(body: Node, k: nat) {
    CanBeEmpty(body) && k > 1
  }

  function CopiesSize(body: Node, k: nat): nat
    decreases body, 1, k
  {
    if k == 0 then 0 else Size(body) + 1 + 2 * One(Checked(body, k)) + CopiesSize(body, k - 1)
  }

  function OptionalSize(body: Node, k: nat, zero: Span): nat
    decreases body, 2, 0
  {
    if k == 0 || Silent(body) then 0 else CopiesSize(body, k) + 2 * One(zero.Some?)
  }

  function Order(greedy: bool, taken: nat, skipped: nat): Inst {
    if greedy then Split(taken, skipped) else Split(skipped, taken)
  }

  function When(b: bool, i: Inst): (r: Code)
    ensures |r| == One(b)
  {
    if b then [i] else []
  }

  /** The instruction that unsets a quantifier's groups, if it can take no iteration and has any. */
  function Clearing(zero: Span): (r: Code)
    ensures |r| == One(zero.Some?)
  {
    if zero.Some? then [ClearGroups(zero.value.0, zero.value.1)] else []
  }

  /** `n`'s code at address `at`, with `d` progress registers live around it. */
  function Emit(n: Node, at: nat, d: nat): (code: Code)
    ensures |code| == Size(n)
    decreases n, 0, 0
  {
    match n
    case Empty => []
    case Class(chars) => [Inst.Class(chars)]
    case Bol => [Inst.Bol]
    case Eol => [Inst.Eol]
    case Backref(nr) => [Inst.Backref(nr)]
    case Group(Some(nr), inner) => EmitGroup(nr, inner, at, d)
    case Group(None, inner) => Emit(inner, at, d)
    case Concat(parts) => EmitConcat(parts, at, d)
    case Alt(branches) => EmitAlt(branches, at, d)
    case Repeat(body, min, max, greedy) =>
      var zero := if min == 0 then GroupSpan(body) else None;
      var at' := at + Times(min, Size(body));
      EmitCopies(body, min, at, d) +
      match OptionalCopies(min, max) {
        case None => EmitLoop(body, greedy, zero, at', d)
        case Some(k) => EmitOptional(body, k, greedy, zero, at', d)
      }
  }

  function EmitGroup(nr: nat, inner: Node, at: nat, d: nat): (code: Code)
    ensures |code| == Size(inner) + 2
    decreases inner, 1, 0
  {
    [Save(2 * nr)] + Emit(inner, at + 1, d) + [Save(2 * nr + 1)]
  }

  function EmitConcat(parts: seq<Node>, at: nat, d: nat): (code: Code)
    ensures |code| == ConcatSize(parts)
    decreases parts, 0, 0
  {
    if parts == [] then []
    else Emit(parts[0], at, d) + EmitConcat(parts[1..], at + Size(parts[0]), d)
  }

  function EmitAlt(branches: seq<Node>, at: nat, d: nat): (code: Code)
    ensures |code| == AltSize(branches)
    decreases branches, 0, 0
  {
    if branches == [] then []
    else if |branches| == 1 then Emit(branches[0], at, d)
    else
      var next := at + Size(branches[0]) + 2;
      [Split(at + 1, next)] + Emit(branches[0], at + 1, d) + [Jmp(next + AltSize(branches[1..]))]
      + EmitAlt(branches[1..], next, d)
  }

  function EmitCopies(body: Node, k: nat, at: nat, d: nat): (code: Code)
    ensures |code| == Times(k, Size(body))
    decreases body, 1, k
  {
    if k == 0 then [] else Emit(body, at, d) + EmitCopies(body, k - 1, at + Size(body), d)
  }

  /** One optional iteration between its progress instructions, its empty iterations leaving for `exit`. */
  function EmitIteration(body: Node, checked: bool, exit: nat, at: nat, d: nat): (code: Code)
    ensures |code| == Size(body) + 2 * One(checked)
    decreases body, 1, 0
  {
    When(checked, ProgressStart(d)) + Emit(body, at + One(checked), d + One(checked))
    + When(checked, ProgressCheck(d, exit))
  }

  function EmitLoop(body: Node, greedy: bool, zero: Span, at: nat, d: nat): (code: Code)
    ensures |code| == LoopSize(body, zero)
    decreases body, 2, 0
  {
    var clearing := zero.Some?;
    var split := at + One(clearing);
    var clear := split + 2 + Size(body) + 2 * One(CanBeEmpty(body));
    var end := clear + One(clearing);
    When(clearing, Order(greedy, split + 1, clear)) + [Order(greedy, split + 1, end)]
    + EmitIteration(body, CanBeEmpty(body), end, split + 1, d) + [Jmp(split)]
    + Clearing(zero)
  }

  /** `k` optional copies: the first is skipped to `exit`, the others to `end`. */
  function EmitOptionalCopies(body: Node, k: nat, greedy: bool, exit: nat, end: nat, at: nat, d: nat)
    : (code: Code)
    ensures |code| == CopiesSize(body, k)
    decreases body, 2, k
  {
    if k == 0 then [] else
      var next := at + 1 + Size(body) + 2 * One(Checked(body, k));
      [Order(greedy, at + 1, exit)] + EmitIteration(body, Checked(body, k), end, at + 1, d)
      + EmitOptionalCopies(body, k - 1, greedy, end, end, next, d)
  }

  function EmitOptional(body: Node, k: nat, greedy: bool, zero: Span, at: nat, d: nat): (code: Code)
    ensures |code| == OptionalSize(body, k, zero)
    decreases body, 3, 0
  {
    var stop := at + CopiesSize(body, k);
    if k == 0 || Silent(body) then []
    else if zero.None? then EmitOptionalCopies(body, k, greedy, stop, stop, at, d)
    else EmitOptionalCopies(body, k, greedy, stop + 1, stop + 2, at, d)
         + [Jmp(stop + 2)] + Clearing(zero)
  }

  /** The pattern between the slots of the match: group 0's code. */
  function EmitWhole(n: Node): (code: Code)
    ensures |code| == Size(n) + 2
  {
    Emit(Group(Some(0), n), 0, 0)
  }

  function EmitProgram(n: Node): Code {
    EmitWhole(n) + [Match]
  }

  /** The nodes that compile to no instruction are the silent ones. */
  lemma {:induction false} SilentIsEmpty(n: Node)
    ensures Silent(n) <==> Size(n) == 0
    decreases n, 0
  {
    match n
    case Group(None, inner) => SilentIsEmpty(inner);
    case Concat(parts) => AllSilentIsEmpty(parts);
    case Alt(branches) =>
      if |branches| == 1 {
        SilentIsEmpty(branches[0]);
      }
    case Repeat(body, min, max, _) =>
      SilentIsEmpty(body);
      TimesZero(min, Size(body));
      match OptionalCopies(min, max) {
        case None =>
        case Some(k) => assert k > 0 ==> CopiesSize(body, k) > 0;
      }
    case _ =>
  }

  lemma {:induction false} AllSilentIsEmpty(ns: seq<Node>)
    ensures AllSilent(ns) <==> ConcatSize(ns) == 0
    decreases ns, 0
  {
    if ns != [] {
      SilentIsEmpty(ns[0]);
      AllSilentIsEmpty(ns[1..]);
    }
  }

  // ----- the parts of a placed stretch of code -----

  lemma AltParts(branches: seq<Node>, p: Code, a: nat, d: nat)
    requires |branches| > 1 && Placed(p, a, EmitAlt(branches, a, d))
    ensures var next := a + Size(branches[0]) + 2;
            && next <= |p|
            && p[a] == Split(a + 1, next)
            && Placed(p, a + 1, Emit(branches[0], a + 1, d))
            && p[next - 1] == Jmp(a + AltSize(branches))
            && Placed(p, next, EmitAlt(branches[1..], next, d))
  {
    hide Emit;
    var next, end := a + Size(branches[0]) + 2, a + AltSize(branches);
    var first, rest := Emit(branches[0], a + 1, d), EmitAlt(branches[1..], next, d);
    PlacedSplit(p, a, [Split(a + 1, next)] + first + [Jmp(end)], rest);
    PlacedSplit3(p, a, [Split(a + 1, next)], first, [Jmp(end)]);
    PlacedOne(p, a, Split(a + 1, next));
    PlacedOne(p, next - 1, Jmp(end));
  }

  /** The exit at `exit`, by way of the clearing instruction if there is one, ends at `end`. */
  predicate ExitsTo(p: Code, exit: nat, end: nat, zero: Span) {
    match zero
    case None => exit == end
    case Some(g) => exit < |p| && p[exit] == ClearGroups(g.0, g.1) && exit + 1 == end
  }

  lemma PlacedWhen(p: Code, a: nat, b: bool, i: Inst)
    requires Placed(p, a, When(b, i))
    ensures b ==> a < |p| && p[a] == i
  {
    if b {
      PlacedOne(p, a, i);
    }
  }

  lemma PlacedClearing(p: Code, a: nat, zero: Span)
    requires Placed(p, a, Clearing(zero))
    ensures ExitsTo(p, a, a + One(zero.Some?), zero)
  {
    if zero.Some? {
      PlacedOne(p, a, ClearGroups(zero.value.0, zero.value.1));
    }
  }

  lemma LoopParts(body: Node, greedy: bool, zero: Span, p: Code, a: nat, d: nat)
    requires Placed(p, a, EmitLoop(body, greedy, zero, a, d))
    ensures var split := a + One(zero.Some?);
            var clear := split + 2 + Size(body) + 2 * One(CanBeEmpty(body));
            var end := a + LoopSize(body, zero);
            && (zero.Some? ==> a < |p| && p[a] == Order(greedy, split + 1, clear))
            && split < |p| && p[split] == Order(greedy, split + 1, end)
            && Placed(p, split + 1, EmitIteration(body, CanBeEmpty(body), end, split + 1, d))
            && clear - 1 < |p| && p[clear - 1] == Jmp(split)
            && ExitsTo(p, clear, end, zero)
  {
    hide Placed, Emit, EmitIteration, Size, MinLen, When, Clearing, Order, ExitsTo;
    var clearing := zero.Some?;
    var split := a + One(clearing);
    var clear := split + 2 + Size(body) + 2 * One(CanBeEmpty(body));
    var end := clear + One(clearing);
    var first := When(clearing, Order(greedy, split + 1, clear));
    var iter := EmitIteration(body, CanBeEmpty(body), end, split + 1, d);
    PlacedSplit5(p, a, first, [Order(greedy, split + 1, end)], iter, [Jmp(split)], Clearing(zero));
    PlacedOne(p, split, Order(greedy, split + 1, end));
    PlacedOne(p, clear - 1, Jmp(split));
    PlacedWhen(p, a, clearing, Order(greedy, split + 1, clear));
    PlacedClearing(p, clear, zero);
  }

  lemma CopyParts(body: Node, k: nat, greedy: bool, exit: nat, end: nat, p: Code, a: nat, d: nat)
    requires k > 0 && Placed(p, a, EmitOptionalCopies(body, k, greedy, exit, end, a, d))
    ensures var checked := Checked(body, k);
            var next := a + 1 + Size(body) + 2 * One(checked);
            && a < |p| && p[a] == Order(greedy, a + 1, exit)
            && Placed(p, a + 1, EmitIteration(body, checked, end, a + 1, d))
            && Placed(p, next, EmitOptionalCopies(body, k - 1, greedy, end, end, next, d))
            && a + CopiesSize(body, k) == next + CopiesSize(body, k - 1)
  {
    hide Emit, EmitIteration, Size, MinLen;
    var checked := Checked(body, k);
    var next := a + 1 + Size(body) + 2 * One(checked);
    PlacedSplit3(p, a, [Order(greedy, a + 1, exit)], EmitIteration(body, checked, end, a + 1, d),
                 EmitOptionalCopies(body, k - 1, greedy, end, end, next, d));
    PlacedOne(p, a, Order(greedy, a + 1, exit));
  }
}
