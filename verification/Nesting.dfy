/**
 * Progress registers are numbered by nesting depth: at each instruction of a compiled program a fixed number
 * of checked iterations is live, and the registers below that number are theirs.
 */
module Nesting {
  import opened Options
  import opened Syntax
  import opened Machine
  import opened Emission
  import opened Placement

  /** The checked iterations live before the instruction at `pc`: those started above it and not yet checked. */
  function Live(p: Code, pc: nat): int
    requires pc <= |p|
  {
    if pc == 0 then 0 else
      Live(p, pc - 1) + match p[pc - 1] {
        case ProgressStart(_) => 1
        case ProgressCheck(_, _) => -1
        case _ => 0
      }
  }

  /** The instruction at `pc` continues only inside the program, at the depth its kind calls for. */
  predicate InstNested(p: Code, pc: nat)
    requires pc < |p|
  {
    && Live(p, pc) >= 0
    && match p[pc] {
      case Split(a, b) => a < |p| && b < |p| && Live(p, a) == Live(p, pc) == Live(p, b)
      case Jmp(t) => t < |p| && Live(p, t) == Live(p, pc)
      case ProgressStart(r) => Live(p, pc) == r && pc + 1 < |p|
      case ProgressCheck(r, exit) => Live(p, pc) == r + 1 && pc + 1 < |p| && exit < |p| && Live(p, exit) == r
      case Match => true
      case _ => pc + 1 < |p|
    }
  }

  ghost predicate Nested(p: Code) {
    |p| > 0 && forall pc :: 0 <= pc < |p| ==> InstNested(p, pc)
  }

  /** The stretch from `a` to `b` is entered and left at depth `d`. */
  ghost predicate Stretch(p: Code, a: nat, b: nat, d: nat) {
    a <= b < |p| && Live(p, a) == d == Live(p, b) && forall pc :: a <= pc < b ==> InstNested(p, pc)
  }

  lemma StretchJoin(p: Code, a: nat, m: nat, b: nat, d: nat)
    requires Stretch(p, a, m, d) && Stretch(p, m, b, d)
    ensures Stretch(p, a, b, d)
  {
  }

  /** An instruction that is not about progress, and whose targets have its depth. */
  lemma StretchOne(p: Code, a: nat, d: nat)
    requires a + 1 < |p| && Live(p, a) == d && !p[a].ProgressStart? && !p[a].ProgressCheck?
    requires p[a].Split? ==> p[a].first < |p| && p[a].second < |p| && Live(p, p[a].first) == d == Live(p, p[a].second)
    requires p[a].Jmp? ==> p[a].target < |p| && Live(p, p[a].target) == d
    ensures Stretch(p, a, a + 1, d)
  {
  }

  /** A node's code keeps the depth it is entered at. */
  lemma {:induction false} EmitIsNested(n: Node, p: Code, a: nat, d: nat)
    requires Placed(p, a, Emit(n, a, d)) && a + Size(n) < |p| && Live(p, a) == d
    ensures Stretch(p, a, a + Size(n), d)
    decreases n, 0, 0
  {
    hide EmitConcat, EmitAlt, EmitCopies, EmitLoop, EmitOptional, Live;
    match n
    case Group(Some(nr), inner) =>
      PlacedSplit3(p, a, [Save(2 * nr)], Emit(inner, a + 1, d), [Save(2 * nr + 1)]);
      GroupIsNested(nr, inner, p, a, d);
    case Group(None, inner) => EmitIsNested(inner, p, a, d);
    case Concat(parts) => ConcatIsNested(parts, p, a, d);
    case Alt(branches) => AltIsNested(branches, p, a, d);
    case Repeat(body, min, max, greedy) => RepeatIsNested(body, min, max, greedy, p, a, d);
    case Empty => StretchNone(p, a, d);
    case _ =>
      PlacedOne(p, a, Emit(n, a, d)[0]);
      StretchOne(p, a, d);
  }

  lemma {:induction false} GroupIsNested(nr: nat, inner: Node, p: Code, a: nat, d: nat)
    requires Placed(p, a, [Save(2 * nr)]) && Placed(p, a + 1, Emit(inner, a + 1, d))
    requires Placed(p, a + 1 + Size(inner), [Save(2 * nr + 1)])
    requires a + Size(inner) + 2 < |p| && Live(p, a) == d
    ensures Stretch(p, a, a + Size(inner) + 2, d)
    decreases inner, 1, 0
  {
    hide Emit;
    var m := a + 1 + Size(inner);
    PlacedOne(p, a, Save(2 * nr));
    PlacedOne(p, m, Save(2 * nr + 1));
    StretchOne(p, a, d);
    EmitIsNested(inner, p, a + 1, d);
    StretchOne(p, m, d);
    StretchJoin(p, a, a + 1, m, d);
    StretchJoin(p, a, m, m + 1, d);
  }

  lemma {:induction false} RepeatIsNested(body: Node, min: nat, max: Option<nat>, greedy: bool, p: Code, a: nat, d: nat)
    requires Placed(p, a, Emit(Repeat(body, min, max, greedy), a, d))
    requires a + Size(Repeat(body, min, max, greedy)) < |p| && Live(p, a) == d
    ensures Stretch(p, a, a + Size(Repeat(body, min, max, greedy)), d)
    decreases body, 4, 0
  {
    hide EmitCopies, EmitLoop, EmitOptional, Live, Stretch;
    var zero := if min == 0 then GroupSpan(body) else None;
    var m := a + Times(min, Size(body));
    match OptionalCopies(min, max)
    case None =>
      PlacedSplit(p, a, EmitCopies(body, min, a, d), EmitLoop(body, greedy, zero, m, d));
      CopiesAreNested(body, min, p, a, d);
      StretchEnds(p, a, m, d);
      LoopIsNested(body, greedy, zero, p, m, d);
      StretchJoin(p, a, m, m + LoopSize(body, zero), d);
    case Some(k) =>
      PlacedSplit(p, a, EmitCopies(body, min, a, d), EmitOptional(body, k, greedy, zero, m, d));
      CopiesAreNested(body, min, p, a, d);
      StretchEnds(p, a, m, d);
      OptionalIsNested(body, k, greedy, zero, p, m, d);
      StretchJoin(p, a, m, m + OptionalSize(body, k, zero), d);
  }

  lemma {:induction false} ConcatIsNested(parts: seq<Node>, p: Code, a: nat, d: nat)
    requires Placed(p, a, EmitConcat(parts, a, d)) && a + ConcatSize(parts) < |p| && Live(p, a) == d
    ensures Stretch(p, a, a + ConcatSize(parts), d)
    decreases parts, 0, 0
  {
    hide Emit;
    if parts != [] {
      var m := a + Size(parts[0]);
      PlacedSplit(p, a, Emit(parts[0], a, d), EmitConcat(parts[1..], m, d));
      EmitIsNested(parts[0], p, a, d);
      ConcatIsNested(parts[1..], p, m, d);
      StretchJoin(p, a, m, a + ConcatSize(parts), d);
    }
  }

  lemma {:induction false} AltIsNested(branches: seq<Node>, p: Code, a: nat, d: nat)
    requires Placed(p, a, EmitAlt(branches, a, d)) && a + AltSize(branches) < |p| && Live(p, a) == d
    ensures Stretch(p, a, a + AltSize(branches), d)
    decreases branches, 0, 0
  {
    hide Emit, Live, Stretch;
    if branches == [] {
      StretchNone(p, a, d);
    } else if |branches| == 1 {
      EmitIsNested(branches[0], p, a, d);
    } else {
      var next, end := a + Size(branches[0]) + 2, a + AltSize(branches);
      AltParts(branches, p, a, d);
      LiveNext(p, a);
      EmitIsNested(branches[0], p, a + 1, d);
      StretchEnds(p, a + 1, next - 1, d);
      LiveNext(p, next - 1);
      AltIsNested(branches[1..], p, next, d);
      StretchEnds(p, next, end, d);
      StretchOne(p, a, d);
      StretchOne(p, next - 1, d);
      StretchJoin(p, a, a + 1, next - 1, d);
      StretchJoin(p, a, next - 1, next, d);
      StretchJoin(p, a, next, end, d);
    }
  }

  lemma {:induction false} CopiesAreNested(body: Node, k: nat, p: Code, a: nat, d: nat)
    requires Placed(p, a, EmitCopies(body, k, a, d)) && a + Times(k, Size(body)) < |p| && Live(p, a) == d
    ensures Stretch(p, a, a + Times(k, Size(body)), d)
    decreases body, 1, k
  {
    hide Emit;
    if k > 0 {
      var m := a + Size(body);
      PlacedSplit(p, a, Emit(body, a, d), EmitCopies(body, k - 1, m, d));
      EmitIsNested(body, p, a, d);
      CopiesAreNested(body, k - 1, p, m, d);
      StretchJoin(p, a, m, a + Times(k, Size(body)), d);
    }
  }

  lemma StretchChecked(p: Code, a: nat, m: nat, d: nat)
    requires a < m && m + 1 < |p| && Live(p, a) == d && p[a] == ProgressStart(d)
    requires p[m].ProgressCheck? && p[m].reg == d && Stretch(p, a + 1, m, d + 1)
    ensures Live(p, m + 1) == d
    ensures p[m].exit < |p| && Live(p, p[m].exit) == d ==> Stretch(p, a, m + 1, d)
  {
  }

  lemma StretchEnds(p: Code, a: nat, b: nat, d: nat)
    requires Stretch(p, a, b, d)
    ensures b < |p| && Live(p, b) == d
  {
  }

  lemma LiveNext(p: Code, a: nat)
    requires a < |p| && !p[a].ProgressStart? && !p[a].ProgressCheck?
    ensures Live(p, a + 1) == Live(p, a)
  {
  }

  lemma LiveStart(p: Code, a: nat)
    requires a < |p| && p[a].ProgressStart?
    ensures Live(p, a + 1) == Live(p, a) + 1
  {
  }

  /** The depth rises by one inside a checked iteration; its exit has to have the depth outside. */
  lemma {:induction false} IterationIsNested(body: Node, checked: bool, exit: nat, p: Code, a: nat, d: nat)
    requires Placed(p, a, EmitIteration(body, checked, exit, a, d)) && Live(p, a) == d
    requires a + Size(body) + 2 * One(checked) < |p|
    ensures Live(p, a + Size(body) + 2 * One(checked)) == d
    ensures (checked ==> exit < |p| && Live(p, exit) == d) ==> Stretch(p, a, a + Size(body) + 2 * One(checked), d)
    decreases body, 1, 0
  {
    hide Emit, Live, Stretch;
    PlacedSplit3(p, a, When(checked, ProgressStart(d)), Emit(body, a + One(checked), d + One(checked)),
                 When(checked, ProgressCheck(d, exit)));
    if checked {
      var m := a + 1 + Size(body);
      PlacedOne(p, a, ProgressStart(d));
      PlacedOne(p, m, ProgressCheck(d, exit));
      LiveStart(p, a);
      EmitIsNested(body, p, a + 1, d + 1);
      StretchChecked(p, a, m, d);
    } else {
      EmitIsNested(body, p, a, d);
      StretchEnds(p, a, a + Size(body), d);
    }
  }

  lemma {:induction false} LoopIsNested(body: Node, greedy: bool, zero: Span, p: Code, a: nat, d: nat)
    requires Placed(p, a, EmitLoop(body, greedy, zero, a, d)) && a + LoopSize(body, zero) < |p| && Live(p, a) == d
    ensures Stretch(p, a, a + LoopSize(body, zero), d)
    decreases body, 2, 0
  {
    hide Emit, EmitLoop, EmitIteration, Stretch, Live, Placed;
    LoopParts(body, greedy, zero, p, a, d);
    var split := a + One(zero.Some?);
    var clear := split + 2 + Size(body) + 2 * One(CanBeEmpty(body));
    var end := a + LoopSize(body, zero);
    if zero.Some? {
      LiveNext(p, a);
    }
    LiveNext(p, split);
    IterationIsNested(body, CanBeEmpty(body), end, p, split + 1, d);
    LiveNext(p, clear - 1);
    if zero.Some? {
      LiveNext(p, clear);
      StretchOne(p, a, d);
      StretchOne(p, clear, d);
    } else {
      StretchNone(p, a, d);
      StretchNone(p, clear, d);
    }
    StretchOne(p, split, d);
    StretchOne(p, clear - 1, d);
    StretchJoin(p, a, split, split + 1, d);
    StretchJoin(p, a, split + 1, clear - 1, d);
    StretchJoin(p, a, clear - 1, clear, d);
    StretchJoin(p, a, clear, end, d);
  }

  lemma StretchNone(p: Code, a: nat, d: nat)
    requires a < |p| && Live(p, a) == d
    ensures Stretch(p, a, a, d)
  {
  }

  /** The copies alone; the exits lie after them. */
  lemma {:induction false} OptionalCopiesNested(body: Node, k: nat, greedy: bool, exit: nat, end: nat, p: Code,
                                                a: nat, d: nat)
    requires Placed(p, a, EmitOptionalCopies(body, k, greedy, exit, end, a, d)) && Live(p, a) == d
    requires a + CopiesSize(body, k) < |p|
    ensures Live(p, a + CopiesSize(body, k)) == d
    ensures (exit < |p| && Live(p, exit) == d && end < |p| && Live(p, end) == d)
            ==> Stretch(p, a, a + CopiesSize(body, k), d)
    decreases body, 2, k
  {
    hide Emit, EmitOptionalCopies, EmitIteration, Stretch, Live, Placed;
    if k == 0 {
      StretchNone(p, a, d);
    } else {
      var checked := Checked(body, k);
      var next := a + 1 + Size(body) + 2 * One(checked);
      CopyParts(body, k, greedy, exit, end, p, a, d);
      LiveNext(p, a);
      IterationIsNested(body, checked, end, p, a + 1, d);
      OptionalCopiesNested(body, k - 1, greedy, end, end, p, next, d);
      if exit < |p| && Live(p, exit) == d && end < |p| && Live(p, end) == d {
        StretchOne(p, a, d);
        StretchJoin(p, a, a + 1, next, d);
        StretchJoin(p, a, next, a + CopiesSize(body, k), d);
      }
    }
  }

  lemma {:induction false} OptionalIsNested(body: Node, k: nat, greedy: bool, zero: Span, p: Code, a: nat, d: nat)
    requires Placed(p, a, EmitOptional(body, k, greedy, zero, a, d)) && a + OptionalSize(body, k, zero) < |p|
    requires Live(p, a) == d
    ensures Stretch(p, a, a + OptionalSize(body, k, zero), d)
    decreases body, 3, 0
  {
    hide EmitOptionalCopies, CopiesSize, Stretch;
    var stop := a + CopiesSize(body, k);
    if k == 0 || Silent(body) {
      StretchNone(p, a, d);
    } else if zero.None? {
      OptionalCopiesNested(body, k, greedy, stop, stop, p, a, d);
    } else {
      PlacedSplit3(p, a, EmitOptionalCopies(body, k, greedy, stop + 1, stop + 2, a, d), [Jmp(stop + 2)],
                   Clearing(zero));
      PlacedOne(p, stop, Jmp(stop + 2));
      PlacedClearing(p, stop + 1, zero);
      OptionalCopiesNested(body, k, greedy, stop + 1, stop + 2, p, a, d);
      assert Live(p, stop + 1) == d && Live(p, stop + 2) == d;
      StretchOne(p, stop, d);
      StretchOne(p, stop + 1, d);
      StretchJoin(p, a, stop, stop + 1, d);
      StretchJoin(p, a, stop + 1, stop + 2, d);
    }
  }

  /** Every compiled program is nested. */
  lemma ProgramIsNested(n: Node)
    ensures Nested(EmitProgram(n)) && Live(EmitProgram(n), 0) == 0
  {
    hide Emit;
    var p := EmitProgram(n);
    PlacedSplit(p, 0, EmitWhole(n), [Match]);
    PlacedOne(p, |p| - 1, Match);
    EmitIsNested(Group(Some(0), n), p, 0, 0);
  }
}
