/** Compiling keeps meaning: a node's code yields the node's results, in order, with their captures. */
module CompileCorrect {
  import opened Options
  import opened Syntax
  import opened Denotation
  import opened Lengths
  import opened Machine
  import opened Reaching
  import opened Emission
  import opened Placement

  /** A node's code, entered in state `s`, leads to its results at the code's end. */
  lemma {:induction false} EmitRuns(n: Node, p: Code, e: Env, a: nat, s: State, regs: seq<nat>)
    requires s.pos <= |e.hay| && Placed(p, a, Emit(n, a, |regs|))
    ensures Reach(p, e, regs, a, s, a + Size(n), Results(n, e, s))
    decreases n, 0, 0, 0, 0
  {
    hide Reach, ReachAll, ConcatResults, AltResults, EmitConcat, EmitAlt, EmitCopies, EmitLoop, EmitOptional;
    match n
    case Empty => ReachHere(p, e, regs, a, s);
    case Group(Some(nr), inner) => GroupRuns(nr, inner, p, e, a, s, regs);
    case Group(None, inner) => EmitRuns(inner, p, e, a, s, regs);
    case Concat(parts) =>
      ConcatRuns(parts, p, e, a, [s], regs);
      ReachOne(p, e, regs, a, s, a + ConcatSize(parts), ConcatResults(parts, e, [s]));
    case Alt(branches) =>
      if branches == [] {
        ReachHere(p, e, regs, a, s);
      } else {
        AltRuns(branches, p, e, a, s, regs);
      }
    case Repeat(body, min, max, greedy) => RepeatRuns(body, min, max, greedy, p, e, a, s, regs);
    case _ =>
      PlacedOne(p, a, Emit(n, a, |regs|)[0]);
      ReachBy(p, e, regs, a, s, Results(n, e, s));
  }

  lemma {:induction false} EmitRunsAll(n: Node, p: Code, e: Env, a: nat, ss: seq<State>, regs: seq<nat>)
    requires AllWithin(e, ss) && Placed(p, a, Emit(n, a, |regs|))
    ensures ReachAll(p, e, regs, a, ss, a + Size(n), ResultsAll(n, e, ss))
    decreases n, 1, |ss|, 0, 0
  {
    hide Next, Reach, ReachAll, Results, Emit;
    if ss == [] {
      ReachNone(p, e, regs, a, a + Size(n));
    } else {
      EmitRuns(n, p, e, a, ss[0], regs);
      EmitRunsAll(n, p, e, a, ss[1..], regs);
      ReachCons(p, e, regs, a, ss, a + Size(n), Results(n, e, ss[0]), ResultsAll(n, e, ss[1..]));
    }
  }

  lemma {:induction false} GroupRuns(nr: nat, inner: Node, p: Code, e: Env, a: nat, s: State, regs: seq<nat>)
    requires s.pos <= |e.hay|
    requires Placed(p, a, [Save(2 * nr)] + Emit(inner, a + 1, |regs|) + [Save(2 * nr + 1)])
    ensures Reach(p, e, regs, a, s, a + Size(inner) + 2, Closed(Results(inner, e, Saved(s, 2 * nr)), 2 * nr + 1))
    decreases inner, 2, 0, 0, 0
  {
    hide Reach, ReachAll, Emit, Results, Size;
    var mid := a + 1 + Size(inner);
    PlacedSplit3(p, a, [Save(2 * nr)], Emit(inner, a + 1, |regs|), [Save(2 * nr + 1)]);
    PlacedOne(p, a, Save(2 * nr));
    PlacedOne(p, mid, Save(2 * nr + 1));
    var s' := Saved(s, 2 * nr);
    var rs := Results(inner, e, s');
    EmitRuns(inner, p, e, a + 1, s', regs);
    SaveAll(p, e, regs, mid, rs, 2 * nr + 1);
    ReachThen(p, e, regs, a + 1, s', mid, rs, mid + 1, Closed(rs, 2 * nr + 1));
    ReachStep(p, e, regs, a, s, a + 1, s', mid + 1, Closed(rs, 2 * nr + 1));
  }

  lemma {:induction false} ConcatRuns(parts: seq<Node>, p: Code, e: Env, a: nat, ss: seq<State>, regs: seq<nat>)
    requires AllWithin(e, ss) && Placed(p, a, EmitConcat(parts, a, |regs|))
    ensures ReachAll(p, e, regs, a, ss, a + ConcatSize(parts), ConcatResults(parts, e, ss))
    decreases parts, 0, 0, 0, 0
  {
    hide Next, Reach, ReachAll, ResultsAll, Emit;
    if parts == [] {
      ReachAllHere(p, e, regs, a, ss);
    } else {
      var m := a + Size(parts[0]);
      PlacedSplit(p, a, Emit(parts[0], a, |regs|), EmitConcat(parts[1..], m, |regs|));
      EmitRunsAll(parts[0], p, e, a, ss, regs);
      var ms := ResultsAll(parts[0], e, ss);
      ConcatRuns(parts[1..], p, e, m, ms, regs);
      ReachAllThen(p, e, regs, a, ss, m, ms, a + ConcatSize(parts), ConcatResults(parts, e, ss));
    }
  }

  lemma {:induction false} AltRuns(branches: seq<Node>, p: Code, e: Env, a: nat, s: State, regs: seq<nat>)
    requires s.pos <= |e.hay| && branches != [] && Placed(p, a, EmitAlt(branches, a, |regs|))
    ensures Reach(p, e, regs, a, s, a + AltSize(branches), AltResults(branches, e, s))
    decreases branches, 0, 0, 0, 0
  {
    hide Next, Reach, ReachAll, Results, Emit;
    var here, later := Results(branches[0], e, s), AltResults(branches[1..], e, s);
    if |branches| == 1 {
      EmitRuns(branches[0], p, e, a, s, regs);
      assert later == [] && here + later == here;
    } else {
      var next, end := a + Size(branches[0]) + 2, a + AltSize(branches);
      AltParts(branches, p, a, |regs|);
      EmitRuns(branches[0], p, e, a + 1, s, regs);
      JumpAll(p, e, regs, next - 1, here, end);
      ReachThen(p, e, regs, a + 1, s, next - 1, here, end, here);
      AltRuns(branches[1..], p, e, next, s, regs);
      ReachSplit(p, e, regs, a, s, a + 1, next, end, here, later);
    }
  }

  // ----- repetitions -----

  function EmitTail(body: Node, left: Option<nat>, greedy: bool, zero: Span, a: nat, d: nat): Code {
    match left
    case None => EmitLoop(body, greedy, zero, a, d)
    case Some(k) => EmitOptional(body, k, greedy, zero, a, d)
  }

  lemma {:induction false} RepeatRuns(body: Node, min: nat, max: Option<nat>, greedy: bool, p: Code, e: Env, a: nat,
                                      s: State, regs: seq<nat>)
    requires s.pos <= |e.hay| && Placed(p, a, Emit(Repeat(body, min, max, greedy), a, |regs|))
    ensures Reach(p, e, regs, a, s, a + Size(Repeat(body, min, max, greedy)),
                  Results(Repeat(body, min, max, greedy), e, s))
    decreases body, 7, 0, 0, 0
  {
    hide Next, Reach, ReachAll, EmitLoop, EmitOptional, EmitCopies, CopyResults, OptionalResultsAll;
    var zero := if min == 0 then GroupSpan(body) else None;
    var left := OptionalCopies(min, max);
    var m := a + Times(min, Size(body));
    var copies := CopyResults(body, min, e, [s]);
    var tail := EmitTail(body, left, greedy, zero, m, |regs|);
    PlacedSplit(p, a, EmitCopies(body, min, a, |regs|), tail);
    CopiesRun(body, min, p, e, a, [s], regs);
    var end := m + |tail|;
    if max.Some? && Silent(body) {
      ReachAllHere(p, e, regs, m, copies);
    } else {
      TailRunsAll(body, left, greedy, zero, p, e, m, copies, regs);
    }
    ReachOne(p, e, regs, a, s, m, copies);
    ReachThen(p, e, regs, a, s, m, copies, end, Results(Repeat(body, min, max, greedy), e, s));
  }

  lemma {:induction false} CopiesRun(body: Node, k: nat, p: Code, e: Env, a: nat, ss: seq<State>, regs: seq<nat>)
    requires AllWithin(e, ss) && Placed(p, a, EmitCopies(body, k, a, |regs|))
    ensures ReachAll(p, e, regs, a, ss, a + Times(k, Size(body)), CopyResults(body, k, e, ss))
    decreases body, 2, k, 0, 0
  {
    hide Next, Reach, ReachAll, ResultsAll, Emit;
    if k == 0 {
      ReachAllHere(p, e, regs, a, ss);
    } else {
      var m := a + Size(body);
      PlacedSplit(p, a, Emit(body, a, |regs|), EmitCopies(body, k - 1, m, |regs|));
      EmitRunsAll(body, p, e, a, ss, regs);
      var ms := ResultsAll(body, e, ss);
      CopiesRun(body, k - 1, p, e, m, ms, regs);
      ReachAllThen(p, e, regs, a, ss, m, ms, a + Times(k, Size(body)), CopyResults(body, k, e, ss));
    }
  }

  lemma {:induction false} TailRunsAll(body: Node, left: Option<nat>, greedy: bool, zero: Span, p: Code, e: Env,
                                       a: nat, ss: seq<State>, regs: seq<nat>)
    requires AllWithin(e, ss) && Placed(p, a, EmitTail(body, left, greedy, zero, a, |regs|))
    requires left.None? || !Silent(body)
    ensures ReachAll(p, e, regs, a, ss, a + |EmitTail(body, left, greedy, zero, a, |regs|)|,
                     OptionalResultsAll(body, left, greedy, zero, e, ss))
    decreases body, 6, |ss|, 0, 0
  {
    hide Reach, ReachAll, OptionalResults, EmitTail;
    var b := a + |EmitTail(body, left, greedy, zero, a, |regs|)|;
    if ss == [] {
      ReachNone(p, e, regs, a, b);
    } else {
      TailRuns(body, left, greedy, zero, p, e, a, ss[0], regs);
      TailRunsAll(body, left, greedy, zero, p, e, a, ss[1..], regs);
      ReachCons(p, e, regs, a, ss, b, OptionalResults(body, left, greedy, zero, e, ss[0]),
                OptionalResultsAll(body, left, greedy, zero, e, ss[1..]));
    }
  }

  lemma {:induction false} TailRuns(body: Node, left: Option<nat>, greedy: bool, zero: Span, p: Code, e: Env,
                                    a: nat, s: State, regs: seq<nat>)
    requires s.pos <= |e.hay| && Placed(p, a, EmitTail(body, left, greedy, zero, a, |regs|))
    requires left.None? || !Silent(body)
    ensures Reach(p, e, regs, a, s, a + |EmitTail(body, left, greedy, zero, a, |regs|)|,
                  OptionalResults(body, left, greedy, zero, e, s))
    decreases body, 5, 0, 0, 0
  {
    hide EmitLoop, EmitOptional, Results, IterationResults, LoopSize, CopiesSize, Next, Reach, ReachAll;
    match left
    case None => LoopRuns(body, greedy, zero, p, e, a, s, regs);
    case Some(k) =>
      if k == 0 {
        ReachHere(p, e, regs, a, s);
      } else {
        OptionalRuns(body, k, greedy, zero, p, e, a, s, regs);
      }
  }

  /** The split before an iteration: the quantifier's order decides which of the two is preferred. */
  lemma OrderRuns(p: Code, e: Env, regs: seq<nat>, a: nat, greedy: bool, taken: nat, skipped: nat, end: nat,
                  zero: Span, more: seq<State>, s: State)
    requires s.pos <= |e.hay| && a < |p| && p[a] == Order(greedy, taken, skipped)
    requires ExitsTo(p, skipped, end, zero)
    requires Reach(p, e, regs, taken, s, end, more)
    ensures var skip := Skipped(s, zero);
            Reach(p, e, regs, a, s, end, if greedy then more + [skip] else [skip] + more)
  {
    hide Reach, ReachAll;
    var skip := Skipped(s, zero);
    ReachHere(p, e, regs, end, skip);
    if zero.Some? {
      ReachStep(p, e, regs, skipped, s, end, skip, end, [skip]);
    }
    if greedy {
      ReachSplit(p, e, regs, a, s, taken, skipped, end, more, [skip]);
    } else {
      ReachSplit(p, e, regs, a, s, skipped, taken, end, [skip], more);
    }
  }

  /** One iteration, and what follows each of its results. */
  lemma {:induction false} IterationRuns(body: Node, checked: bool, exit: nat, p: Code, e: Env, a: nat, s: State,
                                         regs: seq<nat>, end: nat, out: seq<State>)
    requires s.pos <= |e.hay| && Placed(p, a, EmitIteration(body, checked, exit, a, |regs|))
    requires ReachAfter(p, e, regs, checked, exit, a + Size(body) + 2 * One(checked), s.pos, Results(body, e, s),
                        end, out)
    ensures Reach(p, e, regs, a, s, end, out)
    decreases body, 3, 0, 0, 0
  {
    hide Next, Reach, ReachAll, ReachAfter, Results, Emit;
    var d, c, rs := |regs|, One(checked), Results(body, e, s);
    PlacedSplit3(p, a, When(checked, ProgressStart(d)), Emit(body, a + c, d + c), When(checked, ProgressCheck(d, exit)));
    if !checked {
      EmitRuns(body, p, e, a, s, regs);
      ReachUnchecked(p, e, regs, a, s, a + Size(body), rs, exit, end, out);
    } else {
      var check := a + 1 + Size(body);
      PlacedOne(p, a, ProgressStart(d));
      PlacedOne(p, check, ProgressCheck(d, exit));
      EmitRuns(body, p, e, a + 1, s, regs + [s.pos]);
      ReachChecked(p, e, regs, a, s, check, rs, exit, end, out);
    }
  }

  lemma {:induction false} LoopRuns(body: Node, greedy: bool, zero: Span, p: Code, e: Env, a: nat, s: State,
                                    regs: seq<nat>)
    requires s.pos <= |e.hay| && Placed(p, a, EmitLoop(body, greedy, zero, a, |regs|))
    ensures Reach(p, e, regs, a, s, a + LoopSize(body, zero), OptionalResults(body, None, greedy, zero, e, s))
    decreases body, 4, |e.hay| - s.pos, 2, 0
  {
    hide Next, Reach, ReachAll, Results, Emit, EmitLoop, EmitIteration, IterationResults;
    LoopParts(body, greedy, zero, p, a, |regs|);
    var split := a + One(zero.Some?);
    var end := a + LoopSize(body, zero);
    LoopBodyRuns(body, greedy, zero, p, e, a, s, regs);
    var more := IterationResults(body, None, greedy, e, s, Results(body, e, s));
    if zero.Some? {
      OrderRuns(p, e, regs, a, greedy, split + 1, end - 1, end, zero, more, s);
    } else {
      OrderRuns(p, e, regs, split, greedy, split + 1, end, end, zero, more, s);
    }
  }

  /** From the loop's own split, which never clears. */
  lemma {:induction false} LoopSplitRuns(body: Node, greedy: bool, zero: Span, p: Code, e: Env, a: nat, s: State,
                                         regs: seq<nat>)
    requires s.pos <= |e.hay| && Placed(p, a, EmitLoop(body, greedy, zero, a, |regs|))
    ensures Reach(p, e, regs, a + One(zero.Some?), s, a + LoopSize(body, zero),
                  OptionalResults(body, None, greedy, None, e, s))
    decreases body, 4, |e.hay| - s.pos, 2, 0
  {
    hide Next, Reach, ReachAll, Results, Emit, EmitLoop, EmitIteration, IterationResults;
    LoopParts(body, greedy, zero, p, a, |regs|);
    var split := a + One(zero.Some?);
    var end := a + LoopSize(body, zero);
    LoopBodyRuns(body, greedy, zero, p, e, a, s, regs);
    OrderRuns(p, e, regs, split, greedy, split + 1, end, end, None,
              IterationResults(body, None, greedy, e, s, Results(body, e, s)), s);
  }

  lemma {:induction false} LoopBodyRuns(body: Node, greedy: bool, zero: Span, p: Code, e: Env, a: nat, s: State,
                                        regs: seq<nat>)
    requires s.pos <= |e.hay| && Placed(p, a, EmitLoop(body, greedy, zero, a, |regs|))
    ensures Reach(p, e, regs, a + One(zero.Some?) + 1, s, a + LoopSize(body, zero),
                  IterationResults(body, None, greedy, e, s, Results(body, e, s)))
    decreases body, 4, |e.hay| - s.pos, 1, 0
  {
    hide Next, Reach, ReachAll, ReachAfter, Results, Emit, EmitLoop, EmitIteration, IterationResults;
    LoopParts(body, greedy, zero, p, a, |regs|);
    var split := a + One(zero.Some?);
    var end := a + LoopSize(body, zero);
    var rs := Results(body, e, s);
    ResultsAreLong(body, e, s);
    LoopGoesOn(body, greedy, zero, p, e, a, s, rs, regs);
    IterationRuns(body, CanBeEmpty(body), end, p, e, split + 1, s, regs, end,
                  IterationResults(body, None, greedy, e, s, rs));
  }

  lemma {:induction false} LoopGoesOn(body: Node, greedy: bool, zero: Span, p: Code, e: Env, a: nat, s: State,
                                      rs: seq<State>, regs: seq<nat>)
    requires s.pos <= |e.hay| && Placed(p, a, EmitLoop(body, greedy, zero, a, |regs|))
    requires AllOnward(e, s, rs) && AllFrom(rs, s.pos + MinLen(body))
    ensures var checked := CanBeEmpty(body);
            var end := a + LoopSize(body, zero);
            var back := a + One(zero.Some?) + 1 + Size(body) + 2 * One(checked);
            ReachAfter(p, e, regs, checked, end, back, s.pos, rs, end, IterationResults(body, None, greedy, e, s, rs))
    decreases body, 4, |e.hay| - s.pos, 0, |rs|
  {
    hide Reach, ReachAll, ReachAfter, Results, OptionalResults, Emit, EmitLoop, EmitIteration, Size, MinLen, Placed;
    var checked := CanBeEmpty(body);
    var split := a + One(zero.Some?);
    var end := a + LoopSize(body, zero);
    var back := split + 1 + Size(body) + 2 * One(checked);
    if rs == [] {
      ReachAfterNone(p, e, regs, checked, end, back, s.pos, end);
    } else {
      var r := rs[0];
      LoopGoesOn(body, greedy, zero, p, e, a, s, rs[1..], regs);
      var first := if r.pos == s.pos then [r] else OptionalResults(body, None, greedy, None, e, r);
      if r.pos == s.pos {
        ReachHere(p, e, regs, end, r);
      } else {
        LoopParts(body, greedy, zero, p, a, |regs|);
        LoopSplitRuns(body, greedy, zero, p, e, a, r, regs);
        ReachStep(p, e, regs, back, r, split, r, end, first);
      }
      ReachAfterCons(p, e, regs, checked, end, back, s.pos, rs, end, first,
                     IterationResults(body, None, greedy, e, s, rs[1..]));
    }
  }

  // ----- counted optional copies -----

  lemma {:induction false} OptionalRuns(body: Node, k: nat, greedy: bool, zero: Span, p: Code, e: Env, a: nat,
                                        s: State, regs: seq<nat>)
    requires s.pos <= |e.hay| && k > 0 && !Silent(body)
    requires Placed(p, a, EmitOptional(body, k, greedy, zero, a, |regs|))
    ensures Reach(p, e, regs, a, s, a + OptionalSize(body, k, zero), OptionalResults(body, Some(k), greedy, zero, e, s))
    decreases body, 4, |e.hay| - s.pos, 3, 0
  {
    hide Reach, ReachAll, OptionalResults, EmitOptionalCopies, CopiesSize;
    var stop := a + CopiesSize(body, k);
    if zero.Some? {
      PlacedSplit3(p, a, EmitOptionalCopies(body, k, greedy, stop + 1, stop + 2, a, |regs|), [Jmp(stop + 2)],
                   Clearing(zero));
      PlacedOne(p, stop, Jmp(stop + 2));
      PlacedClearing(p, stop + 1, zero);
      OptionalCopiesRun(body, k, greedy, zero, stop + 1, stop + 2, p, e, a, s, regs);
    } else {
      OptionalCopiesRun(body, k, greedy, zero, stop, stop, p, e, a, s, regs);
    }
  }

  /** The copies fall through to `stop`, which is the repetition's end or jumps to it. */
  predicate FallsTo(p: Code, stop: nat, end: nat) {
    stop == end || (stop < |p| && p[stop] == Jmp(end))
  }

  lemma FallRuns(p: Code, e: Env, regs: seq<nat>, stop: nat, end: nat, s: State)
    requires s.pos <= |e.hay| && FallsTo(p, stop, end)
    ensures Reach(p, e, regs, stop, s, end, [s])
  {
    hide Reach, ReachAll;
    ReachHere(p, e, regs, end, s);
    if stop != end {
      ReachStep(p, e, regs, stop, s, end, s, end, [s]);
    }
  }

  lemma {:induction false} OptionalCopiesRun(body: Node, k: nat, greedy: bool, zero: Span, exit: nat, end: nat, p: Code,
                                             e: Env, a: nat, s: State, regs: seq<nat>)
    requires s.pos <= |e.hay| && Placed(p, a, EmitOptionalCopies(body, k, greedy, exit, end, a, |regs|))
    requires k > 0 ==> ExitsTo(p, exit, end, zero)
    requires FallsTo(p, a + CopiesSize(body, k), end)
    ensures Reach(p, e, regs, a, s, end, OptionalResults(body, Some(k), greedy, zero, e, s))
    decreases body, 4, |e.hay| - s.pos, 2, 0
  {
    hide Next, Reach, ReachAll, ReachAfter, Results, Emit, EmitOptionalCopies, EmitIteration, IterationResults, MinLen, Skipped, Placed, FallsTo,
         ExitsTo, AllFrom, Size;
    if k == 0 {
      FallRuns(p, e, regs, a, end, s);
    } else {
      var checked := Checked(body, k);
      var next := a + 1 + Size(body) + 2 * One(checked);
      CopyParts(body, k, greedy, exit, end, p, a, |regs|);
      var rs := Results(body, e, s);
      var more := IterationResults(body, Some(k), greedy, e, s, rs);
      ResultsAreLong(body, e, s);
      CopiesGoOn(body, k, greedy, end, p, e, next, s, rs, regs);
      IterationRuns(body, checked, end, p, e, a + 1, s, regs, end, more);
      OrderRuns(p, e, regs, a, greedy, a + 1, exit, end, zero, more, s);
    }
  }

  lemma {:induction false} CopiesGoOn(body: Node, k: nat, greedy: bool, end: nat, p: Code, e: Env, next: nat, s: State,
                                      rs: seq<State>, regs: seq<nat>)
    requires s.pos <= |e.hay| && k > 0
    requires Placed(p, next, EmitOptionalCopies(body, k - 1, greedy, end, end, next, |regs|))
    requires FallsTo(p, next + CopiesSize(body, k - 1), end)
    requires AllOnward(e, s, rs) && AllFrom(rs, s.pos + MinLen(body))
    ensures ReachAfter(p, e, regs, Checked(body, k), end, next, s.pos, rs, end,
                       IterationResults(body, Some(k), greedy, e, s, rs))
    decreases body, 4, |e.hay| - s.pos, 1, |rs|
  {
    hide Next, Reach, ReachAll, ReachAfter, Results, OptionalResults, Emit, EmitOptionalCopies, EmitIteration;
    var checked := Checked(body, k);
    if rs == [] {
      ReachAfterNone(p, e, regs, checked, end, next, s.pos, end);
    } else {
      var r := rs[0];
      CopiesGoOn(body, k, greedy, end, p, e, next, s, rs[1..], regs);
      var first := if r.pos == s.pos then [r] else OptionalResults(body, Some(k - 1), greedy, None, e, r);
      if r.pos == s.pos {
        if checked {
          ReachHere(p, e, regs, end, r);
        } else {
          assert k == 1;
          FallRuns(p, e, regs, next, end, r);
        }
      } else {
        OptionalCopiesRun(body, k - 1, greedy, None, end, end, p, e, next, r, regs);
      }
      ReachAfterCons(p, e, regs, checked, end, next, s.pos, rs, end, first,
                     IterationResults(body, Some(k), greedy, e, s, rs[1..]));
    }
  }

  // ----- whole programs -----

  lemma {:induction false} MatchesAtEnd(p: Code, e: Env, pc: nat, rs: seq<State>)
    requires pc < |p| && p[pc].Match?
    ensures Run(p, e, 0, Threads(pc, rs, [])) == Some(rs)
    decreases |rs|
  {
    var cs := Threads(pc, rs, []);
    if rs != [] {
      assert cs[1..] == Threads(pc, rs[1..], []);
      MatchesAtEnd(p, e, pc, rs[1..]);
      assert [rs[0]] + rs[1..] == rs;
    } else {
      assert cs == [];
    }
  }

  /** A compiled program's run ends, and finds exactly the pattern's matches, in the pattern's order of preference. */
  lemma ProgramYields(n: Node, e: Env, s: State)
    requires s.pos <= |e.hay|
    ensures Yields(EmitProgram(n), e, [Config(0, s, [])], Matches(n, e, s))
  {
    hide Leads, Next, Run, Emit, Results;
    var p, all := EmitProgram(n), Group(Some(0), n);
    var body := EmitWhole(n);
    PlacedSplit(p, 0, body, [Match]);
    EmitRuns(all, p, e, 0, s, []);
    var rs := Matches(n, e, s);
    MatchesAtEnd(p, e, |body|, rs);
    LeadsYields(p, e, [Config(0, s, [])], Threads(|body|, rs, []), rs);
  }
}
