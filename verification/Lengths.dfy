/** The minimum length an analysis computes bounds every match, and is zero exactly when the empty text matches. */
module Lengths {
  import opened Options
  import opened Syntax
  import opened Denotation

  ghost predicate AllFrom(ss: seq<State>, low: int) {
    forall i :: 0 <= i < |ss| ==> low <= ss[i].pos
  }

  /** A match is at least as long as the minimum length of its node. */
  lemma {:induction false} ResultsAreLong(n: Node, e: Env, s: State)
    requires s.pos <= |e.hay|
    ensures AllFrom(Results(n, e, s), s.pos + MinLen(n))
    decreases n, 0, 0
  {
    match n
    case Group(Some(nr), inner) => ResultsAreLong(inner, e, Saved(s, 2 * nr));
    case Group(None, inner) => ResultsAreLong(inner, e, s);
    case Concat(parts) => ConcatIsLong(parts, e, [s], s.pos);
    case Alt(branches) =>
      if branches != [] {
        AltIsLong(branches, e, s);
      }
    case Repeat(body, min, max, greedy) =>
      CopiesAreLong(body, min, e, [s], s.pos);
      var zero := if min == 0 then GroupSpan(body) else None;
      OptionalsAreLong(body, OptionalCopies(min, max), greedy, zero, e, CopyResults(body, min, e, [s]),
                       s.pos + Times(min, MinLen(body)));
    case _ =>
  }

  lemma {:induction false} AllAreLong(n: Node, e: Env, ss: seq<State>, low: nat)
    requires AllWithin(e, ss) && AllFrom(ss, low)
    ensures AllFrom(ResultsAll(n, e, ss), low + MinLen(n))
    decreases n, 1, |ss|
  {
    if ss != [] {
      ResultsAreLong(n, e, ss[0]);
      AllAreLong(n, e, ss[1..], low);
    }
  }

  lemma {:induction false} ConcatIsLong(parts: seq<Node>, e: Env, ss: seq<State>, low: nat)
    requires AllWithin(e, ss) && AllFrom(ss, low)
    ensures AllFrom(ConcatResults(parts, e, ss), low + MinLenAll(parts))
    decreases parts, 0, 0
  {
    if parts != [] {
      AllAreLong(parts[0], e, ss, low);
      ConcatIsLong(parts[1..], e, ResultsAll(parts[0], e, ss), low + MinLen(parts[0]));
    }
  }

  lemma {:induction false} AltIsLong(branches: seq<Node>, e: Env, s: State)
    requires s.pos <= |e.hay| && branches != []
    ensures AllFrom(AltResults(branches, e, s), s.pos + MinLenAny(branches))
    decreases branches, 0, 0
  {
    ResultsAreLong(branches[0], e, s);
    if |branches| > 1 {
      AltIsLong(branches[1..], e, s);
    } else {
      assert AltResults(branches[1..], e, s) == [];
    }
  }

  lemma {:induction false} CopiesAreLong(body: Node, k: nat, e: Env, ss: seq<State>, low: nat)
    requires AllWithin(e, ss) && AllFrom(ss, low)
    ensures AllFrom(CopyResults(body, k, e, ss), low + Times(k, MinLen(body)))
    decreases body, 2, k
  {
    if k > 0 {
      AllAreLong(body, e, ss, low);
      CopiesAreLong(body, k - 1, e, ResultsAll(body, e, ss), low + MinLen(body));
    }
  }

  lemma {:induction false} OptionalsAreLong(body: Node, left: Option<nat>, greedy: bool, zero: Span, e: Env,
                                            ss: seq<State>, low: nat)
    requires AllWithin(e, ss) && AllFrom(ss, low)
    ensures AllFrom(OptionalResultsAll(body, left, greedy, zero, e, ss), low)
    decreases |ss|
  {
    if ss != [] {
      OptionalsAreLong(body, left, greedy, zero, e, ss[1..], low);
    }
  }

  /** A node that compiles to nothing matches the empty text once, and changes no capture. */
  lemma {:induction false} SilentMatchesNothing(n: Node, e: Env, s: State)
    requires s.pos <= |e.hay| && Silent(n)
    ensures Results(n, e, s) == [s]
    decreases n, 0, 0
  {
    match n
    case Empty =>
    case Group(None, inner) => SilentMatchesNothing(inner, e, s);
    case Concat(parts) => SilentConcat(parts, e, s);
    case Alt(branches) =>
      if |branches| == 1 {
        SilentMatchesNothing(branches[0], e, s);
        assert AltResults(branches[1..], e, s) == [];
      }
    case Repeat(body, min, max, greedy) =>
      SilentCopies(body, min, e, s);
      if !Silent(body) {
        assert OptionalCopies(min, max) == Some(0);
        var zero := if min == 0 then GroupSpan(body) else None;
        OptionalResultsOfOne(body, Some(0), greedy, zero, e, s);
      }
  }

  lemma {:induction false} SilentConcat(parts: seq<Node>, e: Env, s: State)
    requires s.pos <= |e.hay| && AllSilent(parts)
    ensures ConcatResults(parts, e, [s]) == [s]
    decreases parts, 0, 0
  {
    if parts != [] {
      SilentMatchesNothing(parts[0], e, s);
      ResultsOfOne(parts[0], e, s);
      SilentConcat(parts[1..], e, s);
    }
  }

  lemma {:induction false} SilentCopies(body: Node, k: nat, e: Env, s: State)
    requires s.pos <= |e.hay| && (k > 0 ==> Silent(body))
    ensures CopyResults(body, k, e, [s]) == [s]
    decreases body, 2, k
  {
    if k > 0 {
      SilentMatchesNothing(body, e, s);
      ResultsOfOne(body, e, s);
      SilentCopies(body, k - 1, e, s);
    }
  }

  // ----- the empty text -----

  /** On the empty text every capture is empty, so back-references match, as do `^` and `$`. */
  ghost predicate AtZero(s: State) {
    s.pos == 0 && forall k :: 0 <= k < |s.slots| && s.slots[k].Some? ==> s.slots[k].value == 0
  }

  ghost predicate AllAtZero(ss: seq<State>) {
    forall i :: 0 <= i < |ss| ==> AtZero(ss[i])
  }

  lemma NonePast(e: Env, ss: seq<State>, low: nat)
    requires AllWithin(e, ss) && AllFrom(ss, low)
    ensures low > |e.hay| ==> ss == []
  {
    if ss != [] {
      assert low <= ss[0].pos <= |e.hay|;
    }
  }

  /** A pattern matches the empty text exactly when its minimum length is zero. */
  lemma {:induction false} EmptyTextMatches(n: Node, e: Env, s: State)
    requires e.hay == "" && AtZero(s)
    ensures AllAtZero(Results(n, e, s))
    ensures MinLen(n) == 0 <==> Results(n, e, s) != []
    decreases n, 0, 0
  {
    ResultsAreLong(n, e, s);
    NonePast(e, Results(n, e, s), MinLen(n));
    match n
    case Group(Some(nr), inner) => EmptyTextMatches(inner, e, Saved(s, 2 * nr));
    case Group(None, inner) => EmptyTextMatches(inner, e, s);
    case Concat(parts) => EmptyConcat(parts, e, [s]);
    case Alt(branches) =>
      if branches != [] {
        EmptyAlt(branches, e, s);
      }
    case Repeat(body, min, max, greedy) =>
      EmptyCopies(body, min, e, [s]);
      var zero := if min == 0 then GroupSpan(body) else None;
      EmptyOptionals(body, OptionalCopies(min, max), greedy, zero, e, CopyResults(body, min, e, [s]));
      TimesZero(min, MinLen(body));
    case _ =>
  }

  /** A body's iterations are checked exactly if one of them can be empty. */
  lemma CheckedIfEmpty(body: Node, e: Env, s: State)
    requires s.pos <= |e.hay|
    ensures !CanBeEmpty(body) ==> forall i :: 0 <= i < |Results(body, e, s)| ==> Results(body, e, s)[i].pos > s.pos
    ensures CanBeEmpty(body) && e.hay == "" && AtZero(s) ==> Results(body, e, s) != []
  {
    ResultsAreLong(body, e, s);
    if e.hay == "" && AtZero(s) {
      EmptyTextMatches(body, e, s);
    }
  }

  lemma {:induction false} EmptyAll(n: Node, e: Env, ss: seq<State>)
    requires e.hay == "" && AllAtZero(ss)
    ensures AllWithin(e, ss) && AllAtZero(ResultsAll(n, e, ss))
    ensures MinLen(n) == 0 && ss != [] ==> ResultsAll(n, e, ss) != []
    decreases n, 1, |ss|
  {
    if ss != [] {
      EmptyTextMatches(n, e, ss[0]);
      EmptyAll(n, e, ss[1..]);
    }
  }

  lemma {:induction false} EmptyConcat(parts: seq<Node>, e: Env, ss: seq<State>)
    requires e.hay == "" && AllAtZero(ss)
    ensures AllWithin(e, ss) && AllAtZero(ConcatResults(parts, e, ss))
    ensures MinLenAll(parts) == 0 && ss != [] ==> ConcatResults(parts, e, ss) != []
    decreases parts, 0, 0
  {
    if parts != [] {
      EmptyAll(parts[0], e, ss);
      EmptyConcat(parts[1..], e, ResultsAll(parts[0], e, ss));
    }
  }

  lemma {:induction false} EmptyAlt(branches: seq<Node>, e: Env, s: State)
    requires e.hay == "" && AtZero(s) && branches != []
    ensures AllAtZero(AltResults(branches, e, s))
    ensures MinLenAny(branches) == 0 ==> AltResults(branches, e, s) != []
    decreases branches, 0, 0
  {
    EmptyTextMatches(branches[0], e, s);
    if |branches| > 1 {
      EmptyAlt(branches[1..], e, s);
    } else {
      assert AltResults(branches[1..], e, s) == [];
    }
  }

  lemma {:induction false} EmptyCopies(body: Node, k: nat, e: Env, ss: seq<State>)
    requires e.hay == "" && AllAtZero(ss)
    ensures AllWithin(e, ss) && AllAtZero(CopyResults(body, k, e, ss))
    ensures (k == 0 || MinLen(body) == 0) && ss != [] ==> CopyResults(body, k, e, ss) != []
    decreases body, 2, k
  {
    if k > 0 {
      EmptyAll(body, e, ss);
      EmptyCopies(body, k - 1, e, ResultsAll(body, e, ss));
    }
  }

  lemma {:induction false} EmptyOptionals(body: Node, left: Option<nat>, greedy: bool, zero: Span, e: Env,
                                          ss: seq<State>)
    requires e.hay == "" && AllAtZero(ss)
    ensures AllWithin(e, ss) && AllAtZero(OptionalResultsAll(body, left, greedy, zero, e, ss))
    ensures ss != [] ==> OptionalResultsAll(body, left, greedy, zero, e, ss) != []
    decreases body, 4, |ss|
  {
    if ss != [] {
      EmptyOptional(body, left, greedy, zero, e, ss[0]);
      EmptyOptionals(body, left, greedy, zero, e, ss[1..]);
    }
  }

  lemma {:induction false} EmptyOptional(body: Node, left: Option<nat>, greedy: bool, zero: Span, e: Env, s: State)
    requires e.hay == "" && AtZero(s)
    ensures AllAtZero(OptionalResults(body, left, greedy, zero, e, s))
    ensures OptionalResults(body, left, greedy, zero, e, s) != []
    decreases body, 3, 0
  {
    if left != Some(0) {
      EmptyTextMatches(body, e, s);
      EmptyIterations(body, left, greedy, e, s, Results(body, e, s));
      assert AtZero(Skipped(s, zero));
    }
  }

  /** On the empty text every iteration is empty, and ends the repetition. */
  lemma {:induction false} EmptyIterations(body: Node, left: Option<nat>, greedy: bool, e: Env, s: State,
                                           rs: seq<State>)
    requires e.hay == "" && AtZero(s) && AllAtZero(rs) && left != Some(0)
    requires AllOnward(e, s, rs)
    ensures IterationResults(body, left, greedy, e, s, rs) == rs
    decreases |rs|
  {
    if rs != [] {
      EmptyIterations(body, left, greedy, e, s, rs[1..]);
    }
  }
}
