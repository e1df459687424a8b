/** What a pattern means: from a position and captures, its results in the order of preference. */
module Denotation {
  import opened Options
  import opened CharSets
  import opened Syntax

  /** The text, and the flags that change how a program runs on it. */
  datatype Env = Env(hay: string, multiline: bool, caseBlind: bool, variant: (char, char) -> bool)

  type Slots = seq<Option<nat>>

  /** Slots `2n` and `2n + 1` hold where group `n` starts and ends; group 0 is the match. */
  datatype State = State(pos: nat, slots: Slots)

  /** Records a position in slot `k`, if slot `k` is tracked at all. */
  function Saved(s: State, k: nat): State {
    if k < |s.slots| then s.(slots := s.slots[k := Some(s.pos)]) else s
  }

  /** Unsets the tracked slots of groups `lo` to `hi`. */
  function Cleared(slots: Slots, lo: nat, hi: nat): (r: Slots)
    ensures |r| == |slots|
  {
    seq(|slots|, k requires 0 <= k < |slots| => if 2 * lo <= k < 2 * hi + 2 then None else slots[k])
  }

  /** The exit of a quantifier that took no iteration. */
  function Skipped(s: State, zero: Span): State {
    match zero
    case Some(g) => s.(slots := Cleared(s.slots, g.0, g.1))
    case None => s
  }

  /** `^`: at the start, and in multi-line mode after a newline that does not end the text. */
  predicate AtLineStart(e: Env, pos: nat)
    requires pos <= |e.hay|
  {
    pos == 0 || (e.multiline && e.hay[pos - 1] == '\n' && pos < |e.hay|)
  }

  /** `$`: at the end, and in multi-line mode before a newline, and at the end only if no newline ends the text. */
  predicate AtLineEnd(e: Env, pos: nat)
    requires pos <= |e.hay|
  {
    if !e.multiline then pos == |e.hay|
    else if pos == |e.hay| then !(e.hay != "" && e.hay[|e.hay| - 1] == '\n')
    else e.hay[pos] == '\n'
  }

  predicate SameChar(e: Env, c: char, d: char) {
    c == d || (e.caseBlind && e.variant(c, d))
  }

  /** Where the text `hay[a..b]` ends when it is matched again at `pos`. */
  function BackrefEnd(e: Env, a: nat, b: nat, pos: nat): (r: Option<nat>)
    requires pos <= |e.hay|
    ensures r.Some? ==> pos <= r.value <= |e.hay|
    ensures r.Some? && a <= b ==> r.value == pos + (b - a)
    decreases b - a
  {
    if a >= b || a >= |e.hay| then (if a >= b then Some(pos) else None)
    else if pos < |e.hay| && SameChar(e, e.hay[a], e.hay[pos]) then BackrefEnd(e, a + 1, b, pos + 1)
    else None
  }

  /** Text matches again: the same characters, or case variants of them if case does not matter. */
  predicate SameText(e: Env, s: string, t: string) {
    |s| == |t| && forall i :: 0 <= i < |s| ==> s[i] == t[i] || (e.caseBlind && e.variant(s[i], t[i]))
  }

  /** A capture matches again where the text has the same characters, or case variants of them. */
  lemma {:induction false} MatchedAgain(e: Env, a: nat, b: nat, pos: nat)
    requires a <= b <= |e.hay| && pos <= |e.hay|
    ensures BackrefEnd(e, a, b, pos).Some? <==>
            pos + (b - a) <= |e.hay| && SameText(e, e.hay[a..b], e.hay[pos..pos + (b - a)])
    decreases b - a
  {
    if a < b && pos < |e.hay| {
      MatchedAgain(e, a + 1, b, pos + 1);
      if pos + (b - a) <= |e.hay| {
        var s, t := e.hay[a..b], e.hay[pos..pos + (b - a)];
        assert s == [s[0]] + e.hay[a + 1..b] && t == [t[0]] + e.hay[pos + 1..pos + (b - a)];
      }
    }
  }

  /** A group that matched nothing matches the empty string. */
  function BackrefTarget(e: Env, s: State, nr: nat): (r: Option<nat>)
    requires s.pos <= |e.hay|
    ensures r.Some? ==> s.pos <= r.value <= |e.hay|
  {
    if 2 * nr + 1 < |s.slots| && s.slots[2 * nr].Some? && s.slots[2 * nr + 1].Some? then
      BackrefEnd(e, s.slots[2 * nr].value, s.slots[2 * nr + 1].value, s.pos)
    else Some(s.pos)
  }

  predicate ClassMatches(e: Env, chars: CharSet, pos: nat) {
    pos < |e.hay| && Holds(chars, e.hay[pos] as int)
  }

  predicate Onward(e: Env, from: State, r: State) {
    from.pos <= r.pos <= |e.hay| && |r.slots| == |from.slots|
  }

  /** The results of matching `n` from `s`, most preferred first. */
  function Results(n: Node, e: Env, s: State): (rs: seq<State>)
    requires s.pos <= |e.hay|
    ensures AllOnward(e, s, rs)
    decreases n, 0, 0, 0, 0
  {
    match n
    case Empty => [s]
    case Class(chars) => if ClassMatches(e, chars, s.pos) then [s.(pos := s.pos + 1)] else []
    case Bol => if AtLineStart(e, s.pos) then [s] else []
    case Eol => if AtLineEnd(e, s.pos) then [s] else []
    case Backref(nr) =>
      var end := BackrefTarget(e, s, nr);
      if end.Some? then [s.(pos := end.value)] else []
    case Group(Some(nr), inner) =>
      var inside := Results(inner, e, Saved(s, 2 * nr));
      Closed(inside, 2 * nr + 1)
    case Group(None, inner) => Results(inner, e, s)
    case Concat(parts) => ConcatResults(parts, e, [s])
    case Alt(branches) => if branches == [] then [s] else AltResults(branches, e, s)
    case Repeat(body, min, max, greedy) =>
      var zero := if min == 0 then GroupSpan(body) else None;
      var copies := CopyResults(body, min, e, [s]);
      if max.Some? && Silent(body) then copies
      else OptionalResultsAll(body, OptionalCopies(min, max), greedy, zero, e, copies)
  }

  predicate AllWithin(e: Env, ss: seq<State>) {
    forall i :: 0 <= i < |ss| ==> ss[i].pos <= |e.hay|
  }

  predicate AllOnward(e: Env, from: State, ss: seq<State>) {
    forall i :: 0 <= i < |ss| ==> Onward(e, from, ss[i])
  }

  /** The results of a list of states are those of its first state and then those of the rest. */
  lemma OnwardJoin(e: Env, ss: seq<State>, first: seq<State>, rest: seq<State>)
    requires ss != [] && ss[0].pos <= |e.hay| && AllOnward(e, ss[0], first)
    requires forall o :: AllOnward(e, o, ss[1..]) ==> AllOnward(e, o, rest)
    ensures forall o :: AllOnward(e, o, ss) ==> AllOnward(e, o, first + rest)
  {
    forall o | AllOnward(e, o, ss) ensures AllOnward(e, o, first + rest) {
      assert AllOnward(e, o, ss[1..]);
      assert Onward(e, o, ss[0]);
      assert AllOnward(e, o, rest);
    }
  }

  function Closed(ss: seq<State>, k: nat): (r: seq<State>)
    ensures |r| == |ss| && forall i :: 0 <= i < |ss| ==> r[i] == Saved(ss[i], k)
  {
    seq(|ss|, i requires 0 <= i < |ss| => Saved(ss[i], k))
  }

  /** `Results` of each state in turn. */
  function ResultsAll(n: Node, e: Env, ss: seq<State>): (rs: seq<State>)
    requires AllWithin(e, ss)
    ensures AllWithin(e, rs)
    ensures forall o :: AllOnward(e, o, ss) ==> AllOnward(e, o, rs)
    decreases n, 1, |ss|, 0, 0
  {
    if ss == [] then [] else
      var rest := ResultsAll(n, e, ss[1..]);
      var first := Results(n, e, ss[0]);
      OnwardJoin(e, ss, first, rest);
      first + rest
  }

  function ConcatResults(parts: seq<Node>, e: Env, ss: seq<State>): (rs: seq<State>)
    requires AllWithin(e, ss)
    ensures AllWithin(e, rs)
    ensures forall o :: AllOnward(e, o, ss) ==> AllOnward(e, o, rs)
    decreases parts, 0, 0, 0, 0
  {
    if parts == [] then ss else ConcatResults(parts[1..], e, ResultsAll(parts[0], e, ss))
  }

  function AltResults(branches: seq<Node>, e: Env, s: State): (rs: seq<State>)
    requires s.pos <= |e.hay|
    ensures AllOnward(e, s, rs)
    decreases branches, 0, 0, 0, 0
  {
    if branches == [] then [] else Results(branches[0], e, s) + AltResults(branches[1..], e, s)
  }

  /** `k` required iterations: an empty one runs like any other. */
  function CopyResults(body: Node, k: nat, e: Env, ss: seq<State>): (rs: seq<State>)
    requires AllWithin(e, ss)
    ensures AllWithin(e, rs)
    ensures forall o :: AllOnward(e, o, ss) ==> AllOnward(e, o, rs)
    decreases body, 2, k, 0, 0
  {
    if k == 0 then ss else CopyResults(body, k - 1, e, ResultsAll(body, e, ss))
  }

  /**
   * Optional iterations, at most `left` if it is set: another iteration or the exit, in the quantifier's
   * order. An iteration that matched the empty string ends the repetition and keeps its captures.
   */
  function OptionalResults(body: Node, left: Option<nat>, greedy: bool, zero: Span, e: Env, s: State)
    : (rs: seq<State>)
    requires s.pos <= |e.hay|
    ensures AllOnward(e, s, rs)
    decreases body, 3, |e.hay| - s.pos, 1, 0
  {
    if left == Some(0) then [s] else
      var more := IterationResults(body, left, greedy, e, s, Results(body, e, s));
      if greedy then more + [Skipped(s, zero)] else [Skipped(s, zero)] + more
  }

  function OneLess(left: Option<nat>): Option<nat>
    requires left != Some(0)
  {
    if left.Some? then Some(left.value - 1) else None
  }

  /** What follows each result `rs` of one iteration begun at `s`. */
  function IterationResults(body: Node, left: Option<nat>, greedy: bool, e: Env, s: State, rs: seq<State>)
    : (out: seq<State>)
    requires s.pos <= |e.hay| && left != Some(0)
    requires AllOnward(e, s, rs)
    ensures AllOnward(e, s, out)
    decreases body, 3, |e.hay| - s.pos, 0, |rs|
  {
    if rs == [] then [] else
      assert Onward(e, s, rs[0]);
      var first :=
        if rs[0].pos == s.pos then [rs[0]]
        else OptionalResults(body, OneLess(left), greedy, None, e, rs[0]);
      assert AllOnward(e, rs[0], first);
      first + IterationResults(body, left, greedy, e, s, rs[1..])
  }

  function OptionalResultsAll(body: Node, left: Option<nat>, greedy: bool, zero: Span, e: Env, ss: seq<State>)
    : (rs: seq<State>)
    requires AllWithin(e, ss)
    ensures AllWithin(e, rs)
    ensures forall o :: AllOnward(e, o, ss) ==> AllOnward(e, o, rs)
    decreases body, 4, |ss|, 0, 0
  {
    if ss == [] then [] else
      var rest := OptionalResultsAll(body, left, greedy, zero, e, ss[1..]);
      var first := OptionalResults(body, left, greedy, zero, e, ss[0]);
      OnwardJoin(e, ss, first, rest);
      first + rest
  }

  lemma ResultsOfOne(n: Node, e: Env, s: State)
    requires s.pos <= |e.hay|
    ensures ResultsAll(n, e, [s]) == Results(n, e, s)
  {
    assert ResultsAll(n, e, [s][1..]) == [];
  }

  lemma OptionalResultsOfOne(body: Node, left: Option<nat>, greedy: bool, zero: Span, e: Env, s: State)
    requires s.pos <= |e.hay|
    ensures OptionalResultsAll(body, left, greedy, zero, e, [s]) == OptionalResults(body, left, greedy, zero, e, s)
  {
    assert OptionalResultsAll(body, left, greedy, zero, e, [s][1..]) == [];
  }

  /** The matches of a pattern from a state: its results, with group 0 around them. */
  function Matches(n: Node, e: Env, s: State): (rs: seq<State>)
    requires s.pos <= |e.hay|
    ensures AllOnward(e, s, rs)
  {
    Results(Group(Some(0), n), e, s)
  }
}
