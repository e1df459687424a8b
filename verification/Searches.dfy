/** What a search is asked for: the leftmost match at or after a position, from the matches at each. */
module Searches {
  import opened Options
  import opened Denotation
  import opened Machine
  import opened Scan

  /** A new thread at position `q`, tracking `width` slots. */
  function Start(q: nat, width: nat): Config {
    Config(0, State(q, seq(width, _ => None)), [])
  }

  /** `ms[q]` are the matches of `p` from each position `q` of the text, in order. */
  ghost predicate AllYield(p: Code, e: Env, width: nat, ms: seq<seq<State>>) {
    && |ms| == |e.hay| + 1
    && (forall q :: 0 <= q < |ms| ==> Yields(p, e, [Start(q, width)], ms[q]))
    && (forall q, i :: 0 <= q < |ms| && 0 <= i < |ms[q]| ==> |ms[q][i].slots| == width)
  }

  /** The matches are the program's own: whatever searches for them, in whatever way, searches for the same. */
  lemma OnlyOneYield(p: Code, e: Env, width: nat, ms: seq<seq<State>>, ns: seq<seq<State>>)
    requires AllYield(p, e, width, ms) && AllYield(p, e, width, ns)
    ensures ms == ns
  {
    hide Run;
    forall q | 0 <= q < |ms| ensures ms[q] == ns[q] {
      YieldsOnce(p, e, [Start(q, width)], ms[q], ns[q]);
    }
  }

  /** The preferred match of the leftmost position from `start` on that has one. */
  function Leftmost(ms: seq<seq<State>>, start: nat): Option<State>
    decreases |ms| - start
  {
    if start >= |ms| then None
    else if ms[start] != [] then Some(ms[start][0])
    else Leftmost(ms, start + 1)
  }

  /** What the prefilter knows of the matches: the literal they begin with, and that none is past `start`. */
  ghost predicate Filtered(e: Env, ms: seq<seq<State>>, start: nat, prefix: string, anchored: bool) {
    && |ms| == |e.hay| + 1
    && (forall q :: start <= q < |ms| && ms[q] != [] ==> OccursAt(e.hay, q, prefix))
    && (anchored ==> forall q :: start < q < |ms| ==> ms[q] == [])
  }

  lemma {:induction false} LeftmostSkips(ms: seq<seq<State>>, from: nat, to: nat)
    requires from <= to <= |ms| && forall q :: from <= q < to ==> ms[q] == []
    ensures Leftmost(ms, from) == Leftmost(ms, to)
    decreases |ms| - from
  {
    if from < to {
      LeftmostSkips(ms, from + 1, to);
    }
  }
}
