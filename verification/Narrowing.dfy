/**
 * Why a search may track fewer slots than its program has: without back-references, a run reads no slot, so the
 * matches that track the first `w` slots are the matches cut to those.
 */
module Narrowing {
  import opened Options
  import opened Syntax
  import opened Denotation
  import opened Machine
  import opened Futures

  function Narrow(s: State, w: nat): State {
    State(s.pos, s.slots[..Least(w, |s.slots|)])
  }

  function NarrowAll(ss: seq<State>, w: nat): (r: seq<State>)
    ensures |r| == |ss| && forall i :: 0 <= i < |ss| ==> r[i] == Narrow(ss[i], w)
  {
    seq(|ss|, i requires 0 <= i < |ss| => Narrow(ss[i], w))
  }

  function NarrowRun(r: Option<seq<State>>, w: nat): Option<seq<State>> {
    if r.Some? then Some(NarrowAll(r.value, w)) else None
  }

  function NarrowThread(c: Config, w: nat): Config {
    c.(s := Narrow(c.s, w))
  }

  function NarrowThreads(cs: seq<Config>, w: nat): (r: seq<Config>)
    ensures |r| == |cs| && forall i :: 0 <= i < |cs| ==> r[i] == NarrowThread(cs[i], w)
  {
    seq(|cs|, i requires 0 <= i < |cs| => NarrowThread(cs[i], w))
  }

  lemma NarrowSaved(s: State, k: nat, w: nat)
    ensures Narrow(Saved(s, k), w) == Saved(Narrow(s, w), k)
  {
    assert Narrow(Saved(s, k), w).slots == Saved(Narrow(s, w), k).slots;
  }

  lemma NarrowSkipped(s: State, zero: Span, w: nat)
    ensures Narrow(Skipped(s, zero), w) == Skipped(Narrow(s, w), zero)
  {
    assert Narrow(Skipped(s, zero), w).slots == Skipped(Narrow(s, w), zero).slots;
  }

  lemma NextNarrow(p: Code, e: Env, c: Config, w: nat)
    requires NoBackrefs(p)
    ensures Next(p, e, NarrowThread(c, w)) == NarrowThreads(Next(p, e, c), w)
  {
    hide Saved, Cleared, AtLineStart, AtLineEnd, ClassMatches;
    if c.pc < |p| {
      match p[c.pc]
      case Save(k) => NarrowSaved(c.s, k, w);
      case ClearGroups(lo, hi) => NarrowSkipped(c.s, Some((lo, hi)), w);
      case _ =>
    }
  }

  lemma {:induction false} RunOneNarrow(p: Code, e: Env, k: nat, c: Config, w: nat)
    requires NoBackrefs(p)
    ensures RunOne(p, e, k, NarrowThread(c, w)) == NarrowRun(RunOne(p, e, k, c), w)
    decreases k, 0
  {
    hide Next;
    assert NarrowAll([c.s], w) == [Narrow(c.s, w)];
    if k > 0 && !AtMatch(p, c) {
      NextNarrow(p, e, c, w);
      RunNarrow(p, e, k - 1, Next(p, e, c), w);
    }
  }

  lemma {:induction false} RunNarrow(p: Code, e: Env, k: nat, cs: seq<Config>, w: nat)
    requires NoBackrefs(p)
    ensures Run(p, e, k, NarrowThreads(cs, w)) == NarrowRun(Run(p, e, k, cs), w)
    decreases k, 1 + |cs|
  {
    hide Next, RunOne;
    if cs != [] {
      RunOneNarrow(p, e, k, cs[0], w);
      assert NarrowThreads(cs, w)[1..] == NarrowThreads(cs[1..], w);
      RunNarrow(p, e, k, cs[1..], w);
      NarrowBoth(RunOne(p, e, k, cs[0]), Run(p, e, k, cs[1..]), w);
    }
  }

  lemma NarrowBoth(a: Option<seq<State>>, b: Option<seq<State>>, w: nat)
    ensures NarrowRun(Both(a, b), w) == Both(NarrowRun(a, w), NarrowRun(b, w))
  {
    if a.Some? && b.Some? {
      assert NarrowAll(a.value + b.value, w) == NarrowAll(a.value, w) + NarrowAll(b.value, w);
    }
  }

  lemma YieldsNarrow(p: Code, e: Env, c: Config, rs: seq<State>, w: nat)
    requires NoBackrefs(p) && Yields(p, e, [c], rs)
    ensures Yields(p, e, [NarrowThread(c, w)], NarrowAll(rs, w))
  {
    hide Run;
    var k: nat :| Run(p, e, k, [c]) == Some(rs);
    RunNarrow(p, e, k, [c], w);
    assert NarrowThreads([c], w) == [NarrowThread(c, w)];
  }
}
