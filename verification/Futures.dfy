/**
 * Why a PikeVM may tell threads apart by an instruction and a count alone: without back-references, whether a
 * thread finds a match depends on nothing else at a given position.
 */
module Futures {
  import opened Options
  import opened CharSets
  import opened Denotation
  import opened Machine
  import opened Nesting

  predicate NoBackrefs(p: Code) {
    forall i :: 0 <= i < |p| ==> !p[i].Backref?
  }

  /** Iterations begin in order: an inner one no earlier than the outer one, and none past the position. */
  ghost predicate Ordered(regs: seq<nat>, pos: nat) {
    && (forall i, j :: 0 <= i < j < |regs| ==> regs[i] <= regs[j])
    && (forall i :: 0 <= i < |regs| ==> regs[i] <= pos)
  }

  /** A thread of a nested program: its live registers are those of its depth, in order. */
  ghost predicate Sound(p: Code, c: Config) {
    c.pc < |p| && |c.regs| == Live(p, c.pc) && Ordered(c.regs, c.s.pos)
  }

  /** The number of innermost live iterations that began at this position. */
  function Begun(regs: seq<nat>, pos: nat): (s: nat)
    ensures s <= |regs|
  {
    if regs == [] || regs[|regs| - 1] != pos then 0 else 1 + Begun(regs[..|regs| - 1], pos)
  }

  /**
   * The progress flags, whether each live iteration began at this position, read false, ..., false, true, ...,
   * true from the outermost inward: the count says all of them.
   */
  lemma {:induction false} FlagsReadInOrder(regs: seq<nat>, pos: nat, i: nat)
    requires Ordered(regs, pos) && i < |regs|
    ensures regs[i] == pos <==> i >= |regs| - Begun(regs, pos)
    decreases |regs|
  {
    var n := |regs| - 1;
    if regs[n] == pos && i < n {
      FlagsReadInOrder(regs[..n], pos, i);
    }
  }

  /** What a PikeVM tells threads at one position apart by: for one that waits, the instruction alone. */
  function Key(p: Code, c: Config): (nat, nat)
    requires c.pc < |p|
  {
    (c.pc, if p[c.pc].Class? || p[c.pc].Match? then 0 else Begun(c.regs, c.s.pos))
  }

  /** Each thread's successors, told apart by their keys and positions, are functions of its own. */
  ghost predicate Alike(p: Code, c: Config, d: Config) {
    Sound(p, c) && Sound(p, d) && c.s.pos == d.s.pos && Key(p, c) == Key(p, d)
  }

  ghost predicate AllAlike(p: Code, cs: seq<Config>, ds: seq<Config>) {
    |cs| == |ds| && forall i :: 0 <= i < |cs| ==> Alike(p, cs[i], ds[i])
  }

  lemma BegunLater(regs: seq<nat>, pos: nat)
    requires Ordered(regs, pos)
    ensures Ordered(regs, pos + 1) && Begun(regs, pos + 1) == 0
  {
  }

  /** A successor of a thread is sound, and none is left of a thread outside the text. */
  lemma NextIsSound(p: Code, e: Env, c: Config)
    requires Nested(p) && NoBackrefs(p) && Sound(p, c)
    ensures forall i :: 0 <= i < |Next(p, e, c)| ==> Sound(p, Next(p, e, c)[i])
  {
    assert InstNested(p, c.pc);
    match p[c.pc]
    case Class(_) =>
      LiveNext(p, c.pc);
      BegunLater(c.regs, c.s.pos);
    case Save(_) => LiveNext(p, c.pc);
    case Bol => LiveNext(p, c.pc);
    case Eol => LiveNext(p, c.pc);
    case ClearGroups(_, _) => LiveNext(p, c.pc);
    case _ =>
  }

  /** How many iterations a successor at the same position has begun there. */
  lemma BegunNext(p: Code, e: Env, c: Config)
    requires Nested(p) && NoBackrefs(p) && Sound(p, c) && !p[c.pc].Class? && !p[c.pc].Match?
    ensures var s := Begun(c.regs, c.s.pos);
            forall i :: 0 <= i < |Next(p, e, c)| ==>
              var d := Next(p, e, c)[i];
              && d.s.pos == c.s.pos
              && Begun(d.regs, d.s.pos) == (match p[c.pc]
                   case ProgressStart(_) => s + 1
                   case ProgressCheck(_, _) => if s > 0 then s - 1 else 0
                   case _ => s)
              && (p[c.pc].ProgressCheck? ==> d.pc == if s > 0 then p[c.pc].exit else c.pc + 1)
  {
    assert InstNested(p, c.pc);
    match p[c.pc]
    case ProgressStart(r) =>
      assert c.regs[..r] == c.regs;
      assert (c.regs + [c.s.pos])[..|c.regs|] == c.regs;
    case ProgressCheck(r, exit) =>
      FlagsReadInOrder(c.regs, c.s.pos, r);
      if Begun(c.regs, c.s.pos) == 0 && r > 0 {
        assert c.regs[r - 1] <= c.regs[r];
      }
    case _ =>
  }

  lemma NextIsAlike(p: Code, e: Env, c: Config, d: Config)
    requires Nested(p) && NoBackrefs(p) && Alike(p, c, d)
    ensures AllAlike(p, Next(p, e, c), Next(p, e, d))
  {
    hide Begun, Live, Ordered, AtLineStart, AtLineEnd, ClassMatches, Cleared, InstNested, Nested;
    NextIsSound(p, e, c);
    NextIsSound(p, e, d);
    if p[c.pc].Class? {
      BegunLater(c.regs, c.s.pos);
      BegunLater(d.regs, d.s.pos);
    } else if !p[c.pc].Match? {
      BegunNext(p, e, c);
      BegunNext(p, e, d);
    }
  }

  /** Threads with the same key at the same position have the same future: they end together, with as many matches. */
  lemma {:induction false} SameFuture(p: Code, e: Env, k: nat, c: Config, d: Config)
    requires Nested(p) && NoBackrefs(p) && Alike(p, c, d)
    ensures RunOne(p, e, k, c).Some? <==> RunOne(p, e, k, d).Some?
    ensures RunOne(p, e, k, c).Some? ==> |RunOne(p, e, k, c).value| == |RunOne(p, e, k, d).value|
    decreases k, 0
  {
    if k > 0 && !AtMatch(p, c) {
      NextIsAlike(p, e, c, d);
      SameFutures(p, e, k - 1, Next(p, e, c), Next(p, e, d));
    }
  }

  lemma {:induction false} SameFutures(p: Code, e: Env, k: nat, cs: seq<Config>, ds: seq<Config>)
    requires Nested(p) && NoBackrefs(p) && AllAlike(p, cs, ds)
    ensures Run(p, e, k, cs).Some? <==> Run(p, e, k, ds).Some?
    ensures Run(p, e, k, cs).Some? ==> |Run(p, e, k, cs).value| == |Run(p, e, k, ds).value|
    decreases k, 1 + |cs|
  {
    hide Next, RunOne;
    if cs != [] {
      SameFuture(p, e, k, cs[0], ds[0]);
      SameFutures(p, e, k, cs[1..], ds[1..]);
    }
  }
}
