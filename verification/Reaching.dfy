/** Runs through a stretch of code, as relations between the states that enter it and those that leave it. */
module Reaching {
  import opened Options
  import opened CharSets
  import opened Syntax
  import opened Denotation
  import opened Machine

  /** The states `ss` about to run at `pc`. */
  function Threads(pc: nat, ss: seq<State>, regs: seq<nat>): (cs: seq<Config>)
    ensures |cs| == |ss| && forall i :: 0 <= i < |ss| ==> cs[i] == Config(pc, ss[i], regs)
  {
    seq(|ss|, i requires 0 <= i < |ss| => Config(pc, ss[i], regs))
  }

  /** Where an iteration begun at `pos` goes on: an empty one that is checked leaves for `exit`. */
  function After(checked: bool, exit: nat, next: nat, pos: nat, r: State): nat {
    if checked && r.pos == pos then exit else next
  }

  function AfterAll(checked: bool, exit: nat, next: nat, pos: nat, rs: seq<State>, regs: seq<nat>)
    : (cs: seq<Config>)
    ensures |cs| == |rs|
    ensures forall i :: 0 <= i < |rs| ==> cs[i] == Config(After(checked, exit, next, pos, rs[i]), rs[i], regs)
  {
    seq(|rs|, i requires 0 <= i < |rs| => Config(After(checked, exit, next, pos, rs[i]), rs[i], regs))
  }

  /** A state entering at `a` leaves at `b` as the states `rs`, in that order. */
  ghost predicate Reach(p: Code, e: Env, regs: seq<nat>, a: nat, s: State, b: nat, rs: seq<State>) {
    Leads(p, e, [Config(a, s, regs)], Threads(b, rs, regs))
  }

  ghost predicate ReachAll(p: Code, e: Env, regs: seq<nat>, a: nat, ss: seq<State>, b: nat, rs: seq<State>) {
    Leads(p, e, Threads(a, ss, regs), Threads(b, rs, regs))
  }

  /** The results `ss` of an iteration begun at `pos` lead to `rs` at `b`. */
  ghost predicate ReachAfter(p: Code, e: Env, regs: seq<nat>, checked: bool, exit: nat, next: nat, pos: nat,
                             ss: seq<State>, b: nat, rs: seq<State>) {
    Leads(p, e, AfterAll(checked, exit, next, pos, ss, regs), Threads(b, rs, regs))
  }

  lemma ThreadsOfOne(pc: nat, s: State, regs: seq<nat>)
    ensures Threads(pc, [s], regs) == [Config(pc, s, regs)]
  {
  }

  lemma ThreadsAppend(pc: nat, ss: seq<State>, ts: seq<State>, regs: seq<nat>)
    ensures Threads(pc, ss + ts, regs) == Threads(pc, ss, regs) + Threads(pc, ts, regs)
  {
  }

  lemma ReachHere(p: Code, e: Env, regs: seq<nat>, a: nat, s: State)
    requires s.pos <= |e.hay|
    ensures Reach(p, e, regs, a, s, a, [s])
  {
    ThreadsOfOne(a, s, regs);
    LeadsSelf(p, e, [Config(a, s, regs)]);
  }

  lemma ReachAllHere(p: Code, e: Env, regs: seq<nat>, a: nat, ss: seq<State>)
    requires AllWithin(e, ss)
    ensures ReachAll(p, e, regs, a, ss, a, ss)
  {
    LeadsSelf(p, e, Threads(a, ss, regs));
  }

  lemma ReachNone(p: Code, e: Env, regs: seq<nat>, a: nat, b: nat)
    ensures ReachAll(p, e, regs, a, [], b, [])
  {
    LeadsSelf(p, e, []);
    assert Threads(a, [], regs) == [] && Threads(b, [], regs) == [];
  }

  lemma ReachOne(p: Code, e: Env, regs: seq<nat>, a: nat, s: State, b: nat, rs: seq<State>)
    requires ReachAll(p, e, regs, a, [s], b, rs)
    ensures Reach(p, e, regs, a, s, b, rs)
  {
    ThreadsOfOne(a, s, regs);
  }

  /** One instruction with a single continuation, and then the rest. */
  lemma ReachStep(p: Code, e: Env, regs: seq<nat>, a: nat, s: State, a': nat, s': State, b: nat, rs: seq<State>)
    requires s.pos <= |e.hay| && !AtMatch(p, Config(a, s, regs))
    requires Next(p, e, Config(a, s, regs)) == [Config(a', s', regs)]
    requires Reach(p, e, regs, a', s', b, rs)
    ensures Reach(p, e, regs, a, s, b, rs)
  {
    hide Leads, Next, Run;
    LeadsStep(p, e, Config(a, s, regs));
    LeadsTrans(p, e, [Config(a, s, regs)], [Config(a', s', regs)], Threads(b, rs, regs));
  }

  /** An instruction without a choice that only tests or records. */
  lemma ReachBy(p: Code, e: Env, regs: seq<nat>, a: nat, s: State, rs: seq<State>)
    requires s.pos <= |e.hay| && !AtMatch(p, Config(a, s, regs))
    requires Next(p, e, Config(a, s, regs)) == Threads(a + 1, rs, regs)
    ensures Reach(p, e, regs, a, s, a + 1, rs)
  {
    hide Leads, Next, Run;
    LeadsStep(p, e, Config(a, s, regs));
  }

  lemma ReachSplit(p: Code, e: Env, regs: seq<nat>, a: nat, s: State, c1: nat, c2: nat, b: nat,
                   rs1: seq<State>, rs2: seq<State>)
    requires s.pos <= |e.hay| && a < |p| && p[a] == Split(c1, c2)
    requires Reach(p, e, regs, c1, s, b, rs1) && Reach(p, e, regs, c2, s, b, rs2)
    ensures Reach(p, e, regs, a, s, b, rs1 + rs2)
  {
    var c, d1, d2 := Config(a, s, regs), Config(c1, s, regs), Config(c2, s, regs);
    LeadsStep(p, e, c);
    LeadsAppend(p, e, [d1], Threads(b, rs1, regs), [d2], Threads(b, rs2, regs));
    assert [d1] + [d2] == [d1, d2];
    ThreadsAppend(b, rs1, rs2, regs);
    LeadsTrans(p, e, [c], [d1, d2], Threads(b, rs1 + rs2, regs));
  }

  lemma ReachThen(p: Code, e: Env, regs: seq<nat>, a: nat, s: State, m: nat, ms: seq<State>, b: nat, rs: seq<State>)
    requires Reach(p, e, regs, a, s, m, ms) && ReachAll(p, e, regs, m, ms, b, rs)
    ensures Reach(p, e, regs, a, s, b, rs)
  {
    hide Leads, Next, Run;
    LeadsTrans(p, e, [Config(a, s, regs)], Threads(m, ms, regs), Threads(b, rs, regs));
  }

  lemma ReachAllThen(p: Code, e: Env, regs: seq<nat>, a: nat, ss: seq<State>, m: nat, ms: seq<State>, b: nat,
                     rs: seq<State>)
    requires ReachAll(p, e, regs, a, ss, m, ms) && ReachAll(p, e, regs, m, ms, b, rs)
    ensures ReachAll(p, e, regs, a, ss, b, rs)
  {
    hide Leads, Next, Run;
    LeadsTrans(p, e, Threads(a, ss, regs), Threads(m, ms, regs), Threads(b, rs, regs));
  }

  /** The first state's results, then those of the rest. */
  lemma ReachCons(p: Code, e: Env, regs: seq<nat>, a: nat, ss: seq<State>, b: nat, first: seq<State>, rest: seq<State>)
    requires ss != []
    requires Reach(p, e, regs, a, ss[0], b, first) && ReachAll(p, e, regs, a, ss[1..], b, rest)
    ensures ReachAll(p, e, regs, a, ss, b, first + rest)
  {
    hide Leads, Next, Run;
    LeadsAppend(p, e, [Config(a, ss[0], regs)], Threads(b, first, regs), Threads(a, ss[1..], regs), Threads(b, rest, regs));
    ThreadsAppend(b, first, rest, regs);
    assert [Config(a, ss[0], regs)] + Threads(a, ss[1..], regs) == Threads(a, ss, regs);
  }

  /** Each state steps to one state. */
  lemma ReachEach(p: Code, e: Env, regs: seq<nat>, a: nat, ss: seq<State>, b: nat, rs: seq<State>)
    requires a < |p| && !p[a].Match? && |ss| == |rs|
    requires forall i :: 0 <= i < |ss| ==> Next(p, e, Config(a, ss[i], regs)) == [Config(b, rs[i], regs)]
    ensures ReachAll(p, e, regs, a, ss, b, rs)
  {
    hide Leads, Next, Run;
    var cs, ds := Threads(a, ss, regs), Threads(b, rs, regs);
    forall i | 0 <= i < |ss| ensures Leads(p, e, [cs[i]], [ds[i]]) {
      LeadsStep(p, e, cs[i]);
    }
    LeadsEach(p, e, cs, ds);
  }

  lemma JumpAll(p: Code, e: Env, regs: seq<nat>, a: nat, ss: seq<State>, b: nat)
    requires AllWithin(e, ss) && a < |p| && p[a] == Jmp(b)
    ensures ReachAll(p, e, regs, a, ss, b, ss)
  {
    ReachEach(p, e, regs, a, ss, b, ss);
  }

  lemma SaveAll(p: Code, e: Env, regs: seq<nat>, a: nat, ss: seq<State>, k: nat)
    requires AllWithin(e, ss) && a < |p| && p[a] == Save(k)
    ensures ReachAll(p, e, regs, a, ss, a + 1, Closed(ss, k))
  {
    ReachEach(p, e, regs, a, ss, a + 1, Closed(ss, k));
  }

  lemma ReachAfterNone(p: Code, e: Env, regs: seq<nat>, checked: bool, exit: nat, next: nat, pos: nat, b: nat)
    ensures ReachAfter(p, e, regs, checked, exit, next, pos, [], b, [])
  {
    LeadsSelf(p, e, []);
    assert AfterAll(checked, exit, next, pos, [], regs) == [] && Threads(b, [], regs) == [];
  }

  lemma ReachAfterCons(p: Code, e: Env, regs: seq<nat>, checked: bool, exit: nat, next: nat, pos: nat, ss: seq<State>,
                       b: nat, first: seq<State>, rest: seq<State>)
    requires ss != [] && Reach(p, e, regs, After(checked, exit, next, pos, ss[0]), ss[0], b, first)
    requires ReachAfter(p, e, regs, checked, exit, next, pos, ss[1..], b, rest)
    ensures ReachAfter(p, e, regs, checked, exit, next, pos, ss, b, first + rest)
  {
    hide Leads, Next, Run;
    var c := Config(After(checked, exit, next, pos, ss[0]), ss[0], regs);
    var cs := AfterAll(checked, exit, next, pos, ss[1..], regs);
    LeadsAppend(p, e, [c], Threads(b, first, regs), cs, Threads(b, rest, regs));
    ThreadsAppend(b, first, rest, regs);
    assert [c] + cs == AfterAll(checked, exit, next, pos, ss, regs);
  }

  /** An unchecked iteration: whatever its results, they go on at the same place. */
  lemma ReachUnchecked(p: Code, e: Env, regs: seq<nat>, a: nat, s: State, m: nat, ms: seq<State>, exit: nat, b: nat,
                       rs: seq<State>)
    requires Reach(p, e, regs, a, s, m, ms) && ReachAfter(p, e, regs, false, exit, m, s.pos, ms, b, rs)
    ensures Reach(p, e, regs, a, s, b, rs)
  {
    hide Leads, Next, Run;
    assert AfterAll(false, exit, m, s.pos, ms, regs) == Threads(m, ms, regs);
    LeadsTrans(p, e, [Config(a, s, regs)], Threads(m, ms, regs), Threads(b, rs, regs));
  }

  /** A checked iteration: the register holds where it began, and is dropped at the check. */
  lemma ReachChecked(p: Code, e: Env, regs: seq<nat>, a: nat, s: State, m: nat, ms: seq<State>, exit: nat, b: nat,
                     rs: seq<State>)
    requires s.pos <= |e.hay| && a < |p| && p[a] == ProgressStart(|regs|)
    requires AllWithin(e, ms) && m < |p| && p[m] == ProgressCheck(|regs|, exit)
    requires Reach(p, e, regs + [s.pos], a + 1, s, m, ms)
    requires ReachAfter(p, e, regs, true, exit, m + 1, s.pos, ms, b, rs)
    ensures Reach(p, e, regs, a, s, b, rs)
  {
    var regs' := regs + [s.pos];
    assert regs[..|regs|] == regs;
    var c, c' := Config(a, s, regs), Config(a + 1, s, regs');
    LeadsStep(p, e, c);
    LeadsTrans(p, e, [c], [c'], Threads(m, ms, regs'));
    ChecksAll(p, e, regs, m, exit, s.pos, ms);
    LeadsTrans(p, e, [c], Threads(m, ms, regs'), AfterAll(true, exit, m + 1, s.pos, ms, regs));
    LeadsTrans(p, e, [c], AfterAll(true, exit, m + 1, s.pos, ms, regs), Threads(b, rs, regs));
  }

  lemma CheckOne(p: Code, e: Env, regs: seq<nat>, m: nat, exit: nat, pos: nat, s: State)
    requires s.pos <= |e.hay| && m < |p| && p[m] == ProgressCheck(|regs|, exit)
    ensures Leads(p, e, [Config(m, s, regs + [pos])], [Config(After(true, exit, m + 1, pos, s), s, regs)])
  {
    assert (regs + [pos])[..|regs|] == regs;
    LeadsStep(p, e, Config(m, s, regs + [pos]));
  }

  lemma ChecksAll(p: Code, e: Env, regs: seq<nat>, m: nat, exit: nat, pos: nat, ss: seq<State>)
    requires AllWithin(e, ss) && m < |p| && p[m] == ProgressCheck(|regs|, exit)
    ensures Leads(p, e, Threads(m, ss, regs + [pos]), AfterAll(true, exit, m + 1, pos, ss, regs))
  {
    hide Leads, Next, Run;
    var cs, ds := Threads(m, ss, regs + [pos]), AfterAll(true, exit, m + 1, pos, ss, regs);
    forall i | 0 <= i < |ss| ensures Leads(p, e, [cs[i]], [ds[i]]) {
      CheckOne(p, e, regs, m, exit, pos, ss[i]);
    }
    LeadsEach(p, e, cs, ds);
  }

  /** Threads that each lead to one thread lead together to the list of those. */
  lemma {:induction false} LeadsEach(p: Code, e: Env, cs: seq<Config>, ds: seq<Config>)
    requires |cs| == |ds| && forall i :: 0 <= i < |cs| ==> Leads(p, e, [cs[i]], [ds[i]])
    ensures Leads(p, e, cs, ds)
    decreases |cs|
  {
    hide Leads, Next, Run;
    if cs == [] {
      LeadsSelf(p, e, cs);
    } else {
      LeadsEach(p, e, cs[1..], ds[1..]);
      LeadsAppend(p, e, [cs[0]], [ds[0]], cs[1..], ds[1..]);
      assert [cs[0]] + cs[1..] == cs && [ds[0]] + ds[1..] == ds;
    }
  }
}
