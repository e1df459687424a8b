/** Programs, and the ordered run both matchers are measured against. */
module Machine {
  import opened Options
  import opened CharSets
  import opened Denotation

  datatype Inst =
    | Class(chars: CharSet)
    | Split(first: nat, second: nat)
    | Jmp(target: nat)
    | Save(slot: nat)
    | Bol
    | Eol
    | Backref(nr: nat)
    | ProgressStart(reg: nat)
    | ProgressCheck(reg: nat, exit: nat)
    | ClearGroups(lo: nat, hi: nat)
    | Match

  type Code = seq<Inst>

  /** A thread of a run. Its live progress registers are a stack, the innermost iteration's start last. */
  datatype Config = Config(pc: nat, s: State, regs: seq<nat>)

  predicate AtMatch(p: Code, c: Config) {
    c.pc < |p| && p[c.pc].Match?
  }

  /** The threads that take over from `c`, the preferred one first. */
  function Next(p: Code, e: Env, c: Config): (cs: seq<Config>)
    ensures |cs| <= 2
  {
    if c.pc >= |p| || c.s.pos > |e.hay| then [] else
      match p[c.pc]
      case Class(chars) =>
        if ClassMatches(e, chars, c.s.pos) then [Config(c.pc + 1, c.s.(pos := c.s.pos + 1), c.regs)] else []
      case Split(a, b) => [c.(pc := a), c.(pc := b)]
      case Jmp(t) => [c.(pc := t)]
      case Save(k) => [Config(c.pc + 1, Saved(c.s, k), c.regs)]
      case Bol => if AtLineStart(e, c.s.pos) then [c.(pc := c.pc + 1)] else []
      case Eol => if AtLineEnd(e, c.s.pos) then [c.(pc := c.pc + 1)] else []
      case Backref(nr) =>
        var end := BackrefTarget(e, c.s, nr);
        if end.Some? then [Config(c.pc + 1, c.s.(pos := end.value), c.regs)] else []
      case ProgressStart(r) =>
        if r <= |c.regs| then [Config(c.pc + 1, c.s, c.regs[..r] + [c.s.pos])] else []
      case ProgressCheck(r, exit) =>
        if r < |c.regs| then [Config(if c.regs[r] == c.s.pos then exit else c.pc + 1, c.s, c.regs[..r])] else []
      case ClearGroups(lo, hi) => [Config(c.pc + 1, Skipped(c.s, Some((lo, hi))), c.regs)]
      case Match => []
  }

  function Both(a: Option<seq<State>>, b: Option<seq<State>>): Option<seq<State>> {
    if a.Some? && b.Some? then Some(a.value + b.value) else None
  }

  /** The matches a thread finds, depth first and in order, if it ends within `k` steps. */
  function RunOne(p: Code, e: Env, k: nat, c: Config): Option<seq<State>>
    decreases k, 0
  {
    if AtMatch(p, c) then Some([c.s])
    else if k == 0 then None
    else Run(p, e, k - 1, Next(p, e, c))
  }

  /** The matches of each thread in turn. */
  function Run(p: Code, e: Env, k: nat, cs: seq<Config>): Option<seq<State>>
    decreases k, 1 + |cs|
  {
    if cs == [] then Some([]) else Both(RunOne(p, e, k, cs[0]), Run(p, e, k, cs[1..]))
  }

  /** The run from `cs` ends, and its matches in order are `rs`. */
  ghost predicate Yields(p: Code, e: Env, cs: seq<Config>, rs: seq<State>) {
    exists k: nat :: Run(p, e, k, cs) == Some(rs)
  }

  lemma {:induction false} RunOneLonger(p: Code, e: Env, k: nat, m: nat, c: Config)
    requires k <= m && RunOne(p, e, k, c).Some?
    ensures RunOne(p, e, m, c) == RunOne(p, e, k, c)
    decreases k, 0
  {
    if !AtMatch(p, c) {
      RunLonger(p, e, k - 1, m - 1, Next(p, e, c));
    }
  }

  lemma {:induction false} RunLonger(p: Code, e: Env, k: nat, m: nat, cs: seq<Config>)
    requires k <= m && Run(p, e, k, cs).Some?
    ensures Run(p, e, m, cs) == Run(p, e, k, cs)
    decreases k, 1 + |cs|
  {
    hide Next, RunOne;
    if cs != [] {
      RunOneLonger(p, e, k, m, cs[0]);
      RunLonger(p, e, k, m, cs[1..]);
    }
  }

  lemma BothAssoc(a: Option<seq<State>>, b: Option<seq<State>>, c: Option<seq<State>>)
    ensures Both(a, Both(b, c)) == Both(Both(a, b), c)
  {
    if a.Some? && b.Some? && c.Some? {
      assert a.value + (b.value + c.value) == (a.value + b.value) + c.value;
    }
  }

  lemma BothNothing(a: Option<seq<State>>)
    ensures Both(a, Some([])) == a && Both(Some([]), a) == a
  {
    if a.Some? {
      assert a.value + [] == a.value && [] + a.value == a.value;
    }
  }

  lemma {:induction false} RunAppend(p: Code, e: Env, k: nat, cs: seq<Config>, ds: seq<Config>)
    ensures Run(p, e, k, cs + ds) == Both(Run(p, e, k, cs), Run(p, e, k, ds))
    decreases |cs|
  {
    hide Next, RunOne, Both;
    if cs == [] {
      assert cs + ds == ds;
      BothNothing(Run(p, e, k, ds));
    } else {
      assert (cs + ds)[1..] == cs[1..] + ds;
      RunAppend(p, e, k, cs[1..], ds);
      BothAssoc(RunOne(p, e, k, cs[0]), Run(p, e, k, cs[1..]), Run(p, e, k, ds));
    }
  }

  lemma RunSingle(p: Code, e: Env, k: nat, c: Config)
    ensures Run(p, e, k, [c]) == RunOne(p, e, k, c)
  {
    assert [c][1..] == [];
    BothNothing(RunOne(p, e, k, c));
  }

  lemma YieldsOnce(p: Code, e: Env, cs: seq<Config>, rs: seq<State>, ts: seq<State>)
    requires Yields(p, e, cs, rs) && Yields(p, e, cs, ts)
    ensures rs == ts
  {
    var k: nat :| Run(p, e, k, cs) == Some(rs);
    var m: nat :| Run(p, e, m, cs) == Some(ts);
    if k <= m {
      RunLonger(p, e, k, m, cs);
    } else {
      RunLonger(p, e, m, k, cs);
    }
  }

  // ----- one list of threads leads to another -----

  /** Whatever the threads `ds` find within `k` steps, the threads `cs` find within `d` more, in the same order. */
  ghost predicate LeadsWithin(p: Code, e: Env, cs: seq<Config>, ds: seq<Config>, d: nat) {
    forall k: nat :: Run(p, e, k, ds).Some? ==> Run(p, e, k + d, cs) == Run(p, e, k, ds)
  }

  ghost predicate Leads(p: Code, e: Env, cs: seq<Config>, ds: seq<Config>) {
    exists d: nat :: LeadsWithin(p, e, cs, ds, d)
  }

  lemma LeadsSelf(p: Code, e: Env, cs: seq<Config>)
    ensures Leads(p, e, cs, cs)
  {
    assert LeadsWithin(p, e, cs, cs, 0);
  }

  lemma LeadsStep(p: Code, e: Env, c: Config)
    requires !AtMatch(p, c)
    ensures Leads(p, e, [c], Next(p, e, c))
  {
    hide Next, Run;
    var ds := Next(p, e, c);
    forall k: nat | Run(p, e, k, ds).Some? ensures Run(p, e, k + 1, [c]) == Run(p, e, k, ds) {
      RunSingle(p, e, k + 1, c);
    }
    assert LeadsWithin(p, e, [c], ds, 1);
  }

  lemma LeadsTrans(p: Code, e: Env, bs: seq<Config>, cs: seq<Config>, ds: seq<Config>)
    requires Leads(p, e, bs, cs) && Leads(p, e, cs, ds)
    ensures Leads(p, e, bs, ds)
  {
    hide Next, Run;
    var m: nat :| LeadsWithin(p, e, bs, cs, m);
    var n: nat :| LeadsWithin(p, e, cs, ds, n);
    forall k: nat | Run(p, e, k, ds).Some? ensures Run(p, e, k + (n + m), bs) == Run(p, e, k, ds) {
      assert Run(p, e, k + n, cs) == Run(p, e, k, ds);
      assert Run(p, e, (k + n) + m, bs) == Run(p, e, k + n, cs);
    }
    assert LeadsWithin(p, e, bs, ds, n + m);
  }

  lemma LeadsAppend(p: Code, e: Env, bs: seq<Config>, bs': seq<Config>, cs: seq<Config>, cs': seq<Config>)
    requires Leads(p, e, bs, bs') && Leads(p, e, cs, cs')
    ensures Leads(p, e, bs + cs, bs' + cs')
  {
    hide Next, Run;
    var m: nat :| LeadsWithin(p, e, bs, bs', m);
    var n: nat :| LeadsWithin(p, e, cs, cs', n);
    LeadsLonger(p, e, bs, bs', m, m + n);
    LeadsLonger(p, e, cs, cs', n, m + n);
    forall k: nat | Run(p, e, k, bs' + cs').Some?
      ensures Run(p, e, k + (m + n), bs + cs) == Run(p, e, k, bs' + cs')
    {
      RunAppend(p, e, k, bs', cs');
      RunAppend(p, e, k + (m + n), bs, cs);
    }
    assert LeadsWithin(p, e, bs + cs, bs' + cs', m + n);
  }

  lemma LeadsLonger(p: Code, e: Env, cs: seq<Config>, ds: seq<Config>, d: nat, more: nat)
    requires LeadsWithin(p, e, cs, ds, d) && d <= more
    ensures LeadsWithin(p, e, cs, ds, more)
  {
    hide Next, Run;
    forall k: nat | Run(p, e, k, ds).Some? ensures Run(p, e, k + more, cs) == Run(p, e, k, ds) {
      assert Run(p, e, k + d, cs) == Run(p, e, k, ds);
      RunLonger(p, e, k + d, k + more, cs);
    }
  }

  lemma LeadsYields(p: Code, e: Env, cs: seq<Config>, ds: seq<Config>, rs: seq<State>)
    requires Leads(p, e, cs, ds) && Yields(p, e, ds, rs)
    ensures Yields(p, e, cs, rs)
  {
    hide Next, Run;
    var d: nat :| LeadsWithin(p, e, cs, ds, d);
    var k: nat :| Run(p, e, k, ds) == Some(rs);
    assert Run(p, e, k + d, cs) == Some(rs);
  }
}
