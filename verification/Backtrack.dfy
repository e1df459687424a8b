/** The backtracking matcher: an explicit stack of choice points and undo records. */
module Backtrack {
  import opened Options
  import opened CharSets
  import opened Syntax
  import opened Denotation
  import opened Machine
  import opened Emission
  import opened Nesting
  import opened Compiler
  import opened Scan
  import opened Searches

  datatype Frame =
    | Alt(pc: nat, pos: nat)
    | Slot(k: nat, prior: Option<nat>)
    | Reg(r: nat, prior: Option<nat>)

  type Regs = seq<Option<nat>>

  // ----- what the stack stands for -----

  /** A program whose registers are numbered by depth, below the number it declares. */
  ghost predicate Runnable(p: Program) {
    Nested(p.insts) && forall pc :: 0 <= pc < |p.insts| && p.insts[pc].ProgressStart? ==> p.insts[pc].reg < p.regs
  }

  lemma {:induction false} LiveIsBounded(p: Program, pc: nat)
    requires Runnable(p) && pc <= |p.insts|
    ensures Live(p.insts, pc) <= p.regs
    decreases pc
  {
    if pc > 0 {
      assert InstNested(p.insts, pc - 1);
      LiveIsBounded(p, pc - 1);
    }
  }

  /** The registers of the iterations live at `pc` are set. */
  ghost predicate RegsSet(p: Code, pc: nat, regs: Regs) {
    pc < |p| && 0 <= Live(p, pc) <= |regs| && forall i :: 0 <= i < Live(p, pc) ==> regs[i].Some?
  }

  ghost function LiveRegs(p: Code, pc: nat, regs: Regs): (rs: seq<nat>)
    requires RegsSet(p, pc, regs)
    ensures |rs| == Live(p, pc)
  {
    seq(Live(p, pc), i requires 0 <= i < Live(p, pc) => regs[i].value)
  }

  ghost function Thread(p: Code, pc: nat, pos: nat, slots: Slots, regs: Regs): Config
    requires RegsSet(p, pc, regs)
  {
    Config(pc, State(pos, slots), LiveRegs(p, pc, regs))
  }

  /** Every frame can be popped, given the slots and registers when its turn comes. */
  ghost predicate Poppable(p: Code, stack: seq<Frame>, slots: Slots, regs: Regs)
    decreases |stack|
  {
    stack != [] ==>
      var rest := stack[..|stack| - 1];
      match stack[|stack| - 1]
      case Alt(pc, pos) => RegsSet(p, pc, regs) && Poppable(p, rest, slots, regs)
      case Slot(k, v) => k < |slots| && Poppable(p, rest, slots[k := v], regs)
      case Reg(r, v) => r < |regs| && Poppable(p, rest, slots, regs[r := v])
  }

  /** The threads waiting on the stack, next first, each with the slots and registers it was left with. */
  ghost function Waiting(p: Code, stack: seq<Frame>, slots: Slots, regs: Regs): seq<Config>
    requires Poppable(p, stack, slots, regs)
    decreases |stack|
  {
    if stack == [] then [] else
      var rest := stack[..|stack| - 1];
      match stack[|stack| - 1]
      case Alt(pc, pos) => [Thread(p, pc, pos, slots, regs)] + Waiting(p, rest, slots, regs)
      case Slot(k, v) => Waiting(p, rest, slots[k := v], regs)
      case Reg(r, v) => Waiting(p, rest, slots, regs[r := v])
  }

  lemma PushAlt(p: Code, stack: seq<Frame>, slots: Slots, regs: Regs, pc: nat, pos: nat)
    requires Poppable(p, stack, slots, regs) && RegsSet(p, pc, regs)
    ensures Poppable(p, stack + [Frame.Alt(pc, pos)], slots, regs)
    ensures Waiting(p, stack + [Frame.Alt(pc, pos)], slots, regs)
            == [Thread(p, pc, pos, slots, regs)] + Waiting(p, stack, slots, regs)
  {
    assert (stack + [Frame.Alt(pc, pos)])[..|stack|] == stack;
  }

  /** Recording a slot's value before changing it leaves what waits as it was. */
  lemma PushSlot(p: Code, stack: seq<Frame>, slots: Slots, regs: Regs, k: nat, v: Option<nat>)
    requires Poppable(p, stack, slots, regs) && k < |slots|
    ensures var stack' := stack + [Slot(k, slots[k])];
            Poppable(p, stack', slots[k := v], regs)
            && Waiting(p, stack', slots[k := v], regs) == Waiting(p, stack, slots, regs)
  {
    assert (stack + [Slot(k, slots[k])])[..|stack|] == stack;
    assert slots[k := v][k := slots[k]] == slots;
  }

  lemma PushReg(p: Code, stack: seq<Frame>, slots: Slots, regs: Regs, r: nat, v: Option<nat>)
    requires Poppable(p, stack, slots, regs) && r < |regs|
    ensures var stack' := stack + [Reg(r, regs[r])];
            Poppable(p, stack', slots, regs[r := v])
            && Waiting(p, stack', slots, regs[r := v]) == Waiting(p, stack, slots, regs)
  {
    assert (stack + [Reg(r, regs[r])])[..|stack|] == stack;
    assert regs[r := v][r := regs[r]] == regs;
  }

  // ----- termination -----

  /** The steps a run that ends takes. */
  ghost function Work(p: Code, e: Env, k: nat, cs: seq<Config>): nat
    decreases k, |cs|
  {
    if cs == [] then 0 else
      (if AtMatch(p, cs[0]) || k == 0 then 0 else 1 + Work(p, e, k - 1, Next(p, e, cs[0]))) + Work(p, e, k, cs[1..])
  }

  lemma {:induction false} WorkLonger(p: Code, e: Env, k: nat, m: nat, cs: seq<Config>)
    requires k <= m && Run(p, e, k, cs).Some?
    ensures Work(p, e, m, cs) == Work(p, e, k, cs)
    decreases k, |cs|
  {
    if cs != [] {
      if !AtMatch(p, cs[0]) {
        WorkLonger(p, e, k - 1, m - 1, Next(p, e, cs[0]));
      }
      WorkLonger(p, e, k, m, cs[1..]);
    }
  }

  lemma {:induction false} WorkAppend(p: Code, e: Env, k: nat, cs: seq<Config>, ds: seq<Config>)
    ensures Work(p, e, k, cs + ds) == Work(p, e, k, cs) + Work(p, e, k, ds)
    decreases |cs|
  {
    if cs == [] {
      assert cs + ds == ds;
    } else {
      assert (cs + ds)[1..] == cs[1..] + ds;
      WorkAppend(p, e, k, cs[1..], ds);
    }
  }

  /** Replacing the first thread by those that take over from it changes no match and shortens the work. */
  lemma OneStep(p: Code, e: Env, k: nat, c: Config, rest: seq<Config>)
    requires Run(p, e, k, [c] + rest).Some? && !AtMatch(p, c)
    ensures Run(p, e, k, Next(p, e, c) + rest) == Run(p, e, k, [c] + rest)
    ensures Work(p, e, k, Next(p, e, c) + rest) < Work(p, e, k, [c] + rest)
  {
    hide Next;
    var ds := Next(p, e, c);
    assert ([c] + rest)[1..] == rest;
    RunLonger(p, e, k - 1, k, ds);
    RunAppend(p, e, k, ds, rest);
    WorkLonger(p, e, k - 1, k, ds);
    WorkAppend(p, e, k, ds, rest);
  }

  lemma FirstMatch(p: Code, e: Env, k: nat, c: Config, rest: seq<Config>)
    requires Run(p, e, k, [c] + rest).Some? && AtMatch(p, c)
    ensures var rs := Run(p, e, k, [c] + rest).value; rs != [] && rs[0] == c.s
  {
    assert ([c] + rest)[1..] == rest;
  }

  // ----- one instruction -----

  /** Going to an instruction at the same depth keeps the live registers. */
  lemma SameDepth(p: Code, pc: nat, t: nat, regs: Regs)
    requires RegsSet(p, pc, regs) && t < |p| && Live(p, t) == Live(p, pc)
    ensures RegsSet(p, t, regs) && LiveRegs(p, t, regs) == LiveRegs(p, pc, regs)
  {
  }

  lemma NextDepth(p: Code, pc: nat, regs: Regs)
    requires RegsSet(p, pc, regs) && InstNested(p, pc) && !p[pc].ProgressStart? && !p[pc].ProgressCheck?
    requires !p[pc].Split? && !p[pc].Jmp? && !p[pc].Match?
    ensures RegsSet(p, pc + 1, regs) && LiveRegs(p, pc + 1, regs) == LiveRegs(p, pc, regs)
  {
    LiveNext(p, pc);
    SameDepth(p, pc, pc + 1, regs);
  }

  lemma DepthRises(p: Code, pc: nat, pos: nat, regs: Regs)
    requires RegsSet(p, pc, regs) && InstNested(p, pc) && p[pc].ProgressStart? && p[pc].reg < |regs|
    ensures var regs' := regs[p[pc].reg := Some(pos)];
            RegsSet(p, pc + 1, regs') && LiveRegs(p, pc + 1, regs') == LiveRegs(p, pc, regs)[..p[pc].reg] + [pos]
  {
  }

  lemma DepthFalls(p: Code, pc: nat, t: nat, regs: Regs)
    requires RegsSet(p, pc, regs) && InstNested(p, pc) && p[pc].ProgressCheck?
    requires t == pc + 1 || t == p[pc].exit
    ensures RegsSet(p, t, regs) && LiveRegs(p, t, regs) == LiveRegs(p, pc, regs)[..p[pc].reg]
    ensures regs[p[pc].reg] == Some(LiveRegs(p, pc, regs)[p[pc].reg])
  {
  }

  /** Where the captured text `hay[a..b]` ends when it is matched again at `pos`. */
  method MatchAgain(e: Env, a: nat, b: nat, pos: nat) returns (end: Option<nat>)
    requires pos <= |e.hay|
    ensures end == BackrefEnd(e, a, b, pos)
  {
    var p, k := pos, a;
    while k < b && k < |e.hay|
      invariant pos <= p <= |e.hay|
      invariant BackrefEnd(e, k, b, p) == BackrefEnd(e, a, b, pos)
      decreases b - k
    {
      if p >= |e.hay| || !SameChar(e, e.hay[k], e.hay[p]) {
        return None;
      }
      p, k := p + 1, k + 1;
    }
    end := if k >= b then Some(p) else None;
  }

  /** Scratch memory for one call, reused across its searches and start positions. */
  class Cache {
    const slots: array<Option<nat>>
    const regs: array<Option<nat>>
    var stack: seq<Frame>

    constructor (p: Program)
      ensures slots.Length == p.slots && regs.Length == p.regs && slots != regs
      ensures fresh(slots) && fresh(regs)
    {
      slots := new Option<nat>[p.slots](_ => None);
      regs := new Option<nat>[p.regs](_ => None);
      stack := [];
    }

    ghost predicate Ready(p: Program)
      reads this, slots, regs
    {
      && slots != regs && slots.Length == p.slots && regs.Length == p.regs
      && Poppable(p.insts, stack, slots[..], regs[..])
    }

    /** Every start position sets up all slots and registers. */
    method Reset(p: Program)
      requires slots != regs && slots.Length == p.slots && regs.Length == p.regs
      modifies this`stack, slots, regs
      ensures Ready(p) && Rest(p) == [] && stack == []
      ensures slots[..] == seq(p.slots, _ => None)
    {
      forall i | 0 <= i < slots.Length {
        slots[i] := None;
      }
      forall i | 0 <= i < regs.Length {
        regs[i] := None;
      }
      stack := [];
    }

    ghost function Rest(p: Program): seq<Config>
      requires Ready(p)
      reads this, slots, regs
    {
      Waiting(p.insts, stack, slots[..], regs[..])
    }

    /** Changes a slot, its value recorded. */
    method SetSlot(p: Program, k: nat, v: Option<nat>)
      requires Ready(p) && k < slots.Length
      modifies this`stack, slots
      ensures Ready(p) && Rest(p) == old(Rest(p)) && NoNewAlt(old(stack), stack)
      ensures slots[..] == old(slots[..])[k := v]
    {
      PushSlot(p.insts, stack, slots[..], regs[..], k, v);
      stack := stack + [Slot(k, slots[k])];
      slots[k] := v;
      assert slots[..] == old(slots[..])[k := v];
    }

    /** Unsets the slots of groups `lo` to `hi`, each value recorded. */
    method ClearSlots(p: Program, lo: nat, hi: nat)
      requires Ready(p)
      modifies this`stack, slots
      ensures Ready(p) && Rest(p) == old(Rest(p)) && NoNewAlt(old(stack), stack)
      ensures slots[..] == Cleared(old(slots[..]), lo, hi)
    {
      var k := 2 * lo;
      while k < 2 * hi + 2 && k < slots.Length
        invariant 2 * lo <= k
        invariant Ready(p) && Rest(p) == old(Rest(p)) && NoNewAlt(old(stack), stack)
        invariant forall i :: 0 <= i < slots.Length ==>
          slots[i] == if 2 * lo <= i < k && i < 2 * hi + 2 then None else old(slots[i])
      {
        SetSlot(p, k, None);
        k := k + 1;
      }
    }

    /** Starts an iteration: its register, whose value is recorded, holds where it began. */
    method SetReg(p: Program, r: nat, pos: nat)
      requires Ready(p) && r < regs.Length
      modifies this`stack, regs
      ensures Ready(p) && Rest(p) == old(Rest(p)) && NoNewAlt(old(stack), stack)
      ensures regs[..] == old(regs[..])[r := Some(pos)]
    {
      PushReg(p.insts, stack, slots[..], regs[..], r, Some(pos));
      stack := stack + [Reg(r, regs[r])];
      regs[r] := Some(pos);
      assert regs[..] == old(regs[..])[r := Some(pos)];
    }

    /** The thread that is running. */
    ghost function Here(p: Program, pc: nat, pos: nat): Config
      requires RegsSet(p.insts, pc, regs[..])
      reads this, slots, regs
    {
      Thread(p.insts, pc, pos, slots[..], regs[..])
    }

    /**
     * Executes one instruction: either the running thread goes on, with any alternative left on the stack, or
     * it fails and nothing is left of it.
     */
    method Step(p: Program, e: Env, pc: nat, pos: nat) returns (ok: bool, pc': nat, pos': nat)
      requires Ready(p) && Runnable(p) && RegsSet(p.insts, pc, regs[..])
      requires pos <= |e.hay| && !p.insts[pc].Match? && InText(e, stack)
      modifies this`stack, slots, regs
      ensures Ready(p) && pos' <= |e.hay| && InText(e, stack)
      ensures ok ==> RegsSet(p.insts, pc', regs[..])
      ensures ok ==> [Here(p, pc', pos')] + Rest(p) == Next(p.insts, e, old(Here(p, pc, pos))) + old(Rest(p))
      ensures !ok ==> Next(p.insts, e, old(Here(p, pc, pos))) == [] && Rest(p) == old(Rest(p))
    {
      hide Waiting, Poppable, Live, LiveRegs, Holds, BackrefEnd, AtLineStart, AtLineEnd, Cleared;
      ghost var code := p.insts;
      assert InstNested(code, pc);
      ok, pc', pos' := true, pc + 1, pos;
      match p.insts[pc]
      case Class(chars) =>
        NextDepth(code, pc, regs[..]);
        if pos < |e.hay| {
          ok := Contains(chars, e.hay[pos] as int);
          if ok {
            pos' := pos + 1;
          }
        } else {
          ok := false;
        }
      case Split(a, b) =>
        SameDepth(code, pc, a, regs[..]);
        SameDepth(code, pc, b, regs[..]);
        PushAlt(code, stack, slots[..], regs[..], b, pos);
        stack := stack + [Frame.Alt(b, pos)];
        assert forall i :: 0 <= i < |stack| - 1 ==> stack[i] == old(stack)[i];
        pc' := a;
      case Jmp(t) =>
        SameDepth(code, pc, t, regs[..]);
        pc' := t;
      case Save(k) =>
        NextDepth(code, pc, regs[..]);
        if k < slots.Length {
          SetSlot(p, k, Some(pos));
        }
      case Bol =>
        NextDepth(code, pc, regs[..]);
        ok := AtLineStart(e, pos);
      case Eol =>
        NextDepth(code, pc, regs[..]);
        ok := AtLineEnd(e, pos);
      case Backref(nr) =>
        NextDepth(code, pc, regs[..]);
        if 2 * nr + 1 < slots.Length && slots[2 * nr].Some? && slots[2 * nr + 1].Some? {
          var end := MatchAgain(e, slots[2 * nr].value, slots[2 * nr + 1].value, pos);
          if end.Some? {
            pos' := end.value;
          } else {
            ok := false;
          }
        }
      case ProgressStart(r) =>
        DepthRises(code, pc, pos, regs[..]);
        SetReg(p, r, pos);
      case ProgressCheck(r, exit) =>
        DepthFalls(code, pc, pc + 1, regs[..]);
        DepthFalls(code, pc, exit, regs[..]);
        if regs[r] == Some(pos) {
          pc' := exit;
        }
      case ClearGroups(lo, hi) =>
        NextDepth(code, pc, regs[..]);
        ClearSlots(p, lo, hi);
    }

    /** Undoes changes up to the newest choice point, and resumes there; false if there is none. */
    method Resume(p: Program, e: Env) returns (ok: bool, pc: nat, pos: nat)
      requires Ready(p) && InText(e, stack)
      modifies this`stack, slots, regs
      ensures Ready(p) && InText(e, stack)
      ensures ok ==> RegsSet(p.insts, pc, regs[..]) && pos <= |e.hay|
      ensures old(Rest(p)) == if ok then [Here(p, pc, pos)] + Rest(p) else []
    {
      pc, pos := 0, 0;
      while stack != []
        invariant Ready(p) && Rest(p) == old(Rest(p)) && InText(e, stack)
        decreases |stack|
      {
        var n := |stack| - 1;
        var top := stack[n];
        stack := stack[..n];
        match top
        case Slot(k, v) => 
          assert slots[..][k := v] == slots[..][..k] + [v] + slots[..][k + 1..];
          slots[k] := v;
        case Reg(r, v) =>
          regs[r] := v;
        case Alt(pc', pos') =>
          return true, pc', pos';
      }
      ok := false;
    }
  }

  // ----- a search -----

  /**
   * Runs the program from `start`: whether it matches there, and then its preferred match's slots are in the
   * cache. The run ends because the matches `rs` it would find are finitely many steps away.
   */
  method RunAt(p: Program, e: Env, start: nat, cache: Cache, ghost rs: seq<State>) returns (found: bool)
    requires Runnable(p) && cache.slots != cache.regs
    requires cache.slots.Length == p.slots && cache.regs.Length == p.regs
    requires start <= |e.hay| && Yields(p.insts, e, [Start(start, p.slots)], rs)
    modifies cache, cache.slots, cache.regs
    ensures found <==> rs != []
    ensures found ==> cache.slots[..] == rs[0].slots
  {
    hide Waiting, Poppable, Next, Run, Work;
    ghost var code, bound := p.insts, RunBound(p.insts, e, [Start(start, p.slots)], rs);
    cache.Reset(p);
    var pc: nat, pos: nat := 0, start;
    assert Live(code, 0) == 0 && cache.Here(p, 0, start).regs == [];
    assert cache.slots[..] == Start(start, p.slots).s.slots;
    ghost var all := [cache.Here(p, pc, pos)] + cache.Rest(p);
    assert all == [Start(start, p.slots)];
    while true
      invariant cache.Ready(p) && RegsSet(code, pc, cache.regs[..]) && pos <= |e.hay| && InText(e, cache.stack)
      invariant all == [cache.Here(p, pc, pos)] + cache.Rest(p)
      invariant Run(code, e, bound, all) == Some(rs)
      decreases Work(code, e, bound, all)
    {
      ghost var c, rest := cache.Here(p, pc, pos), cache.Rest(p);
      if p.insts[pc].Match? {
        FirstMatch(code, e, bound, c, rest);
        return true;
      }
      OneStep(code, e, bound, c, rest);
      var ok;
      ok, pc, pos := cache.Step(p, e, pc, pos);
      if !ok {
        assert [] + rest == rest;
        ok, pc, pos := cache.Resume(p, e);
        if !ok {
          RunNone(code, e, bound);
          return false;
        }
      }
      all := Next(code, e, c) + rest;
    }
  }

  ghost function RunBound(p: Code, e: Env, cs: seq<Config>, rs: seq<State>): (k: nat)
    requires Yields(p, e, cs, rs)
    ensures Run(p, e, k, cs) == Some(rs)
  {
    var k: nat :| Run(p, e, k, cs) == Some(rs);
    k
  }

  lemma RunNone(p: Code, e: Env, k: nat)
    ensures Run(p, e, k, []) == Some([])
  {
  }

  /**
   * The leftmost match at or after `start`, tried only where the literal every match begins with occurs, and
   * at `start` alone if no match begins past it.
   */
  method Search(p: Program, e: Env, start: nat, prefix: string, anchored: bool, cache: Cache, ghost ms: seq<seq<State>>)
    returns (r: Option<Slots>)
    requires Runnable(p) && cache.slots != cache.regs
    requires cache.slots.Length == p.slots && cache.regs.Length == p.regs
    requires start <= |e.hay| && AllYield(p.insts, e, p.slots, ms) && Filtered(e, ms, start, prefix, anchored)
    modifies cache, cache.slots, cache.regs
    ensures match Leftmost(ms, start) case None => r == None case Some(s) => r == Some(s.slots)
  {
    var at := start;
    while true
      invariant start <= at <= |e.hay| && Leftmost(ms, at) == Leftmost(ms, start)
      invariant anchored ==> at == start
      decreases |e.hay| - at
    {
      if prefix != "" {
        var next, _ := FindLiteral(e.hay, at, prefix);
        var to := if next.Some? then next.value else |e.hay| + 1;
        LeftmostSkips(ms, at, to);
        if next.None? {
          return None;
        }
        at := to;
      }
      var found := RunAt(p, e, at, cache, ms[at]);
      if found {
        return Some(cache.slots[..]);
      }
      if anchored {
        LeftmostSkips(ms, at, |ms|);
        return None;
      }
      if at == |e.hay| {
        return None;
      }
      at := at + 1;
    }
  }

  /** The second stack has no choice point the first has not. */
  predicate NoNewAlt(before: seq<Frame>, after: seq<Frame>) {
    forall i :: 0 <= i < |after| && after[i].Alt? ==> i < |before| && before[i] == after[i]
  }

  /** The choice points resume inside the text. */
  predicate InText(e: Env, stack: seq<Frame>) {
    forall i :: 0 <= i < |stack| && stack[i].Alt? ==> stack[i].pos <= |e.hay|
  }
}
