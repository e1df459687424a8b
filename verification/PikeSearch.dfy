/** The PikeVM's search: the leftmost match, within steps that are linear in the text. */
module PikeSearch {
  import opened Options
  import opened CharSets
  import opened Syntax
  import opened Denotation
  import opened Machine
  import opened Nesting
  import opened Compiler
  import opened Scan
  import opened Searches
  import opened Futures
  import opened Closures
  import Backtrack
  import opened Pike

  // ----- what the search measures itself against -----

  /** Within `k` steps, the thread begun at each position has ended, with the matches from there. */
  ghost predicate Settled(p: Code, e: Env, width: nat, k: nat, ms: seq<seq<State>>) {
    && |ms| == |e.hay| + 1
    && (forall q :: 0 <= q < |ms| ==> RunOne(p, e, k, Start(q, width)) == Some(ms[q]))
    && (forall q, i :: 0 <= q < |ms| && 0 <= i < |ms[q]| ==> |ms[q][i].slots| == width)
  }

  lemma Settle(p: Code, e: Env, width: nat, ms: seq<seq<State>>) returns (k: nat)
    requires AllYield(p, e, width, ms)
    ensures Settled(p, e, width, k, ms)
  {
    hide Run, RunOne;
    var starts := seq(|ms|, q requires 0 <= q < |ms| => [Start(q, width)]);
    k := CommonBound(p, e, starts, ms);
    forall q | 0 <= q < |ms| ensures RunOne(p, e, k, Start(q, width)) == Some(ms[q]) {
      assert starts[q] == [Start(q, width)];
      RunSingle(p, e, k, Start(q, width));
    }
  }

  /** What the waiting threads among `cs` find first. */
  ghost function Found(p: Code, e: Env, k: nat, cs: seq<Config>): Option<State> {
    First(p, e, k, Threads(p, cs))
  }

  lemma FoundNothing(p: Code, e: Env, k: nat)
    ensures Found(p, e, k, []) == None
  {
  }

  lemma FoundFirst(p: Code, e: Env, k: nat, cs: seq<Config>, i: nat)
    requires i < |cs|
    ensures Found(p, e, k, cs[i..])
            == OrElse(if IsThread(p, cs[i]) then FirstOne(p, e, k, cs[i]) else None, Found(p, e, k, cs[i + 1..]))
  {
    hide First, FirstOne, Threads;
    var rest := cs[i + 1..];
    assert cs[i..][0] == cs[i] && cs[i..][1..] == rest;
    ThreadsCons(p, cs[i..]);
    FirstOfCons(p, e, k, cs[i], Threads(p, rest));
    assert [] + Threads(p, rest) == Threads(p, rest);
  }

  /** The thread begun at a position finds its match there, and below it come the matches of later positions. */
  lemma StartFinds(p: Code, e: Env, width: nat, k: nat, ms: seq<seq<State>>, q: nat)
    requires Nested(p) && Settled(p, e, width, k, ms) && q <= |e.hay|
    ensures Sound(p, Start(q, width)) && Begun([], q) == 0 && Ends(p, e, k, Start(q, width))
    ensures Leftmost(ms, q) == OrElse(FirstOne(p, e, k, Start(q, width)), Leftmost(ms, q + 1))
  {
    hide RunOne;
  }

  lemma LeftmostIsWide(ms: seq<seq<State>>, q: nat, width: nat)
    requires forall q, i :: 0 <= q < |ms| && 0 <= i < |ms[q]| ==> |ms[q][i].slots| == width
    ensures Leftmost(ms, q).Some? ==> |Leftmost(ms, q).value.slots| == width
    decreases |ms| - q
  {
  }

  /** Nothing is pending over an empty list, at any position. */
  lemma NothingClosing(p: Code, e: Env, k: nat, pos: nat)
    ensures Closing(p, e, k, pos, [], [])
  {
  }

  lemma ListedEnds(p: Code, e: Env, k: nat, pos: nat, visited: seq<Config>, i: nat)
    requires Closing(p, e, k, pos, visited, []) && i < |visited|
    ensures Sound(p, visited[i]) && visited[i].s.pos == pos && Ends(p, e, k, visited[i])
  {
  }

  /** A thread at a class finds what its successor past the character finds, if there is one. */
  lemma ClassFinds(p: Code, e: Env, k: nat, c: Config)
    requires Nested(p) && NoBackrefs(p) && Sound(p, c) && Ends(p, e, k, c) && p[c.pc].Class? && c.s.pos <= |e.hay|
    ensures !ClassMatches(e, p[c.pc].chars, c.s.pos) ==> FirstOne(p, e, k, c) == None
    ensures ClassMatches(e, p[c.pc].chars, c.s.pos) ==>
              var d := Config(c.pc + 1, State(c.s.pos + 1, c.s.slots), c.regs);
              && c.pc + 1 < |p| && Sound(p, d) && Begun(d.regs, d.s.pos) == 0 && Ends(p, e, k, d)
              && FirstOne(p, e, k, c) == FirstOne(p, e, k, d)
  {
    hide FirstOne, Ends, Nested, NoBackrefs, Live, Ordered, Begun, ClassMatches;
    NextEndsSooner(p, e, k, c);
    NextIsSound(p, e, c);
    if ClassMatches(e, p[c.pc].chars, c.s.pos) {
      var d := Config(c.pc + 1, State(c.s.pos + 1, c.s.slots), c.regs);
      assert Next(p, e, c) == [d];
      assert Next(p, e, c)[0] == d;
      BegunLater(c.regs, c.s.pos);
      FirstOfOne(p, e, k, d);
    }
  }

  lemma MatchFinds(p: Code, e: Env, k: nat, c: Config)
    requires AtMatch(p, c)
    ensures FirstOne(p, e, k, c) == Some(c.s)
  {
  }

  /** A thread that waits at once joins the list. */
  lemma WaitsAdded(p: Code, e: Env, k: nat, pos: nat, was: seq<Config>, d: Config)
    requires Nested(p) && NoBackrefs(p) && Closing(p, e, k, pos, was, [])
    requires Sound(p, d) && d.s.pos == pos && Ends(p, e, k, d) && IsThread(p, d)
    ensures Closing(p, e, k, pos, was + [d], [])
    ensures Found(p, e, k, was + [d]) == OrElse(Found(p, e, k, was), FirstOne(p, e, k, d))
  {
    hide Closing, Outlook, First, FirstOne, Threads, Ends, Sound;
    Resumed(p, e, k, pos, was, d);
    AddThread(p, e, k, pos, was, [d]);
    assert [d][1..] == [];
    OutlookDone(p, e, k, was + [d]);
  }

  /** A thread whose key is listed changes nothing. */
  lemma WaitsSeen(p: Code, e: Env, k: nat, pos: nat, was: seq<Config>, d: Config, v: nat)
    requires Nested(p) && NoBackrefs(p) && Closing(p, e, k, pos, was, [])
    requires Sound(p, d) && d.s.pos == pos && Ends(p, e, k, d)
    requires v < |was| && was[v].pc < |p| && Key(p, was[v]) == Key(p, d)
    ensures Found(p, e, k, was) == OrElse(Found(p, e, k, was), FirstOne(p, e, k, d))
  {
    hide Closing, Outlook, First, FirstOne, Threads, Ends;
    Resumed(p, e, k, pos, was, d);
    DropSeen(p, e, k, pos, was, [d], v);
    assert [d][1..] == [];
    OutlookDone(p, e, k, was);
  }

  // ----- steps -----

  /** The steps a class's test costs beyond its visit: one for each doubling of its ranges. */
  function TestCost(ranges: nat): nat
    decreases ranges
  {
    if ranges < 2 then 0 else 1 + TestCost(ranges / 2)
  }

  function MaxTestCost(code: Code): nat {
    if code == [] then 0 else
      var rest := MaxTestCost(code[1..]);
      if code[0].Class? then Max(TestCost(|code[0].chars|), rest) else rest
  }

  lemma {:induction false} TestCostFits(code: Code, pc: nat)
    requires pc < |code| && code[pc].Class?
    ensures TestCost(|code[pc].chars|) <= MaxTestCost(code)
    decreases |code|
  {
    if pc > 0 {
      assert code[1..][pc - 1] == code[pc];
      TestCostFits(code[1..], pc - 1);
    }
  }

  function ThreadCost(p: Program, width: nat): nat {
    2 + MaxTestCost(p.insts) + CopyCost(width)
  }

  /** The number of keys a thread list can hold. */
  function Keys(p: Program): nat {
    |p.insts| * (p.regs + 1)
  }

  /** The most steps a position costs: its thread, and for each key its visit in both lists and its turn. */
  function PositionCost(p: Program, width: nat): nat {
    2 + CopyCost(width) + Times(Keys(p), KeyCost(width)) + Times(Keys(p), ThreadCost(p, width)) + Times(Keys(p), KeyCost(width))
  }

  // ----- the search -----

  ghost predicate Ready(c: Cache, p: Program)
    requires |p.rowOf| == |p.insts|
    reads c, c.curr, c.clist.Footprint(), c.nlist.Footprint()
  {
    && c.clist.Valid(p) && c.nlist.Valid(p) && c.clist.Footprint() !! c.nlist.Footprint()
    && c !in c.clist.Footprint() + c.nlist.Footprint() && c.curr !in c.clist.Footprint() + c.nlist.Footprint()
    && c.curr.Length == c.width && c.stack == []
    && Wide(c.clist.visited, c.width) && Wide(c.nlist.visited, c.width)
  }

  /** Adds the thread `d`, which has just consumed a character, to the next list, with all it leads to. */
  method Advance(c: Cache, p: Program, e: Env, pos: nat, pc: nat, row: Slots, ghost k: nat, ghost d: Config) returns (steps: nat)
    requires Pikeable(p) && Ready(c, p) && pos <= |e.hay| && |row| == c.width && pc < |p.insts|
    requires Sound(p.insts, d) && d.pc == pc && d.s == State(pos, row) && Begun(d.regs, pos) == 0 && Ends(p.insts, e, k, d)
    requires Closing(p.insts, e, k, pos, c.nlist.visited, [])
    modifies c`stack, c.curr, c.nlist.Footprint()
    ensures Ready(c, p) && Closing(p.insts, e, k, pos, c.nlist.visited, [])
    ensures Found(p.insts, e, k, c.nlist.visited)
            == OrElse(old(Found(p.insts, e, k, c.nlist.visited)), FirstOne(p.insts, e, k, d))
    ensures |old(c.nlist.visited)| <= |c.nlist.visited|
    ensures steps <= 1 + Times(|c.nlist.visited| - |old(c.nlist.visited)|, KeyCost(c.width))
  {
    hide Closing, Outlook, First, FirstOne, Threads, Ends, Begun, Sound, Nested, NoBackrefs;
    ghost var was := c.nlist.visited;
    if p.insts[pc].Class? {
      steps := 1;
      var added := c.nlist.Visit(p, pc, 0, row, d);
      if added {
        WaitsAdded(p.insts, e, k, pos, was, d);
      } else {
        ghost var v :| 0 <= v < |was| && was[v].pc < |p.insts| && Key(p.insts, was[v]) == Key(p.insts, d);
        WaitsSeen(p.insts, e, k, pos, was, d, v);
      }
    } else {
      forall i | 0 <= i < c.curr.Length {
        c.curr[i] := row[i];
      }
      assert c.curr[..] == row;
      steps := c.Closure(p, e, pos, pc, c.nlist, k, d);
    }
  }

  /** The key of a listed thread is a multiple of the depths only if its count is zero. */
  lemma TurnKey(p: Program, v: Config)
    requires Pikeable(p) && Sound(p.insts, v)
    ensures var key := ThreadKey(p, v);
            key / (p.regs + 1) == v.pc && (key % (p.regs + 1) != 0 ==> !IsThread(p.insts, v))
  {
    ThreadKeyFits(p, v);
    KeyParts(v.pc, Key(p.insts, v).1, p.regs + 1);
  }

  /**
   * The turn of the `i`-th thread in the list: it advances over the next character, or its match is found, which
   * then ranks below what the next list finds and above everything that remains here.
   */
  method Turn(c: Cache, p: Program, e: Env, pos: nat, i: nat, ghost k: nat) returns (hit: bool, steps: nat)
    requires Pikeable(p) && Ready(c, p) && pos <= |e.hay| && i < |c.clist.visited|
    requires Closing(p.insts, e, k, pos, c.clist.visited, []) && Closing(p.insts, e, k, pos + 1, c.nlist.visited, [])
    requires pos == |e.hay| ==> c.nlist.visited == []
    modifies c`stack, c`found, c.curr, c.nlist.Footprint()
    ensures Ready(c, p) && Closing(p.insts, e, k, pos + 1, c.nlist.visited, [])
    ensures pos == |e.hay| ==> c.nlist.visited == []
    ensures !hit ==> c.found == old(c.found)
    ensures !hit ==>
              OrElse(Found(p.insts, e, k, c.nlist.visited), Found(p.insts, e, k, c.clist.visited[i + 1..]))
              == OrElse(old(Found(p.insts, e, k, c.nlist.visited)), Found(p.insts, e, k, c.clist.visited[i..]))
    ensures hit ==> c.nlist.visited == old(c.nlist.visited) && c.found == c.clist.visited[i].s.slots
    ensures hit ==> Found(p.insts, e, k, c.clist.visited[i..]) == Some(c.clist.visited[i].s)
    ensures |old(c.nlist.visited)| <= |c.nlist.visited|
    ensures steps <= ThreadCost(p, c.width) + Times(|c.nlist.visited| - |old(c.nlist.visited)|, KeyCost(c.width))
  {
    hide Closing, First, Found, FirstOne, Threads, Ends, Begun, Sound, Nested, NoBackrefs, MaxTestCost;
    ghost var v := c.clist.visited[i];
    FoundFirst(p.insts, e, k, c.clist.visited, i);
    ListedEnds(p.insts, e, k, pos, c.clist.visited, i);
    assert Listed(p, c.clist.keys.dense[i], c.clist.table[..], v);
    TurnKey(p, v);
    hit, steps := false, 1;
    var key := c.clist.keys.dense[i];
    if key % (p.regs + 1) != 0 {
      return;
    }
    var pc := key / (p.regs + 1);
    match p.insts[pc] {
      case Class(chars) =>
        ClassFinds(p.insts, e, k, v);
        if pos == |e.hay| {
          return;
        }
        steps := steps + TestCost(|chars|);
        TestCostFits(p.insts, pc);
        var held := Contains(chars, e.hay[pos] as int);
        if !held {
          return;
        }
        steps := steps + CopyCost(c.width);
        var row := c.clist.table[p.rowOf[pc]];
        ghost var d := Config(v.pc + 1, State(pos + 1, v.s.slots), v.regs);
        var more := Advance(c, p, e, pos + 1, pc + 1, row, k, d);
        steps := steps + more;
      case Match =>
        steps := steps + CopyCost(c.width);
        MatchFinds(p.insts, e, k, v);
        c.found := c.clist.table[p.rowOf[pc]];
        hit := true;
      case _ =>
    }
  }

  /**
   * The turns of the listed threads, until one's match is found and ends those below it: what the list finds, the
   * next list finds, or else the match found.
   */
  method Pass(c: Cache, p: Program, e: Env, pos: nat, ghost k: nat) returns (hit: bool, steps: nat, ghost best: State)
    requires Pikeable(p) && Ready(c, p) && pos <= |e.hay| && c.nlist.visited == []
    requires Closing(p.insts, e, k, pos, c.clist.visited, [])
    modifies c`stack, c`found, c.curr, c.nlist.Footprint()
    ensures Ready(c, p) && Closing(p.insts, e, k, pos + 1, c.nlist.visited, [])
    ensures pos == |e.hay| ==> c.nlist.visited == []
    ensures OrElse(Found(p.insts, e, k, c.nlist.visited), if hit then Some(best) else None)
            == Found(p.insts, e, k, c.clist.visited)
    ensures c.found == if hit then best.slots else old(c.found)
    ensures hit ==> |best.slots| == c.width
    ensures steps <= Times(Keys(p), ThreadCost(p, c.width)) + Times(Keys(p), KeyCost(c.width))
  {
    hide Closing, Found, Backtrack.Runnable, NoBackrefs, Times, ThreadCost, KeyCost;
    hit, steps, best := false, 0, State(0, []);
    ghost var was, code := c.clist.visited, p.insts;
    ghost var cost, more := ThreadCost(p, c.width), KeyCost(c.width);
    NothingClosing(code, e, k, pos + 1);
    FoundNothing(code, e, k);
    NothingCharged(cost);
    NothingCharged(more);
    assert was[0..] == was;
    for i := 0 to c.clist.keys.len
      invariant Ready(c, p) && c.clist.visited == was && Closing(code, e, k, pos + 1, c.nlist.visited, [])
      invariant c.clist.keys.len == |was| && c.found == old(c.found)
      invariant pos == |e.hay| ==> c.nlist.visited == []
      invariant OrElse(Found(code, e, k, c.nlist.visited), Found(code, e, k, was[i..])) == Found(code, e, k, was)
      invariant steps <= Times(i, cost) + Times(|c.nlist.visited|, more)
    {
      ghost var had := |c.nlist.visited|;
      var step;
      hit, step := Turn(c, p, e, pos, i, k);
      steps := steps + step;
      TimesAdd(i, 1, cost);
      TimesOne(cost);
      TimesAdd(had, |c.nlist.visited| - had, more);
      TurnsFit(p, i + 1, |c.nlist.visited|, cost, more);
      if hit {
        best := was[i].s;
        return;
      }
    }
    assert was[|was|..] == [];
    TurnsFit(p, |was|, |c.nlist.visited|, cost, more);
  }

  lemma TimesOne(m: nat)
    ensures Times(1, m) == m
  {
    assert Times(0, m) == 0;
  }

  lemma TurnsFit(p: Program, turns: nat, visits: nat, cost: nat, more: nat)
    requires turns <= Keys(p) && visits <= Keys(p)
    ensures Times(turns, cost) + Times(visits, more) <= Times(Keys(p), cost) + Times(Keys(p), more)
  {
    TimesGrows(turns, Keys(p), cost, cost);
    TimesGrows(visits, Keys(p), more, more);
  }

  lemma NoneBefore(e: Env, ms: seq<seq<State>>, start: nat, prefix: string, anchored: bool, from: nat, to: nat)
    requires Filtered(e, ms, start, prefix, anchored) && start <= from <= to <= |ms|
    requires forall q :: from <= q < to ==> !OccursAt(e.hay, q, prefix)
    ensures Leftmost(ms, from) == Leftmost(ms, to)
  {
    LeftmostSkips(ms, from, to);
  }

  lemma NonePast(e: Env, ms: seq<seq<State>>, start: nat, prefix: string, anchored: bool, from: nat)
    requires Filtered(e, ms, start, prefix, anchored) && anchored && start < from <= |ms|
    ensures Leftmost(ms, from) == None
  {
    LeftmostSkips(ms, from, |ms|);
  }

  /** The charges up to a position and for the scan from it to the next candidate. */
  lemma ScanFits(from: nat, to: nat, cost: nat, n: nat, charged: nat)
    requires from <= to && charged <= Times(2 * (to - from) + 1, n)
    ensures Times(from, cost + 2 * n) + charged + cost <= Times(to + 1, cost + 2 * n)
  {
    TimesAdd(from, to - from + 1, cost + 2 * n);
    TimesSum(to - from + 1, cost, 2 * n);
    TimesGrows(1, to - from + 1, cost, cost);
    TimesOne(cost);
    TimesSum(to - from + 1, n, n);
    TimesAdd(to - from + 1, to - from + 1, n);
    TimesGrows(2 * (to - from) + 1, (to - from + 1) + (to - from + 1), n, n);
  }

  /** Begins the thread at `pos`, below every earlier one. */
  method Begin(c: Cache, p: Program, e: Env, pos: nat, ghost k: nat, ghost ms: seq<seq<State>>) returns (steps: nat)
    requires Pikeable(p) && Ready(c, p) && pos <= |e.hay|
    requires Settled(p.insts, e, c.width, k, ms) && Closing(p.insts, e, k, pos, c.clist.visited, [])
    modifies c`stack, c.curr, c.clist.Footprint()
    ensures Ready(c, p) && Closing(p.insts, e, k, pos, c.clist.visited, []) && c.clist.visited != []
    ensures OrElse(Found(p.insts, e, k, c.clist.visited), Leftmost(ms, pos + 1))
            == OrElse(old(Found(p.insts, e, k, c.clist.visited)), Leftmost(ms, pos))
    ensures steps <= CopyCost(c.width) + 1 + Times(Keys(p), KeyCost(c.width))
  {
    hide Closing, First, FirstOne, Threads, Ends, Begun, Sound, Nested, NoBackrefs, Settled;
    forall i | 0 <= i < c.curr.Length {
      c.curr[i] := None;
    }
    assert c.curr[..] == Start(pos, c.width).s.slots;
    StartFinds(p.insts, e, c.width, k, ms, pos);
    ghost var had := |c.clist.visited|;
    steps := c.Closure(p, e, pos, 0, c.clist, k, Start(pos, c.width));
    TimesGrows(|c.clist.visited| - had, Keys(p), KeyCost(c.width), KeyCost(c.width));
    steps := steps + CopyCost(c.width);
  }

  /** Where the search goes on: while no thread is alive, where the literal next occurs; nothing matches before it. */
  method Seek(c: Cache, p: Program, e: Env, prefix: string, pos: nat, matched: bool, ghost k: nat, ghost start: nat,
              ghost anchored: bool, ghost ms: seq<seq<State>>, ghost cost: nat)
    returns (next: Option<nat>, charged: nat)
    requires |p.rowOf| == |p.insts| && Ready(c, p) && Closing(p.insts, e, k, pos, c.clist.visited, [])
    requires Filtered(e, ms, start, prefix, anchored) && start <= pos <= |e.hay|
    ensures next.Some? ==> pos <= next.value <= |e.hay| && Closing(p.insts, e, k, next.value, c.clist.visited, [])
    ensures var found := Found(p.insts, e, k, c.clist.visited);
            OrElse(found, Leftmost(ms, pos)) == if next.Some? then OrElse(found, Leftmost(ms, next.value)) else None
    ensures matched ==> next == Some(pos)
    ensures Times(pos - start, cost + 2 * |prefix|) + charged + cost
            <= Times((if next.Some? then next.value else |e.hay|) - start + 1, cost + 2 * |prefix|)
  {
    hide Times, Leftmost, Closing;
    if !matched && prefix != "" && c.clist.keys.len == 0 {
      next, charged := FindLiteral(e.hay, pos, prefix);
      NoneBefore(e, ms, start, prefix, anchored, pos, if next.Some? then next.value else |ms|);
      PastAll(ms);
      FoundNothing(p.insts, e, k);
      TimesGrows(|e.hay| - pos, 2 * (|e.hay| - pos) + 1, |prefix|, |prefix|);
      if next.Some? {
        NothingClosing(p.insts, e, k, next.value);
      }
    } else {
      next, charged := Some(pos), 0;
    }
    ScanFits(pos - start, (if next.Some? then next.value else |e.hay|) - start, cost, |prefix|, charged);
  }

  lemma PastAll(ms: seq<seq<State>>)
    ensures Leftmost(ms, |ms|) == None
  {
  }

  /**
   * One position: its thread begins, if it is to, and each listed thread has its turn. `below` is what ranks
   * below the list: the match found last, or what later positions find.
   */
  method AtPosition(c: Cache, p: Program, e: Env, pos: nat, begin: bool, ghost k: nat, ghost ms: seq<seq<State>>,
                    ghost below: Option<State>)
    returns (alive: bool, hit: bool, steps: nat, ghost best: State, ghost below': Option<State>)
    requires Pikeable(p) && Ready(c, p) && pos <= |e.hay| && c.nlist.visited == []
    requires Settled(p.insts, e, c.width, k, ms) && Closing(p.insts, e, k, pos, c.clist.visited, [])
    requires begin ==> below == Leftmost(ms, pos)
    modifies c`stack, c`found, c.curr, c.clist.Footprint(), c.nlist.Footprint()
    ensures Ready(c, p) && Closing(p.insts, e, k, pos + 1, c.nlist.visited, [])
    ensures below' == if hit then Some(best) else if begin then Leftmost(ms, pos + 1) else below
    ensures alive ==> OrElse(old(Found(p.insts, e, k, c.clist.visited)), below)
                      == OrElse(Found(p.insts, e, k, c.nlist.visited), below')
    ensures !alive ==> !hit && !begin && old(c.clist.visited) == []
    ensures pos == |e.hay| ==> c.nlist.visited == []
    ensures c.found == if hit then best.slots else old(c.found)
    ensures hit ==> |best.slots| == c.width
    ensures steps <= PositionCost(p, c.width)
  {
    hide Closing, Found, Nested, NoBackrefs, Times, ThreadCost, KeyCost, CopyCost, Settled, Leftmost, First, Threads;
    steps := 1;
    if begin {
      var more := Begin(c, p, e, pos, k, ms);
      steps := steps + more;
    }
    alive := c.clist.keys.len != 0;
    hit, best, below' := false, State(0, []), if begin then Leftmost(ms, pos + 1) else below;
    if !alive {
      NothingClosing(p.insts, e, k, pos + 1);
      return;
    }
    var more;
    hit, more, best := Pass(c, p, e, pos, k);
    steps := steps + more;
    below' := if hit then Some(best) else below';
  }

  method Empty(c: Cache, p: Program)
    requires Pikeable(p) && Ready(c, p)
    modifies c.clist, c.clist.keys, c.nlist, c.nlist.keys
    ensures Ready(c, p) && c.clist.visited == [] && c.nlist.visited == []
  {
    c.clist.Clear(p);
    c.nlist.Clear(p);
  }

  /** The next list becomes the current one, and the other is emptied. */
  method Swap(c: Cache, p: Program)
    requires Pikeable(p) && Ready(c, p)
    modifies c`clist, c`nlist, c.clist, c.clist.keys
    ensures Ready(c, p) && c.clist == old(c.nlist) && c.nlist == old(c.clist)
    ensures c.clist.visited == old(c.nlist.visited) && c.nlist.visited == []
  {
    c.clist, c.nlist := c.nlist, c.clist;
    c.nlist.Clear(p);
  }

  /**
   * Whether there is a match at or after `start`; the leftmost one's tracked slots are then `found`. While no
   * thread is alive, the search goes on where the literal every match begins with next occurs; if no match
   * begins past `start`, it ends when the last thread dies. Its steps are linear in the positions searched.
   */
  method Search(p: Program, e: Env, start: nat, prefix: string, anchored: bool, c: Cache, ghost ms: seq<seq<State>>)
    returns (matched: bool, steps: nat)
    requires Pikeable(p) && Ready(c, p) && start <= |e.hay|
    requires AllYield(p.insts, e, c.width, ms) && Filtered(e, ms, start, prefix, anchored)
    modifies c, c.curr, c.clist.Footprint(), c.nlist.Footprint()
    ensures Ready(c, p) && {c.clist, c.nlist} == old({c.clist, c.nlist})
    ensures matched <==> Leftmost(ms, start).Some?
    ensures matched ==> c.found == Leftmost(ms, start).value.slots
    ensures steps <= Times(|e.hay| - start + 1, PositionCost(p, c.width) + 2 * |prefix|)
  {
    hide Closing, Found, Nested, NoBackrefs, Times, PositionCost, Settled, Filtered, Leftmost, Ready;
    ghost var goal, one, other := Leftmost(ms, start), c.clist, c.nlist;
    ghost var cost, most := PositionCost(p, c.width), PositionCost(p, c.width) + 2 * |prefix|;
    ghost var k := Settle(p.insts, e, c.width, ms);
    ghost var best, below := State(0, []), goal;
    Empty(c, p);
    NothingClosing(p.insts, e, k, start);
    FoundNothing(p.insts, e, k);
    NothingCharged(most);
    LeftmostIsWide(ms, start, c.width);
    PastAll(ms);
    var pos := start;
    matched, steps := false, 0;
    while true
      invariant start <= pos <= |e.hay| && Ready(c, p) && c.nlist.visited == []
      invariant (c.clist == one && c.nlist == other) || (c.clist == other && c.nlist == one)
      invariant Closing(p.insts, e, k, pos, c.clist.visited, [])
      invariant OrElse(Found(p.insts, e, k, c.clist.visited), below) == goal
      invariant below == if matched then Some(best) else Leftmost(ms, pos)
      invariant matched ==> c.found == best.slots
      invariant steps <= Times(pos - start, most)
      decreases |e.hay| - pos
    {
      var next, charged := Seek(c, p, e, prefix, pos, matched, k, start, anchored, ms, cost);
      TimesGrows((if next.Some? then next.value else |e.hay|) - start + 1, |e.hay| - start + 1, most, most);
      if next.None? {
        return;
      }
      pos := next.value;
      below := if matched then below else Leftmost(ms, pos);
      var begin := !matched && (pos == start || !anchored);
      if !matched && !begin {
        NonePast(e, ms, start, prefix, anchored, pos);
        NonePast(e, ms, start, prefix, anchored, pos + 1);
      }
      var alive, hit, more;
      ghost var b;
      alive, hit, more, b, below := AtPosition(c, p, e, pos, begin, k, ms, below);
      steps := steps + charged + more;
      if hit {
        matched, best := true, b;
        if c.width == 0 {
          return;
        }
      }
      if !alive || pos == |e.hay| {
        break;
      }
      pos := pos + 1;
      Swap(c, p);
    }
  }
}
