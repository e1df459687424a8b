/** The PikeVM: one pass over the text, the threads at each position in order of preference. */
module Pike {
  import opened Options
  import opened CharSets
  import opened Syntax
  import opened Denotation
  import opened Machine
  import opened Emission
  import opened Nesting
  import opened Compiler
  import opened Backtrack
  import opened Scan
  import opened Searches
  import opened Futures
  import opened Closures
  import opened SparseSets

  datatype Frame =
    | Explore(pc: nat, begun: nat)
    | Restore(k: nat, prior: Option<nat>)

  // ----- keys as numbers -----

  function KeyNumber(pc: nat, s: nat, depths: nat): nat {
    pc * depths + s
  }

  lemma AtLeast(a: int, depths: nat)
    requires a >= 1
    ensures a * depths >= depths
  {
    assert a * depths == depths + (a - 1) * depths;
  }

  /** A key's parts are its quotient and its remainder. */
  lemma KeyParts(pc: nat, s: nat, depths: nat)
    requires s < depths
    ensures KeyNumber(pc, s, depths) / depths == pc && KeyNumber(pc, s, depths) % depths == s
  {
    var key := pc * depths + s;
    var q, r := key / depths, key % depths;
    assert key == q * depths + r;
    assert (pc - q) * depths == r - s;
    if pc > q {
      AtLeast(pc - q, depths);
    } else if q > pc {
      AtLeast(q - pc, depths);
    }
  }

  lemma KeyFits(pc: nat, s: nat, depths: nat, n: nat)
    requires pc < n && s < depths
    ensures KeyNumber(pc, s, depths) < n * depths
  {
    assert (pc + 1) * depths <= n * depths;
  }

  // ----- the thread lists -----

  /** A program for the PikeVM: nested, within its registers, its rows apart, and without back-references. */
  ghost predicate Pikeable(p: Program) {
    Runnable(p) && NoBackrefs(p.insts) && Consistent(p)
  }

  function ThreadKey(p: Program, c: Config): nat
    requires c.pc < |p.insts|
  {
    var (pc, s) := Key(p.insts, c);
    KeyNumber(pc, s, p.regs + 1)
  }

  lemma ThreadKeyFits(p: Program, c: Config)
    requires Pikeable(p) && Sound(p.insts, c)
    ensures Key(p.insts, c).1 < p.regs + 1 && ThreadKey(p, c) < |p.insts| * (p.regs + 1)
  {
    LiveIsBounded(p, c.pc);
    KeyFits(c.pc, Key(p.insts, c).1, p.regs + 1, |p.insts|);
  }

  lemma SameThreadKey(p: Program, c: Config, d: Config)
    requires Pikeable(p) && Sound(p.insts, c) && Sound(p.insts, d) && ThreadKey(p, c) == ThreadKey(p, d)
    ensures Key(p.insts, c) == Key(p.insts, d)
  {
    ThreadKeyFits(p, c);
    ThreadKeyFits(p, d);
    KeyParts(c.pc, Key(p.insts, c).1, p.regs + 1);
    KeyParts(d.pc, Key(p.insts, d).1, p.regs + 1);
  }

  lemma RowsDiffer(p: Program, c: Config, d: Config)
    requires Pikeable(p) && IsThread(p.insts, c) && IsThread(p.insts, d)
    ensures p.rowOf[c.pc] < p.rows
    ensures c.pc != d.pc ==> p.rowOf[c.pc] != p.rowOf[d.pc]
  {
    RowsApart(p.insts, c.pc, |p.insts|);
    if c.pc < d.pc {
      RowsApart(p.insts, c.pc, d.pc);
    } else if d.pc < c.pc {
      RowsApart(p.insts, d.pc, c.pc);
    }
  }

  /** The key of a visited thread at `i`, and its row if it waits. */
  ghost predicate Listed(p: Program, key: nat, table: seq<Slots>, c: Config) {
    && Sound(p.insts, c) && key == ThreadKey(p, c)
    && (IsThread(p.insts, c) ==> c.pc < |p.rowOf| && p.rowOf[c.pc] < |table| && table[p.rowOf[c.pc]] == c.s.slots)
  }

  /** A thread with the key of `c` was visited. */
  ghost predicate Seen(p: Program, visited: seq<Config>, c: Config)
    requires c.pc < |p.insts|
  {
    exists v :: 0 <= v < |visited| && visited[v].pc < |p.insts| && Key(p.insts, visited[v]) == Key(p.insts, c)
  }

  /** The threads at one position: the keys visited there in order, and a row of slots for each that waits. */
  class ThreadList {
    const keys: SparseSet
    const table: array<Slots>
    ghost var visited: seq<Config>

    ghost function Footprint(): set<object> {
      {this, keys, keys.dense, keys.sparse, table}
    }

    ghost predicate Valid(p: Program)
      requires |p.rowOf| == |p.insts|
      reads this, keys, keys.dense, keys.sparse, table
    {
      && keys.Valid() && keys.dense.Length == |p.insts| * (p.regs + 1) && table.Length == p.rows
      && |visited| == keys.len
      && forall i :: 0 <= i < |visited| ==> Listed(p, keys.dense[i], table[..], visited[i])
    }

    constructor (p: Program)
      requires |p.rowOf| == |p.insts|
      ensures Valid(p) && visited == [] && fresh(Footprint())
    {
      keys := new SparseSet(|p.insts| * (p.regs + 1));
      table := new Slots[p.rows](_ => []);
      visited := [];
    }

    method Clear(p: Program)
      requires |p.rowOf| == |p.insts| && Valid(p)
      modifies this, keys
      ensures Valid(p) && visited == []
    {
      keys.Clear();
      visited := [];
    }

    /**
     * Visits the thread `c`, unless its key was visited: a thread that waits leaves its slots in its row.
     */
    method Visit(p: Program, pc: nat, s: nat, slots: Slots, ghost c: Config) returns (added: bool)
      requires Pikeable(p) && Valid(p) && Sound(p.insts, c)
      requires c.pc == pc && c.s.slots == slots && Key(p.insts, c).1 == s
      modifies this, keys, keys.dense, keys.sparse, table
      ensures Valid(p)
      ensures added ==> visited == old(visited) + [c]
      ensures !added ==> visited == old(visited) && Seen(p, visited, c)
    {
      hide Live, Begun, CodeUsage, WaitsBefore, Nested, NoBackrefs, Ordered;
      ThreadKeyFits(p, c);
      var key := KeyNumber(pc, s, p.regs + 1);
      ghost var before, rows := keys.Contents(), table[..];
      added := keys.Insert(key);
      if !added {
        ghost var v :| 0 <= v < |before| && before[v] == key;
        SameThreadKey(p, visited[v], c);
        return;
      }
      if p.insts[pc].Class? || p.insts[pc].Match? {
        RowsDiffer(p, c, c);
        table[p.rowOf[pc]] := slots;
      }
      forall i | 0 <= i < |visited| ensures Listed(p, keys.dense[i], table[..], visited[i]) {
        assert keys.dense[i] == before[i];
        if IsThread(p.insts, visited[i]) && IsThread(p.insts, c) {
          RowsDiffer(p, visited[i], c);
        }
      }
      visited := visited + [c];
    }
  }

  /** Threads that carry `width` slots. */
  ghost predicate Wide(cs: seq<Config>, width: nat) {
    forall i :: 0 <= i < |cs| ==> |cs[i].s.slots| == width
  }

  // ----- a closure's stack -----

  /** The frame `Explore(pc, s)` with the slots `curr` stands for the thread `c`. */
  ghost predicate Stands(c: Config, pc: nat, s: nat, pos: nat, curr: Slots) {
    c.pc == pc && c.s == State(pos, curr) && Begun(c.regs, pos) == s
  }

  /** The threads a stack is still to explore, each with the slots there when its turn comes. */
  ghost predicate Pends(stack: seq<Frame>, curr: Slots, pos: nat, pending: seq<Config>)
    decreases |stack|
  {
    if stack == [] then pending == [] else
      var rest := stack[..|stack| - 1];
      match stack[|stack| - 1]
      case Explore(pc, s) => pending != [] && Stands(pending[0], pc, s, pos, curr) && Pends(rest, curr, pos, pending[1..])
      case Restore(k, v) => k < |curr| && Pends(rest, curr[k := v], pos, pending)
  }

  lemma PushExplore(stack: seq<Frame>, curr: Slots, pos: nat, pending: seq<Config>, pc: nat, s: nat, c: Config)
    requires Pends(stack, curr, pos, pending) && Stands(c, pc, s, pos, curr)
    ensures Pends(stack + [Explore(pc, s)], curr, pos, [c] + pending)
  {
    assert (stack + [Explore(pc, s)])[..|stack|] == stack;
    assert ([c] + pending)[1..] == pending;
  }

  lemma PushRestore(stack: seq<Frame>, curr: Slots, pos: nat, pending: seq<Config>, k: nat, v: Option<nat>)
    requires Pends(stack, curr, pos, pending) && k < |curr|
    ensures Pends(stack + [Restore(k, curr[k])], curr[k := v], pos, pending)
  {
    assert (stack + [Restore(k, curr[k])])[..|stack|] == stack;
    assert curr[k := v][k := curr[k]] == curr;
  }

  lemma ClosingHead(p: Code, e: Env, k: nat, pos: nat, visited: seq<Config>, pending: seq<Config>)
    requires Closing(p, e, k, pos, visited, pending) && pending != []
    ensures Sound(p, pending[0]) && pending[0].s.pos == pos && Ends(p, e, k, pending[0])
  {
  }

  // ----- steps -----

  /** The steps copying or clearing a row of `width` slots costs: a step per eight. */
  function CopyCost(width: nat): nat {
    (width + 7) / 8
  }

  /** The most steps a newly visited key costs: its visit, its work, and the visits it leads to. */
  function KeyCost(width: nat): nat {
    width + 3
  }

  /** Scratch memory for one call, reused across its searches. */
  class Cache {
    const width: nat
    var clist: ThreadList
    var nlist: ThreadList
    var stack: seq<Frame>
    const curr: array<Option<nat>>
    /** The slots of the best match found so far. */
    var found: Slots

    constructor (p: Program, width: nat)
      requires |p.rowOf| == |p.insts|
      ensures this.width == width && curr.Length == width && stack == []
      ensures clist.Valid(p) && nlist.Valid(p) && fresh(clist.Footprint()) && fresh(nlist.Footprint()) && fresh(curr)
      ensures clist.Footprint() !! nlist.Footprint() && curr !in clist.Footprint() + nlist.Footprint()
      ensures this !in clist.Footprint() + nlist.Footprint() && clist.visited == [] && nlist.visited == []
    {
      this.width := width;
      clist := new ThreadList(p);
      nlist := new ThreadList(p);
      stack := [];
      curr := new Option<nat>[width](_ => None);
      found := [];
    }

    /** Records a slot's value and changes it. */
    method SetSlot(pos: nat, k: nat, v: Option<nat>, ghost pending: seq<Config>)
      requires Pends(stack, curr[..], pos, pending) && k < curr.Length
      modifies this`stack, curr
      ensures Pends(stack, curr[..], pos, pending) && curr[..] == old(curr[..])[k := v]
    {
      PushRestore(stack, curr[..], pos, pending, k, v);
      stack := stack + [Restore(k, curr[k])];
      curr[k] := v;
      assert curr[..] == old(curr[..])[k := v];
    }

    /** Unsets the tracked slots of groups `lo` to `hi`, a step each. */
    method ClearSlots(pos: nat, lo: nat, hi: nat, ghost pending: seq<Config>) returns (steps: nat)
      requires Pends(stack, curr[..], pos, pending)
      modifies this`stack, curr
      ensures Pends(stack, curr[..], pos, pending) && curr[..] == Cleared(old(curr[..]), lo, hi)
      ensures steps <= curr.Length
    {
      var a := Least(2 * lo, curr.Length);
      var b := Least(2 * hi + 2, curr.Length);
      steps := if a <= b then b - a else 0;
      for k := a to Max(a, b)
        invariant Pends(stack, curr[..], pos, pending)
        invariant forall i :: 0 <= i < curr.Length ==> curr[i] == if a <= i < k then None else old(curr[i])
      {
        SetSlot(pos, k, None, pending);
      }
    }

    method PushThread(pc: nat, s: nat, pos: nat, ghost c: Config, ghost pending: seq<Config>)
      requires Pends(stack, curr[..], pos, pending) && Stands(c, pc, s, pos, curr[..])
      modifies this`stack
      ensures Pends(stack, curr[..], pos, [c] + pending)
    {
      PushExplore(stack, curr[..], pos, pending, pc, s, c);
      stack := stack + [Explore(pc, s)];
    }

    /** Puts the successors of a visited thread that does not wait on the stack, the preferred one on top. */
    method Expand(p: Program, e: Env, pos: nat, pc: nat, s: nat, ghost c: Config, ghost rest: seq<Config>)
      returns (steps: nat)
      requires Pikeable(p) && Sound(p.insts, c) && !IsThread(p.insts, c) && pos <= |e.hay|
      requires Pends(stack, curr[..], pos, rest) && Stands(c, pc, s, pos, curr[..])
      modifies this`stack, curr
      ensures Pends(stack, curr[..], pos, Next(p.insts, e, c) + rest)
      ensures steps <= curr.Length + 1
    {
      hide Pends, Begun, Live, Ordered, AtLineStart, AtLineEnd, Cleared, Consistent;
      assert InstNested(p.insts, pc);
      ghost var ds := Next(p.insts, e, c);
      BegunNext(p.insts, e, c);
      steps := 0;
      assert [] + rest == rest;
      match p.insts[pc]
      case Split(a, b) =>
        PushThread(b, s, pos, ds[1], rest);
        PushThread(a, s, pos, ds[0], [ds[1]] + rest);
        assert [ds[0]] + ([ds[1]] + rest) == ds + rest;
      case Jmp(t) => PushThread(t, s, pos, ds[0], rest);
      case Save(k) =>
        if k < curr.Length {
          steps := 1;
          SetSlot(pos, k, Some(pos), rest);
        }
        PushThread(pc + 1, s, pos, ds[0], rest);
      case Bol =>
        if AtLineStart(e, pos) {
          PushThread(pc + 1, s, pos, ds[0], rest);
        }
      case Eol =>
        if AtLineEnd(e, pos) {
          PushThread(pc + 1, s, pos, ds[0], rest);
        }
      case ProgressStart(r) =>
        PushThread(pc + 1, s + 1, pos, ds[0], rest);
      case ProgressCheck(_, exit) =>
        if s > 0 {
          PushThread(exit, s - 1, pos, ds[0], rest);
        } else {
          PushThread(pc + 1, 0, pos, ds[0], rest);
        }
      case ClearGroups(lo, hi) =>
        steps := ClearSlots(pos, lo, hi, rest);
        PushThread(pc + 1, s, pos, ds[0], rest);
    }

    /**
     * Explores a thread just popped: unless its key was seen, it is visited, and it waits in the list or its
     * successors are put on the stack.
     */
    method ExploreOne(p: Program, e: Env, pos: nat, pc: nat, s: nat, list: ThreadList, ghost k: nat,
                      ghost pending: seq<Config>)
      returns (steps: nat, ghost pending': seq<Config>)
      requires Pikeable(p) && pos <= |e.hay| && list.Valid(p)
      requires this !in list.Footprint() && curr !in list.Footprint()
      requires Closing(p.insts, e, k, pos, list.visited, pending) && pending != []
      requires Pends(stack, curr[..], pos, pending[1..]) && Stands(pending[0], pc, s, pos, curr[..])
      modifies this`stack, curr, list.Footprint()
      ensures list.Valid(p) && Pends(stack, curr[..], pos, pending')
      ensures Closing(p.insts, e, k, pos, list.visited, pending')
      ensures Outlook(p.insts, e, k, list.visited, pending') == old(Outlook(p.insts, e, k, list.visited, pending))
      ensures || list.visited == old(list.visited) + [pending[0]]
              || (list.visited == old(list.visited) != [] && stack == old(stack))
      ensures if list.visited == old(list.visited) then steps + |pending'| <= |pending|
              else steps + |pending'| <= |pending| + KeyCost(curr.Length)
    {
      hide Closing, Outlook, First, FirstOne, Threads, Ends, Next, Begun, Nested, NoBackrefs, Ordered, Live, Pends, Consistent;
      ghost var code, c, rest, was := p.insts, pending[0], pending[1..], list.visited;
      ClosingHead(code, e, k, pos, list.visited, pending);
      steps := 1;
      pending' := rest;
      var waits := p.insts[pc].Class? || p.insts[pc].Match?;
      var added := list.Visit(p, pc, if waits then 0 else s, curr[..], c);
      if !added {
        ghost var v :| 0 <= v < |was| && was[v].pc < |code| && Key(code, was[v]) == Key(code, c);
        DropSeen(code, e, k, pos, was, pending, v);
        return;
      }
      if waits {
        steps := steps + CopyCost(curr.Length);
        AddThread(code, e, k, pos, was, pending);
      } else {
        ExploreNext(code, e, k, pos, was, pending);
        var more := Expand(p, e, pos, pc, s, c, rest);
        steps := steps + more;
        pending' := Next(code, e, c) + rest;
      }
    }

    /**
     * Follows the instructions that consume nothing from `pc`, with the slots in `curr`, and adds a thread to
     * the list for each waiting instruction reached, in order of preference. No iteration has begun here yet.
     * The list's answer becomes its own or else the new thread's.
     */
    method Closure(p: Program, e: Env, pos: nat, pc: nat, list: ThreadList, ghost k: nat, ghost root: Config)
      returns (steps: nat)
      requires Pikeable(p) && pos <= |e.hay| && list.Valid(p) && stack == []
      requires this !in list.Footprint() && curr !in list.Footprint()
      requires Sound(p.insts, root) && Stands(root, pc, 0, pos, curr[..]) && Ends(p.insts, e, k, root)
      requires Closing(p.insts, e, k, pos, list.visited, []) && Wide(list.visited, curr.Length)
      modifies this`stack, curr, list.Footprint()
      ensures list.Valid(p) && stack == [] && Wide(list.visited, curr.Length)
      ensures Closing(p.insts, e, k, pos, list.visited, [])
      ensures First(p.insts, e, k, Threads(p.insts, list.visited))
        == OrElse(old(First(p.insts, e, k, Threads(p.insts, list.visited))), FirstOne(p.insts, e, k, root))
      ensures 0 < |list.visited| && |old(list.visited)| <= |list.visited|
      ensures steps <= 1 + Times(|list.visited| - |old(list.visited)|, KeyCost(curr.Length))
    {
      hide Closing, Outlook, First, FirstOne, Threads, Ends, Next, Begun, Sound, Nested, NoBackrefs, Runnable;
      ghost var code, was := p.insts, list.visited;
      ghost var pending := [root];
      Resumed(code, e, k, pos, list.visited, root);
      assert Pends(stack, curr[..], pos, []);
      PushThread(pc, 0, pos, root, []);
      assert [root] + [] == [root];
      ghost var goal := Outlook(code, e, k, list.visited, pending);
      steps := 0;
      while stack != []
        invariant list.Valid(p) && Pends(stack, curr[..], pos, pending)
        invariant Closing(code, e, k, pos, list.visited, pending) && Outlook(code, e, k, list.visited, pending) == goal
        invariant |was| <= |list.visited| && (list.visited == [] ==> pending != []) && Wide(list.visited, curr.Length)
        invariant steps + |pending| <= 1 + Times(|list.visited| - |was|, KeyCost(curr.Length))
        decreases |p.insts| * (p.regs + 1) - |list.visited|, |stack|
      {
        var top := stack[|stack| - 1];
        stack := stack[..|stack| - 1];
        match top
        case Restore(slot, prior) =>
          curr[slot] := prior;
        case Explore(at, s) =>
          var step;
          step, pending := ExploreOne(p, e, pos, at, s, list, k, pending);
          steps := steps + step;
      }
      OutlookDone(code, e, k, list.visited);
    }
  }
}
