/** Joining many values two at a time, as a binary counter carries. */
module IrJoins {
  import opened Options
  import opened IrCode
  import opened IrMachine
  import opened IrExpr

  function TrailingZeros(i: nat): nat
    requires i > 0
  {
    if i % 2 == 1 then 0 else 1 + TrailingZeros(i / 2)
  }

  function CountOnes(i: nat): nat {
    if i == 0 then 0 else CountOnes(i / 2) + i % 2
  }

  function Log2(i: nat): nat
    requires i > 0
  {
    if i == 1 then 0 else 1 + Log2(i / 2)
  }

  // ----- the lengths of the runs -----

  function Doubled(s: seq<nat>): seq<nat> {
    seq(|s|, j requires 0 <= j < |s| => 2 * s[j])
  }

  /** The set bits of `i` as numbers, the highest first: the lengths of the runs after `i` items. */
  function Lens(i: nat): seq<nat> {
    if i == 0 then [] else Doubled(Lens(i / 2)) + if i % 2 == 1 then [1] else []
  }

  function Total(s: seq<nat>): nat {
    if s == [] then 0 else Total(s[..|s| - 1]) + s[|s| - 1]
  }

  /** The last two runs become one, `k` times. */
  function MergeTop(s: seq<nat>, k: nat): seq<nat>
    requires k < |s|
    decreases k
  {
    var n := |s|;
    if k == 0 then s else MergeTop(s[..n - 2] + [s[n - 2] + s[n - 1]], k - 1)
  }

  lemma {:induction false} MergeDoubled(s: seq<nat>, k: nat)
    requires k < |s|
    ensures MergeTop(Doubled(s), k) == Doubled(MergeTop(s, k))
    decreases k
  {
    var n := |s|;
    if k > 0 {
      var t := s[..n - 2] + [s[n - 2] + s[n - 1]];
      assert Doubled(s)[..n - 2] + [Doubled(s)[n - 2] + Doubled(s)[n - 1]] == Doubled(t);
      MergeDoubled(t, k - 1);
    }
  }

  /** The lengths add up to the items, and there are as many runs as set bits. */
  lemma {:induction false} LensTotal(i: nat)
    ensures Total(Lens(i)) == i && |Lens(i)| == CountOnes(i) && forall j :: 0 <= j < |Lens(i)| ==> Lens(i)[j] > 0
    decreases i
  {
    if i > 0 {
      LensTotal(i / 2);
      TotalDoubled(Lens(i / 2));
      var d := Doubled(Lens(i / 2));
      assert (d + [1])[..|d|] == d && d + [] == d;
    }
  }

  lemma {:induction false} TotalDoubled(s: seq<nat>)
    ensures Total(Doubled(s)) == 2 * Total(s)
    decreases |s|
  {
    if s != [] {
      TotalDoubled(s[..|s| - 1]);
      assert Doubled(s)[..|s| - 1] == Doubled(s[..|s| - 1]);
    }
  }

  /** Two new runs of one item: the first join makes a run of two, and the others go on as they do for half the count. */
  lemma MergePair(low: seq<nat>, z: nat)
    requires z <= |low|
    ensures MergeTop(Doubled(low) + [1, 1], z + 1) == Doubled(MergeTop(low + [1], z))
  {
    var s := Doubled(low) + [1, 1];
    assert s[..|s| - 2] + [2] == Doubled(low + [1]);
    MergeDoubled(low + [1], z);
  }

  lemma EvenLens(i: nat)
    requires i > 0 && i % 2 == 0
    ensures Lens(i) == Doubled(Lens(i / 2)) && Lens(i - 1) == Doubled(Lens(i / 2 - 1)) + [1]
  {
    assert (i - 1) / 2 == i / 2 - 1;
    OddLens(i - 1);
    assert Doubled(Lens(i / 2)) + [] == Doubled(Lens(i / 2));
  }

  lemma LensBefore(i: nat)
    requires i % 2 == 1
    ensures Lens(i) == Lens(i - 1) + [1]
  {
    OddLens(i);
    if i == 1 {
      assert Lens(0) == [] && Doubled([]) == [];
    } else {
      assert (i - 1) / 2 == i / 2 && Doubled(Lens(i / 2)) + [] == Doubled(Lens(i / 2));
    }
  }

  /** One join for each trailing zero bit: a carry joins runs of equal length, and the runs then are those of the next count. */
  lemma {:induction false} Carries(i: nat)
    requires i > 0
    ensures TrailingZeros(i) <= |Lens(i - 1)| && MergeTop(Lens(i - 1) + [1], TrailingZeros(i)) == Lens(i)
    decreases i
  {
    hide Lens, Doubled;
    if i % 2 == 1 {
      LensBefore(i);
    } else {
      Carries(i / 2);
      EvenLens(i);
      DoubledLength(Lens(i / 2 - 1));
      assert Doubled(Lens(i / 2 - 1)) + [1] + [1] == Doubled(Lens(i / 2 - 1)) + [1, 1];
      MergePair(Lens(i / 2 - 1), TrailingZeros(i / 2));
    }
  }

  lemma DoubledLength(s: seq<nat>)
    ensures |Doubled(s)| == |s|
  {
  }

  lemma OddLens(i: nat)
    requires i % 2 == 1
    ensures Lens(i) == Doubled(Lens(i / 2)) + [1]
  {
  }

  lemma {:induction false} MergeAll(s: seq<nat>)
    requires s != []
    ensures MergeTop(s, |s| - 1) == [Total(s)]
    decreases |s|
  {
    var n := |s|;
    if n == 1 {
      assert s == [s[0]] && s[..0] == [];
    } else {
      var t := s[..n - 2] + [s[n - 2] + s[n - 1]];
      MergeAll(t);
      assert t[..n - 2] == s[..n - 1][..n - 2];
    }
  }

  /** At most one run for each bit of the count waits. */
  lemma {:induction false} FewRuns(i: nat)
    requires i > 0
    ensures CountOnes(i) <= Log2(i) + 1
    decreases i
  {
    if i > 1 {
      FewRuns(i / 2);
    }
  }

  // ----- how often an item is joined -----

  function Raised(s: seq<nat>): seq<nat> {
    seq(|s|, j requires 0 <= j < |s| => s[j] + 1)
  }

  /** How many joins the most joined item of each run has taken part in. */
  function Joins(i: nat): seq<nat> {
    if i == 0 then [] else Raised(Joins(i / 2)) + if i % 2 == 1 then [0] else []
  }

  function Most(a: nat, b: nat): nat {
    if a < b then b else a
  }

  /** Joining the last two runs, `k` times. */
  function DeepenTop(s: seq<nat>, k: nat): seq<nat>
    requires k < |s|
    decreases k
  {
    var n := |s|;
    if k == 0 then s else DeepenTop(s[..n - 2] + [Most(s[n - 2], s[n - 1]) + 1], k - 1)
  }

  lemma {:induction false} DeepenRaised(s: seq<nat>, k: nat)
    requires k < |s|
    ensures DeepenTop(Raised(s), k) == Raised(DeepenTop(s, k))
    decreases k
  {
    var n := |s|;
    if k > 0 {
      var t := s[..n - 2] + [Most(s[n - 2], s[n - 1]) + 1];
      assert Raised(s)[..n - 2] + [Most(Raised(s)[n - 2], Raised(s)[n - 1]) + 1] == Raised(t);
      DeepenRaised(t, k - 1);
    }
  }

  lemma OddJoins(i: nat)
    requires i % 2 == 1
    ensures Joins(i) == Raised(Joins(i / 2)) + [0]
  {
  }

  lemma DeepenPair(low: seq<nat>, z: nat)
    requires z <= |low|
    ensures DeepenTop(Raised(low) + [0, 0], z + 1) == Raised(DeepenTop(low + [0], z))
  {
    var s := Raised(low) + [0, 0];
    assert s[..|s| - 2] + [1] == Raised(low + [0]);
    DeepenRaised(low + [0], z);
  }

  lemma EvenJoins(i: nat)
    requires i > 0 && i % 2 == 0
    ensures Joins(i) == Raised(Joins(i / 2)) && Joins(i - 1) == Raised(Joins(i / 2 - 1)) + [0]
  {
    assert (i - 1) / 2 == i / 2 - 1;
    OddJoins(i - 1);
    assert Raised(Joins(i / 2)) + [] == Raised(Joins(i / 2));
  }

  lemma JoinsBefore(i: nat)
    requires i % 2 == 1
    ensures Joins(i) == Joins(i - 1) + [0]
  {
    OddJoins(i);
    if i == 1 {
      assert Joins(0) == [] && Raised([]) == [];
    } else {
      assert (i - 1) / 2 == i / 2 && Raised(Joins(i / 2)) + [] == Raised(Joins(i / 2));
    }
  }

  lemma RaisedLength(s: seq<nat>)
    ensures |Raised(s)| == |s|
  {
  }

  /** A new item has been in no join, and a carry counts one for both its runs. */
  lemma {:induction false} CarriesJoins(i: nat)
    requires i > 0
    ensures TrailingZeros(i) <= |Joins(i - 1)| && DeepenTop(Joins(i - 1) + [0], TrailingZeros(i)) == Joins(i)
    decreases i
  {
    hide Joins, Raised;
    if i % 2 == 1 {
      JoinsBefore(i);
    } else {
      CarriesJoins(i / 2);
      EvenJoins(i);
      RaisedLength(Joins(i / 2 - 1));
      assert Raised(Joins(i / 2 - 1)) + [0] + [0] == Raised(Joins(i / 2 - 1)) + [0, 0];
      DeepenPair(Joins(i / 2 - 1), TrailingZeros(i / 2));
    }
  }

  predicate Descending(s: seq<nat>) {
    forall j :: 0 < j < |s| ==> s[j] < s[j - 1]
  }

  lemma {:induction false} JoinsDescend(i: nat)
    requires i > 0
    ensures |Joins(i)| == CountOnes(i) > 0 && Descending(Joins(i)) && Joins(i)[0] == Log2(i)
    decreases i
  {
    hide Joins, Raised;
    if i == 1 {
      FirstJoins();
    } else {
      JoinsDescend(i / 2);
      RaisedDescends(Joins(i / 2));
      if i % 2 == 1 {
        OddJoins(i);
      } else {
        EvenJoins(i);
      }
    }
  }

  lemma FirstJoins()
    ensures Joins(1) == [0]
  {
    assert Joins(0) == [] && Raised([]) + [0] == [0];
  }

  lemma RaisedDescends(s: seq<nat>)
    requires Descending(s) && s != []
    ensures var r := Raised(s); |r| == |s| && Descending(r) && r[0] == s[0] + 1 && r[|r| - 1] > 0 && Descending(r + [0])
  {
  }

  /** The joins at the end add at most one to the longest run's. */
  lemma {:induction false} LastJoins(s: seq<nat>, top: nat)
    requires s != [] && Descending(s[..|s| - 1]) && s[|s| - 1] <= top
    requires |s| > 1 ==> top <= s[|s| - 2]
    ensures var r := DeepenTop(s, |s| - 1); |r| == 1 && r[0] <= (if |s| == 1 then top else s[0] + 1)
    decreases |s|
  {
    var n := |s|;
    if n > 1 {
      var t := s[..n - 2] + [Most(s[n - 2], s[n - 1]) + 1];
      assert s[..n - 1][..n - 2] == s[..n - 2];
      assert t[..|t| - 1] == s[..n - 2];
      if n > 2 {
        assert s[..n - 1][n - 2] < s[..n - 1][n - 3];
      }
      LastJoins(t, s[n - 2] + 1);
    }
  }

  /** No item takes part in more than one join for each bit of the number of items. */
  lemma FewJoins(n: nat)
    requires n > 0
    ensures |Joins(n)| > 0 && var r := DeepenTop(Joins(n), |Joins(n)| - 1); |r| == 1 && r[0] <= Log2(n) + 1
  {
    JoinsDescend(n);
    var s := Joins(n);
    LastJoins(s, s[|s| - 1]);
  }

  // ----- the values of the runs -----

  /** The runs are these values, cut into runs of these lengths and each joined. */
  predicate Chunked(ops: Ops, op: BinaryOp, runs: seq<Value>, lens: seq<nat>, vs: seq<Value>)
    decreases |lens|
  {
    |runs| == |lens| &&
    if lens == [] then vs == []
    else
      var n, l := |lens| - 1, lens[|lens| - 1];
      && 0 < l <= |vs| && JoinAll(ops, op, vs[|vs| - l..]) == Some(runs[n])
      && Chunked(ops, op, runs[..n], lens[..n], vs[..|vs| - l])
  }

  /** The last two runs joined, `k` times. */
  function JoinTop(ops: Ops, op: BinaryOp, runs: seq<Value>, k: nat): Option<seq<Value>>
    requires k < |runs|
    decreases k
  {
    var n := |runs|;
    if k == 0 then Some(runs)
    else
      var v := Join(ops, op, Some(runs[n - 2]), Some(runs[n - 1]));
      if v.None? then None else JoinTop(ops, op, runs[..n - 2] + [v.value], k - 1)
  }

  lemma ChunkLengths(ops: Ops, op: BinaryOp, runs: seq<Value>, lens: seq<nat>, vs: seq<Value>)
    requires Chunked(ops, op, runs, lens, vs)
    ensures |runs| == |lens|
  {
  }

  lemma FrontChunk(ops: Ops, op: BinaryOp, runs: seq<Value>, lens: seq<nat>, vs: seq<Value>)
    requires Chunked(ops, op, runs, lens, vs) && runs != []
    ensures |runs| == |lens|
    ensures var n, l := |lens| - 1, lens[|lens| - 1];
            && 0 < l <= |vs| && JoinAll(ops, op, vs[|vs| - l..]) == Some(runs[n])
            && Chunked(ops, op, runs[..n], lens[..n], vs[..|vs| - l])
  {
  }

  /** Two runs next to each other, joined. */
  lemma TwoRuns(ops: Ops, op: BinaryOp, vs: seq<Value>, i: nat, j: nat)
    requires Associative(ops, op) && i < j < |vs|
    ensures JoinAll(ops, op, vs[i..]) == Join(ops, op, JoinAll(ops, op, vs[i..j]), JoinAll(ops, op, vs[j..]))
  {
    hide Associative, Join, JoinAll;
    assert vs[i..] == vs[i..j] + vs[j..];
    JoinAllSplits(ops, op, vs[i..j], vs[j..]);
  }

  /** The chunk before the last one, from `i` to `j`. */
  lemma SecondChunk(ops: Ops, op: BinaryOp, runs: seq<Value>, lens: seq<nat>, vs: seq<Value>) returns (i: nat, j: nat)
    requires Chunked(ops, op, runs, lens, vs) && |runs| > 1
    ensures |runs| == |lens| && i < j < |vs|
    ensures j == |vs| - lens[|lens| - 1] && i == j - lens[|lens| - 2]
    ensures JoinAll(ops, op, vs[j..]) == Some(runs[|runs| - 1]) && JoinAll(ops, op, vs[i..j]) == Some(runs[|runs| - 2])
    ensures Chunked(ops, op, runs[..|runs| - 2], lens[..|runs| - 2], vs[..i])
  {
    hide Join, JoinAll, Chunked;
    FrontChunk(ops, op, runs, lens, vs);
    var n := |lens|;
    j := |vs| - lens[n - 1];
    var r, l := runs[..n - 1], lens[..n - 1];
    FrontChunk(ops, op, r, l, vs[..j]);
    i := j - lens[n - 2];
    assert vs[..j][i..] == vs[i..j] && vs[..j][..i] == vs[..i];
    assert l[..n - 2] == lens[..n - 2] && r[..n - 2] == runs[..n - 2];
  }

  /** The last two of the chunks as one. */
  lemma TwoChunks(ops: Ops, op: BinaryOp, runs: seq<Value>, lens: seq<nat>, vs: seq<Value>) returns (i: nat)
    requires Associative(ops, op) && Chunked(ops, op, runs, lens, vs) && |runs| > 1
    ensures |lens| == |runs| && i < |vs| && i == |vs| - (lens[|lens| - 2] + lens[|lens| - 1])
    ensures JoinAll(ops, op, vs[i..]) == Join(ops, op, Some(runs[|runs| - 2]), Some(runs[|runs| - 1]))
    ensures Chunked(ops, op, runs[..|runs| - 2], lens[..|runs| - 2], vs[..i])
  {
    hide Associative, Join, JoinAll, Chunked;
    var j;
    i, j := SecondChunk(ops, op, runs, lens, vs);
    TwoRuns(ops, op, vs, i, j);
  }

  /** A part that cannot be joined: neither can the whole. */
  lemma NoPart(ops: Ops, op: BinaryOp, x: seq<Value>, y: seq<Value>)
    requires Associative(ops, op) && y != [] && JoinAll(ops, op, y) == None
    ensures x + y != [] && JoinAll(ops, op, x + y) == None
  {
    hide Associative;
    if x == [] {
      assert x + y == y;
    } else {
      JoinAllSplits(ops, op, x, y);
    }
  }

  /** Joining the last runs keeps the runs joined chunks of the values, or else the values cannot be joined. */
  lemma {:induction false} JoinKeepsChunks(ops: Ops, op: BinaryOp, runs: seq<Value>, lens: seq<nat>, vs: seq<Value>, k: nat)
    requires Associative(ops, op) && Chunked(ops, op, runs, lens, vs) && k < |runs|
    ensures var r := JoinTop(ops, op, runs, k);
            if r.Some? then Chunked(ops, op, r.value, MergeTop(lens, k), vs)
            else vs != [] && JoinAll(ops, op, vs) == None
    decreases k
  {
    hide Associative, Join, JoinAll;
    var n := |lens|;
    if k > 0 {
      var i := TwoChunks(ops, op, runs, lens, vs);
      var v := Join(ops, op, Some(runs[n - 2]), Some(runs[n - 1]));
      if v.None? {
        NoPart(ops, op, vs[..i], vs[i..]);
        assert vs == vs[..i] + vs[i..];
      } else {
        JoinedChunk(ops, op, runs[..n - 2], lens[..n - 2], vs, i, v.value);
        assert lens[n - 2] + lens[n - 1] == |vs| - i;
        JoinKeepsChunks(ops, op, runs[..n - 2] + [v.value], lens[..n - 2] + [lens[n - 2] + lens[n - 1]], vs, k - 1);
      }
    }
  }

  /** One more chunk at the end. */
  lemma JoinedChunk(ops: Ops, op: BinaryOp, runs: seq<Value>, lens: seq<nat>, vs: seq<Value>, i: nat, v: Value)
    requires i < |vs| && Chunked(ops, op, runs, lens, vs[..i]) && JoinAll(ops, op, vs[i..]) == Some(v)
    ensures Chunked(ops, op, runs + [v], lens + [|vs| - i], vs)
  {
    hide JoinAll;
    assert (runs + [v])[..|runs|] == runs && (lens + [|vs| - i])[..|lens|] == lens;
  }

  lemma PushChunk(ops: Ops, op: BinaryOp, runs: seq<Value>, lens: seq<nat>, vs: seq<Value>, v: Value)
    requires Chunked(ops, op, runs, lens, vs)
    ensures Chunked(ops, op, runs + [v], lens + [1], vs + [v])
  {
    assert (vs + [v])[|vs|..] == [v];
    assert (runs + [v])[..|runs|] == runs && (lens + [1])[..|lens|] == lens && (vs + [v])[..|vs|] == vs;
  }

  /** After the `i`-th value and the joins its number asks for, the runs are those of `i` values. */
  lemma NextRuns(ops: Ops, op: BinaryOp, runs: seq<Value>, vs: seq<Value>, v: Value)
    requires Associative(ops, op) && Chunked(ops, op, runs, Lens(|vs|), vs)
    ensures var i := |vs| + 1;
            && |runs| == CountOnes(|vs|) && TrailingZeros(i) < |runs + [v]|
            && var r := JoinTop(ops, op, runs + [v], TrailingZeros(i));
               if r.Some? then Chunked(ops, op, r.value, Lens(i), vs + [v]) && |r.value| == CountOnes(i)
               else JoinAll(ops, op, vs + [v]) == None
  {
    hide Associative, JoinAll, JoinTop, MergeTop;
    var i := |vs| + 1;
    LensTotal(|vs|);
    LensTotal(i);
    Carries(i);
    PushChunk(ops, op, runs, Lens(|vs|), vs, v);
    JoinKeepsChunks(ops, op, runs + [v], Lens(|vs|) + [1], vs + [v], TrailingZeros(i));
  }

  /** Joining the runs left at the end gives all values joined from the left. */
  lemma LastRuns(ops: Ops, op: BinaryOp, runs: seq<Value>, vs: seq<Value>)
    requires Associative(ops, op) && vs != [] && Chunked(ops, op, runs, Lens(|vs|), vs)
    ensures |runs| == CountOnes(|vs|) > 0
    ensures var r := JoinTop(ops, op, runs, |runs| - 1);
            if r.Some? then |r.value| == 1 && JoinAll(ops, op, vs) == Some(r.value[0]) else JoinAll(ops, op, vs) == None
  {
    hide Associative, JoinAll, JoinTop, MergeTop;
    LensTotal(|vs|);
    JoinKeepsChunks(ops, op, runs, Lens(|vs|), vs, |runs| - 1);
    MergeAll(Lens(|vs|));
    assert vs[|vs| - |vs|..] == vs;
  }
}
