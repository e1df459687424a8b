/** Lowering chains of set operators: what a regrouped chain gives is what the chain, grouped from the left, means. */
module SetChains {
  import opened Options

  datatype Operator = Union | Intersect | Except | OtherOperator(id: nat)

  datatype Binary = Binary(operator: Operator, left: Path, right: Path)

  /** A path of one step that is one binary expression is the left part of a longer chain; a parenthesized operand is a path
      inside such a step, and so no part of the chain around it. */
  datatype Path = Path(steps: seq<Step>)

  datatype Step = Primary(exprs: seq<Single>) | OtherStep(id: nat)

  datatype Single = BinarySingle(binary: Binary) | PathSingle(path: Path) | OtherSingle(id: nat)

  type Nodes = set<int>

  function ChainedBinary(path: Path): Option<Binary> {
    if |path.steps| == 1 && path.steps[0].Primary? && |path.steps[0].exprs| == 1 && path.steps[0].exprs[0].BinarySingle? then
      Some(path.steps[0].exprs[0].binary)
    else None
  }

  // ----- meaning -----

  /** Both operands are evaluated; an error in either is an error. */
  function Apply(operator: Operator, a: Option<Nodes>, b: Option<Nodes>): Option<Nodes> {
    if a.None? || b.None? then None
    else
      match operator
      case Union => Some(a.value + b.value)
      case Intersect => Some(a.value * b.value)
      case Except => Some(a.value - b.value)
      case OtherOperator(_) => None
  }

  /** The set an expression means, given what operands that are no set expressions mean. */
  ghost function Meaning(ast: Binary, leaf: Path -> Option<Nodes>): Option<Nodes> {
    Apply(ast.operator, PathMeaning(ast.left, leaf), PathMeaning(ast.right, leaf))
  }

  ghost function PathMeaning(path: Path, leaf: Path -> Option<Nodes>): Option<Nodes> {
    var b := ChainedBinary(path);
    if b.Some? && !b.value.operator.OtherOperator? then
      assert b.value == path.steps[0].exprs[0].binary;
      Meaning(b.value, leaf)
    else leaf(path)
  }

  // ----- the chain -----

  datatype Link = Link(operator: Operator, operand: Path)

  /** The first operand, and each further one with the operator before it. */
  datatype Chain = Chain(first: Path, rest: seq<Link>)

  predicate InUnion(o: Operator) {
    o == Union
  }

  predicate InDifference(o: Operator) {
    o == Intersect || o == Except
  }

  function ChainOf(ast: Binary, inChain: Operator -> bool): Chain {
    var last := Link(ast.operator, ast.right);
    var left := ChainedBinary(ast.left);
    if left.Some? && inChain(left.value.operator) then
      assert left.value == ast.left.steps[0].exprs[0].binary;
      var c := ChainOf(left.value, inChain);
      Chain(c.first, c.rest + [last])
    else Chain(ast.left, [last])
  }

  function Reversed(s: seq<Link>): seq<Link> {
    if s == [] then [] else Reversed(s[1..]) + [s[0]]
  }

  lemma ReversedMore(s: seq<Link>, x: Link)
    ensures Reversed(s + [x]) == [x] + Reversed(s)
  {
    if s != [] {
      ReversedMore(s[1..], x);
      assert (s + [x])[1..] == s[1..] + [x];
    } else {
      assert ([] + [x])[1..] == [];
    }
  }

  /** The walk down the left operands, and the reversal. */
  method WalkChain(ast: Binary, inChain: Operator -> bool) returns (first: Path, rest: seq<Link>)
    ensures Chain(first, rest) == ChainOf(ast, inChain)
  {
    rest := [];
    var link := ast;
    assert Reversed([]) == [];
    while true
      invariant ChainOf(ast, inChain) == Chain(ChainOf(link, inChain).first, ChainOf(link, inChain).rest + Reversed(rest))
      decreases link
    {
      ghost var was := rest;
      rest := rest + [Link(link.operator, link.right)];
      ReversedMore(was, Link(link.operator, link.right));
      var left := ChainedBinary(link.left);
      if left.Some? && inChain(left.value.operator) {
        assert left.value == link.left.steps[0].exprs[0].binary;
        ghost var c, x := ChainOf(left.value, inChain).rest, Link(link.operator, link.right);
        assert c + [x] + Reversed(was) == c + ([x] + Reversed(was));
        link := left.value;
      } else {
        break;
      }
    }
    first := link.left;
    var i := 0;
    ghost var backwards := rest;
    var forwards := [];
    assert backwards[0..] == backwards;
    while i < |rest|
      invariant i <= |rest| && Reversed(rest) == Reversed(rest[i..]) + forwards
    {
      assert rest[i..][1..] == rest[i + 1..] && rest[i..][0] == rest[i];
      forwards := [rest[i]] + forwards;
      i := i + 1;
    }
    assert rest[i..] == [];
    rest := forwards;
  }

  /** Operands in order, grouped from the left. */
  ghost function Fold(first: Option<Nodes>, rest: seq<Link>, leaf: Path -> Option<Nodes>): Option<Nodes> {
    if rest == [] then first
    else
      var n := |rest| - 1;
      Apply(rest[n].operator, Fold(first, rest[..n], leaf), PathMeaning(rest[n].operand, leaf))
  }

  /** The operands found are those of the expression, and all their operators are in the chain. */
  lemma {:induction false} ChainMeans(ast: Binary, inChain: Operator -> bool, leaf: Path -> Option<Nodes>)
    requires inChain(ast.operator) && forall o :: inChain(o) ==> !o.OtherOperator?
    ensures var c := ChainOf(ast, inChain);
            && Fold(PathMeaning(c.first, leaf), c.rest, leaf) == Meaning(ast, leaf)
            && forall i :: 0 <= i < |c.rest| ==> inChain(c.rest[i].operator)
    decreases ast
  {
    var last := Link(ast.operator, ast.right);
    var left := ChainedBinary(ast.left);
    if left.Some? && inChain(left.value.operator) {
      assert left.value == ast.left.steps[0].exprs[0].binary;
      ChainMeans(left.value, inChain, leaf);
      var c := ChainOf(left.value, inChain);
      assert (c.rest + [last])[..|c.rest|] == c.rest;
    } else {
      assert [last][..0] == [];
    }
  }

  // ----- regrouping -----

  ghost function Meanings(operands: seq<Path>, leaf: Path -> Option<Nodes>): Option<seq<Nodes>> {
    if operands == [] then Some([])
    else
      var n := |operands| - 1;
      var before, last := Meanings(operands[..n], leaf), PathMeaning(operands[n], leaf);
      if before.None? || last.None? then None else Some(before.value + [last.value])
  }

  ghost function UnionAll(sets: seq<Nodes>): Nodes {
    if sets == [] then {} else UnionAll(sets[..|sets| - 1]) + sets[|sets| - 1]
  }

  /** What all sets have; `first` is one of them. */
  ghost function IntersectAll(first: Nodes, sets: seq<Nodes>): Nodes {
    if sets == [] then first else IntersectAll(first, sets[..|sets| - 1]) * sets[|sets| - 1]
  }

  function Operands(rest: seq<Link>, operator: Operator): seq<Path> {
    if rest == [] then []
    else
      var n := |rest| - 1;
      Operands(rest[..n], operator) + if rest[n].operator == operator then [rest[n].operand] else []
  }

  /** The loop that sorts the operands of an intersect and except chain. */
  method Sort(first: Path, rest: seq<Link>) returns (kept: seq<Path>, removed: seq<Path>)
    requires forall i :: 0 <= i < |rest| ==> InDifference(rest[i].operator)
    ensures kept == [first] + Operands(rest, Intersect) && removed == Operands(rest, Except)
  {
    kept, removed := [first], [];
    for i := 0 to |rest|
      invariant kept == [first] + Operands(rest[..i], Intersect) && removed == Operands(rest[..i], Except)
    {
      assert rest[..i + 1][..i] == rest[..i];
      if rest[i].operator == Intersect {
        kept := kept + [rest[i].operand];
      } else {
        removed := removed + [rest[i].operand];
      }
    }
    assert rest[..|rest|] == rest;
  }

  lemma MoreMeanings(operands: seq<Path>, last: Path, leaf: Path -> Option<Nodes>)
    ensures var before, v := Meanings(operands, leaf), PathMeaning(last, leaf);
            Meanings(operands + [last], leaf) == if before.None? || v.None? then None else Some(before.value + [v.value])
  {
    assert (operands + [last])[..|operands|] == operands;
  }

  /** What a lowered chain gives: the kept operands' intersection, without the removed ones' union. */
  ghost function Regrouped(first: Path, rest: seq<Link>, leaf: Path -> Option<Nodes>): Option<Nodes> {
    var f, kept, removed := PathMeaning(first, leaf), Meanings(Operands(rest, Intersect), leaf), Meanings(Operands(rest, Except), leaf);
    if f.None? || kept.None? || removed.None? then None
    else Some(IntersectAll(f.value, kept.value) - UnionAll(removed.value))
  }

  lemma LastSet(sets: seq<Nodes>, s: Nodes, first: Nodes)
    ensures UnionAll(sets + [s]) == UnionAll(sets) + s && IntersectAll(first, sets + [s]) == IntersectAll(first, sets) * s
  {
    assert (sets + [s])[..|sets|] == sets;
  }

  /** An intersect and except chain of any length, grouped from the left, is the intersection of the first operand and those
      after an `intersect`, without the union of those after an `except`; an error in any operand is an error in both. */
  lemma {:induction false} DifferenceRegroups(first: Path, rest: seq<Link>, leaf: Path -> Option<Nodes>)
    requires forall i :: 0 <= i < |rest| ==> InDifference(rest[i].operator)
    ensures Fold(PathMeaning(first, leaf), rest, leaf) == Regrouped(first, rest, leaf)
    decreases |rest|
  {
    hide PathMeaning, Meanings, UnionAll, IntersectAll;
    if rest == [] {
      NoMeanings(leaf);
      NoSets(if PathMeaning(first, leaf).Some? then PathMeaning(first, leaf).value else {});
    } else {
      var n := |rest| - 1;
      DifferenceRegroups(first, rest[..n], leaf);
      var last := rest[n].operand;
      var kept, removed := Operands(rest[..n], Intersect), Operands(rest[..n], Except);
      MoreMeanings(kept, last, leaf);
      MoreMeanings(removed, last, leaf);
      assert kept + [] == kept && removed + [] == removed;
      var f, k, r, v := PathMeaning(first, leaf), Meanings(kept, leaf), Meanings(removed, leaf), PathMeaning(last, leaf);
      if f.Some? && k.Some? && r.Some? && v.Some? {
        LastSet(k.value, v.value, f.value);
        LastSet(r.value, v.value, f.value);
        SetLaws(IntersectAll(f.value, k.value), UnionAll(r.value), v.value);
      }
    }
  }

  lemma SetLaws(a: Nodes, b: Nodes, c: Nodes)
    ensures (a - b) * c == (a * c) - b && (a - b) - c == a - (b + c) && (a + b) + c == a + (b + c)
  {
  }

  lemma NoMeanings(leaf: Path -> Option<Nodes>)
    ensures Meanings([], leaf) == Some([])
  {
  }

  lemma NoSets(first: Nodes)
    ensures UnionAll([]) == {} && IntersectAll(first, []) == first && first - {} == first && first + {} == first
  {
  }

  /** A union chain is the union of all its operands. */
  lemma {:induction false} UnionRegroups(first: Path, rest: seq<Link>, leaf: Path -> Option<Nodes>)
    requires forall i :: 0 <= i < |rest| ==> InUnion(rest[i].operator)
    ensures var f, sets := PathMeaning(first, leaf), Meanings(Operands(rest, Union), leaf);
            Fold(f, rest, leaf) == if f.None? || sets.None? then None else Some(f.value + UnionAll(sets.value))
    ensures |Operands(rest, Union)| == |rest|
    decreases |rest|
  {
    hide PathMeaning, Meanings, UnionAll;
    if rest == [] {
      NoMeanings(leaf);
      NoSets(if PathMeaning(first, leaf).Some? then PathMeaning(first, leaf).value else {});
    } else {
      var n := |rest| - 1;
      UnionRegroups(first, rest[..n], leaf);
      var operands := Operands(rest[..n], Union);
      MoreMeanings(operands, rest[n].operand, leaf);
      var f, sets, v := PathMeaning(first, leaf), Meanings(operands, leaf), PathMeaning(rest[n].operand, leaf);
      if f.Some? && sets.Some? && v.Some? {
        LastSet(sets.value, v.value, {});
        SetLaws(f.value, UnionAll(sets.value), v.value);
      }
    }
  }

  /** An expression of these operators means what its lowering gives. */
  lemma LoweringMeans(ast: Binary, leaf: Path -> Option<Nodes>)
    ensures InDifference(ast.operator) ==>
              var c := ChainOf(ast, InDifference); Regrouped(c.first, c.rest, leaf) == Meaning(ast, leaf)
    ensures InUnion(ast.operator) ==>
              var c := ChainOf(ast, InUnion);
              var f, sets := PathMeaning(c.first, leaf), Meanings(Operands(c.rest, Union), leaf);
              Meaning(ast, leaf) == if f.None? || sets.None? then None else Some(f.value + UnionAll(sets.value))
  {
    if InDifference(ast.operator) {
      ChainMeans(ast, InDifference, leaf);
      DifferenceRegroups(ChainOf(ast, InDifference).first, ChainOf(ast, InDifference).rest, leaf);
    }
    if InUnion(ast.operator) {
      ChainMeans(ast, InUnion, leaf);
      UnionRegroups(ChainOf(ast, InUnion).first, ChainOf(ast, InUnion).rest, leaf);
    }
  }
}
