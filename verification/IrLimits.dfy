/** Which expressions compile: exactly those whose names are known and whose code keeps the limits of its fields. */
module IrLimits {
  import opened Options
  import opened IrCode
  import opened IrMachine
  import opened IrExpr
  import opened IrJoins
  import opened IrEmission

  /**
   * What an expression costs: whether every jump in it is at most 32,767 bytes long and every name in it has a slot below
   * 65,536, the bytes of its code, its constants, and the names it captures.
   */
  datatype Cost = Cost(jumps: bool, names: bool, size: nat, constants: nat, captured: set<Name>)

  ghost function Plus(a: Cost, b: Cost): Cost {
    Cost(a.jumps && b.jumps, a.names && b.names, a.size + b.size, a.constants + b.constants, a.captured + b.captured)
  }

  ghost function Bytes(n: nat): Cost {
    Cost(true, true, n, 0, {})
  }

  /** Constants, each with the instruction that pushes it. */
  ghost function Constants(n: nat): Cost {
    Cost(true, true, 3 * n, n, {})
  }

  /** The name stands on the stack, and nowhere past the last slot. */
  ghost predicate InReach(names: seq<Name>, name: Name) {
    name in names && forall k :: 0x10000 <= k < |names| ==> names[k] != name
  }

  ghost function NameCost(name: Name, scope: Scope): Cost {
    if name in scope.names then Cost(true, InReach(scope.names, name), 3, 0, {})
    else Cost(true, Known(scope.outer, name), 3, 0, {name})
  }

  ghost function AtomCost(a: Atom, scope: Scope): Cost {
    match a
    case Constant(_) => Constants(1)
    case Variable(name) => NameCost(name, scope)
  }

  ghost function SetCost(name: Name, scope: Scope): Cost {
    Cost(true, InReach(scope.names, name), 3, 0, {})
  }

  /** A loop over a sequence up to its item, without its jumps. */
  ghost function LoopCost(names: ContextNames, over: Atom, scope: Scope): Cost {
    var inside := LoopScope(scope, names);
    var init := Plus(Plus(AtomCost(over, scope), Bytes(1)), Constants(1));
    var test := Plus(Plus(NameCost(names.position, inside), NameCost(names.last, inside)), Bytes(1));
    var get := Plus(Plus(NameCost(names.position, inside), AtomCost(over, inside)), Bytes(1));
    Plus(Plus(init, test), get)
  }

  ghost function NextCost(names: ContextNames, inside: Scope): Cost {
    Plus(Plus(Plus(NameCost(names.position, inside), Constants(1)), Bytes(1)), SetCost(names.position, inside))
  }

  ghost function KeepCost(names: ContextNames, inside: Scope): Cost {
    Plus(NameCost(names.position, inside), Bytes(14))
  }

  /** The rest of a loop, whose jump back is `back` bytes long. */
  ghost function Looped(c: Cost, bytes: nat, back: nat): Cost {
    Plus(c, Bytes(bytes)).(jumps := c.jumps && back <= 0x7FFF)
  }

  ghost function CostOf(e: Expr, scope: Scope): Cost
    decreases e, 0
  {
    match e
    case AtomExpr(atom) => AtomCost(atom, scope)
    case Let(name, value, body) => Plus(CostOf(value, scope), Plus(CostOf(body, Bound(scope, name)), Bytes(1)))
    case If(condition, whenTrue, whenFalse) =>
      var x, y := CostOf(whenTrue, scope), CostOf(whenFalse, scope);
      var c := Plus(Plus(AtomCost(condition, scope), x), y);
      Plus(c, Bytes(6)).(jumps := c.jumps && x.size + 3 <= 0x7FFF && y.size <= 0x7FFF)
    case Binary(_, left, right) => Plus(Plus(AtomCost(left, scope), AtomCost(right, scope)), Bytes(1))
    case And(left, right) => Plus(Plus(AtomCost(left, scope), AtomCost(right, scope)), Plus(Constants(2), Bytes(10)))
    case Or(left, right) => Plus(Plus(AtomCost(left, scope), AtomCost(right, scope)), Plus(Constants(2), Bytes(10)))
    case Unary(_, atom) => Plus(AtomCost(atom, scope), Bytes(1))
    case Distinct(operand) => Plus(CostOf(operand, scope), Bytes(1))
    case Mapped(names, over, body) =>
      var inside := LoopScope(scope, names);
      var value := CostOf(body, Bound(inside, names.item));
      Looped(Plus(Plus(LoopCost(names, over, scope), value), NextCost(names, inside)), 12, value.size + 32)
    case Filter(names, over, body) =>
      var inside := LoopScope(scope, names);
      var value := CostOf(body, Bound(inside, names.item));
      var kept := Plus(Plus(LoopCost(names, over, scope), value), KeepCost(names, inside));
      Looped(Plus(kept, NextCost(names, inside)), 10, value.size + 47)
    case Quantified(_, names, over, body) =>
      var inside := LoopScope(scope, names);
      var value := CostOf(body, Bound(inside, names.item));
      var c := Plus(Plus(LoopCost(names, over, scope), value), NextCost(names, inside));
      Looped(Plus(c, Constants(2)), 18, value.size + 34)
    case Joined(_, items) => if items == [] then Constants(1) else Plus(ItemsCost(items, 0, scope), Bytes(|items| - 1))
  }

  /** The items from the `i`-th on, each above the runs that wait. */
  ghost function ItemsCost(items: seq<Expr>, i: nat, scope: Scope): Cost
    requires i <= |items|
    decreases items, |items| - i
  {
    if i == |items| then Bytes(0)
    else Plus(CostOf(items[i], Waiting(scope, CountOnes(i))), ItemsCost(items, i + 1, scope))
  }

  // ----- what was emitted is what it costs -----

  ghost function Elements(names: seq<Name>): set<Name> {
    set x | x in names
  }

  /** The tables have not passed their limits. */
  ghost predicate Kept(t: Tables) {
    |t.constants| <= 0x10000 && |t.closures| <= 0x10000
  }

  /** The names are known, the jumps are short enough, and the tables have room: at most 65,536 entries each. */
  ghost predicate Affords(t: Tables, c: Cost) {
    && c.jumps && c.names && |t.constants| + c.constants <= 0x10000
    && |t.closures| + |c.captured - Elements(t.closures)| <= 0x10000
  }

  ghost predicate Spent(t: Tables, u: Tables, c: Cost) {
    && |u.constants| == |t.constants| + c.constants
    && Elements(u.closures) == Elements(t.closures) + c.captured
    && |u.closures| == |t.closures| + |c.captured - Elements(t.closures)|
  }

  /** It is emitted if and only if it is affordable, and then costs what was said. */
  ghost predicate Counted(e: Emitted, t: Tables, c: Cost) {
    && (e.Emitted? <==> Affords(t, c))
    && (e.Emitted? ==> |e.code| == c.size && Spent(t, e.tables, c))
  }

  lemma SpentTwice(t: Tables, u: Tables, a: Cost, b: Cost)
    requires Spent(t, u, a)
    ensures |t.closures| + |Plus(a, b).captured - Elements(t.closures)| == |u.closures| + |b.captured - Elements(u.closures)|
  {
    var before := Elements(t.closures);
    var x, y := a.captured - before, b.captured - (before + a.captured);
    assert Plus(a, b).captured - before == x + y;
    assert x !! y;
  }

  lemma FewerCaptured(t: Tables, a: Cost, b: Cost)
    ensures |a.captured - Elements(t.closures)| <= |Plus(a, b).captured - Elements(t.closures)|
  {
    var before := Elements(t.closures);
    var x, y := a.captured - before, (b.captured - a.captured) - before;
    assert Plus(a, b).captured - before == x + y;
    assert x !! y;
  }

  lemma BothCounted(a: Emitted, b: Emitted, t: Tables, x: Cost, y: Cost)
    requires Kept(t) && Counted(a, t, x) && (a.Emitted? ==> Counted(b, a.tables, y))
    ensures Counted(EmitBoth(a, b), t, Plus(x, y)) && (a.Emitted? ==> Kept(a.tables))
    ensures EmitBoth(a, b).Emitted? ==> Kept(b.tables)
  {
    hide Elements;
    if a.Emitted? {
      SpentTwice(t, a.tables, x, y);
      if b.Emitted? {
        assert Elements(b.tables.closures) == Elements(t.closures) + Plus(x, y).captured;
      }
    } else {
      FewerCaptured(t, x, y);
    }
  }

  lemma EndCounted(a: Emitted, c: Code, t: Tables, x: Cost)
    requires Kept(t) && Counted(a, t, x)
    ensures Counted(Ending(a, c), t, Plus(x, Bytes(|c|))) && (Ending(a, c).Emitted? ==> Kept(a.tables))
  {
    assert Plus(x, Bytes(|c|)).captured == x.captured;
  }

  // ----- atoms -----

  lemma ConstantCounted(items: Sequence, t: Tables)
    requires Kept(t)
    ensures Counted(EmitConstant(items, t), t, Constants(1))
  {
    var c := Constants(1);
    assert c.captured - Elements(t.closures) == {};
    if |t.constants| < 0x10000 {
      assert Fits(Const(|t.constants|));
    }
  }

  lemma {:induction false} LastIsInReach(names: seq<Name>, name: Name)
    ensures LastIndex(names, name).Some? <==> name in names
    ensures LastIndex(names, name).Some? ==> (LastIndex(names, name).value < 0x10000 <==> InReach(names, name))
    decreases |names|
  {
    if names != [] {
      var n := |names| - 1;
      assert names == names[..n] + [names[n]];
      if names[n] != name {
        LastIsInReach(names[..n], name);
        assert forall k :: 0 <= k < n ==> names[k] == names[..n][k];
      }
    }
  }

  lemma {:induction false} FirstIsThere(names: seq<Name>, name: Name)
    ensures FirstIndex(names, name).Some? <==> name in names
    decreases |names|
  {
    if names != [] {
      assert names == [names[0]] + names[1..];
      FirstIsThere(names[1..], name);
    }
  }

  lemma ClosureCounted(name: Name, t: Tables)
    requires Kept(t)
    ensures Counted(EmitClosureVar(name, t), t, Cost(true, true, 3, 0, {name}))
  {
    var before := Elements(t.closures);
    FirstIsThere(t.closures, name);
    if name in t.closures {
      assert {name} - before == {};
      assert before + {name} == before;
    } else {
      assert {name} - before == {name};
      var more := t.closures + [name];
      assert Elements(more) == before + {name};
      if |t.closures| < 0x10000 {
        assert Fits(ClosureVar(|t.closures|));
      }
    }
  }

  lemma NameCounted(name: Name, scope: Scope, t: Tables)
    requires Kept(t)
    ensures Counted(EmitVariable(name, scope, t), t, NameCost(name, scope))
  {
    hide InReach, Known;
    LastIsInReach(scope.names, name);
    if name in scope.names {
      assert {} - Elements(t.closures) == {};
      assert Elements(t.closures) + {} == Elements(t.closures);
    } else {
      ClosureCounted(name, t);
    }
  }

  lemma AtomCounted(a: Atom, scope: Scope, t: Tables)
    requires Kept(t)
    ensures Counted(EmitAtom(a, scope, t), t, AtomCost(a, scope))
  {
    match a
    case Constant(items) => ConstantCounted(items, t);
    case Variable(name) => NameCounted(name, scope, t);
  }

  lemma SetCounted(name: Name, scope: Scope, t: Tables)
    requires Kept(t)
    ensures Counted(EmitSet(name, scope, t), t, SetCost(name, scope))
  {
    hide InReach;
    LastIsInReach(scope.names, name);
    assert {} - Elements(t.closures) == {};
    assert Elements(t.closures) + {} == Elements(t.closures);
    NotInReach(scope.names, name);
  }

  lemma NotInReach(names: seq<Name>, name: Name)
    ensures InReach(names, name) ==> name in names
  {
  }

  lemma TwoCounted(a: Atom, b: Atom, scope: Scope, t: Tables)
    requires Kept(t)
    ensures Counted(EmitTwo(a, b, scope, t), t, Plus(AtomCost(a, scope), AtomCost(b, scope)))
    ensures EmitTwo(a, b, scope, t).Emitted? ==> Kept(EmitTwo(a, b, scope, t).tables)
  {
    hide Counted, EmitAtom, AtomCost;
    var x := EmitAtom(a, scope, t);
    AtomCounted(a, scope, t);
    StillKept(x, t, AtomCost(a, scope));
    if x.Emitted? {
      AtomCounted(b, scope, x.tables);
    }
    BothCounted(x, EmitAtom(b, scope, After(x, t)), t, AtomCost(a, scope), AtomCost(b, scope));
  }

  lemma StillKept(e: Emitted, t: Tables, c: Cost)
    requires Kept(t) && Counted(e, t, c)
    ensures e.Emitted? ==> Kept(e.tables)
  {
  }

  lemma ConnectiveCounted(decides: bool, t: Tables)
    requires Kept(t)
    ensures Counted(EmitConnective(decides, t), t, Plus(Constants(2), Bytes(10)))
  {
    hide Encode;
    var c := Plus(Constants(2), Bytes(10));
    assert c.captured - Elements(t.closures) == {};
    assert Elements(t.closures) + c.captured == Elements(t.closures);
    if |t.constants| + 2 <= 0x10000 {
      EncodeSize(Branch(decides, 9));
      EncodeSize(Branch(decides, 7));
      EncodeSize(Const(|t.constants|));
      EncodeSize(Const(|t.constants| + 1));
      EncodeSize(Jump(4));
      EncodeSize(IrCode.Pop);
    }
  }

  // ----- loops -----

  lemma InitCounted(over: Atom, scope: Scope, t: Tables)
    requires Kept(t)
    ensures Counted(EmitInit(over, scope, t), t, Plus(Plus(AtomCost(over, scope), Bytes(1)), Constants(1)))
  {
    hide Counted, EmitAtom, AtomCost, EmitConstant;
    EncodeSize(SequenceLen);
    var x := EmitAtom(over, scope, t);
    AtomCounted(over, scope, t);
    EndCounted(x, Encode(SequenceLen), t, AtomCost(over, scope));
    var a := Ending(x, Encode(SequenceLen));
    StillKept(a, t, Plus(AtomCost(over, scope), Bytes(1)));
    if a.Emitted? {
      ConstantCounted([Integer(1)], a.tables);
    }
    BothCounted(a, EmitConstant([Integer(1)], After(a, t)), t, Plus(AtomCost(over, scope), Bytes(1)), Constants(1));
  }

  lemma TestCounted(names: ContextNames, inside: Scope, t: Tables)
    requires Kept(t)
    ensures Counted(EmitTest(names, inside, t), t,
                    Plus(Plus(NameCost(names.position, inside), NameCost(names.last, inside)), Bytes(1)))
  {
    hide Counted, EmitVariable, NameCost;
    EncodeSize(Operate2(Gt));
    var a := EmitVariable(names.position, inside, t);
    NameCounted(names.position, inside, t);
    StillKept(a, t, NameCost(names.position, inside));
    if a.Emitted? {
      NameCounted(names.last, inside, a.tables);
    }
    var b := EmitVariable(names.last, inside, After(a, t));
    BothCounted(a, b, t, NameCost(names.position, inside), NameCost(names.last, inside));
    EndCounted(EmitBoth(a, b), Encode(Operate2(Gt)), t, Plus(NameCost(names.position, inside), NameCost(names.last, inside)));
  }

  lemma GetCounted(names: ContextNames, over: Atom, inside: Scope, t: Tables)
    requires Kept(t)
    ensures Counted(EmitGet(names, over, inside, t), t,
                    Plus(Plus(NameCost(names.position, inside), AtomCost(over, inside)), Bytes(1)))
  {
    hide Counted, EmitVariable, NameCost, EmitAtom, AtomCost;
    EncodeSize(SequenceGet);
    var a := EmitVariable(names.position, inside, t);
    NameCounted(names.position, inside, t);
    StillKept(a, t, NameCost(names.position, inside));
    if a.Emitted? {
      AtomCounted(over, inside, a.tables);
    }
    var b := EmitAtom(over, inside, After(a, t));
    BothCounted(a, b, t, NameCost(names.position, inside), AtomCost(over, inside));
    EndCounted(EmitBoth(a, b), Encode(SequenceGet), t, Plus(NameCost(names.position, inside), AtomCost(over, inside)));
  }

  lemma NextCounted(names: ContextNames, inside: Scope, t: Tables)
    requires Kept(t)
    ensures Counted(EmitNext(names, inside, t), t, NextCost(names, inside))
  {
    hide Counted, EmitVariable, NameCost, EmitConstant, EmitSet, SetCost;
    EncodeSize(Operate2(Add));
    var p := NameCost(names.position, inside);
    var a := EmitVariable(names.position, inside, t);
    NameCounted(names.position, inside, t);
    StillKept(a, t, p);
    if a.Emitted? {
      ConstantCounted([Integer(1)], a.tables);
    }
    var one := EmitConstant([Integer(1)], After(a, t));
    var b := EmitBoth(a, one);
    BothCounted(a, one, t, p, Constants(1));
    var c := Ending(b, Encode(Operate2(Add)));
    EndCounted(b, Encode(Operate2(Add)), t, Plus(p, Constants(1)));
    StillKept(c, t, Plus(Plus(p, Constants(1)), Bytes(1)));
    if c.Emitted? {
      SetCounted(names.position, inside, c.tables);
    }
    BothCounted(c, EmitSet(names.position, inside, After(b, t)), t, Plus(Plus(p, Constants(1)), Bytes(1)),
                SetCost(names.position, inside));
  }

  lemma KeepCounted(names: ContextNames, inside: Scope, t: Tables)
    requires Kept(t)
    ensures Counted(EmitKeep(names, inside, t), t, KeepCost(names, inside))
  {
    hide EmitVariable, NameCost, Encode, Elements;
    var position := EmitVariable(names.position, inside, t);
    NameCounted(names.position, inside, t);
    SizeOfName(names.position, inside);
    KeepSize();
    EncodeSize(Dup);
    EncodeSize(IrCode.IsNumeric);
    EncodeSize(JumpIfFalse(4));
    EncodeSize(Operate2(Eq));
    assert KeepCost(names, inside).captured == NameCost(names.position, inside).captured;
  }

  lemma SizeOfName(name: Name, scope: Scope)
    ensures NameCost(name, scope).size == 3
  {
  }

  lemma KeepSize()
    ensures |KEEP| == 8
  {
    hide Encode;
    EncodeSize(JumpIfTrue(4));
    EncodeSize(IrCode.Pop);
    EncodeSize(Jump(1));
    EncodeSize(BuildPush);
  }

  lemma EndSize()
    ensures |LOOP_END| == 2 && |MAP_PUSH| == 2
  {
    hide Encode;
    EncodeSize(IrCode.Pop);
    EncodeSize(BuildPush);
  }

  /** The parts of a loop up to its item, one after the other. */
  ghost function LoopParts(names: ContextNames, over: Atom, scope: Scope, t: Tables): Emitted {
    var inside := LoopScope(scope, names);
    var init := EmitInit(over, scope, t);
    var test := EmitTest(names, inside, After(init, t));
    EmitBoth(EmitBoth(init, test), EmitGet(names, over, inside, After(test, After(init, t))))
  }

  lemma LoopCounted(names: ContextNames, over: Atom, scope: Scope, t: Tables)
    requires Kept(t)
    ensures Counted(LoopParts(names, over, scope, t), t, LoopCost(names, over, scope))
  {
    hide Counted, EmitInit, EmitTest, EmitGet, AtomCost, NameCost;
    var inside := LoopScope(scope, names);
    var i := Plus(Plus(AtomCost(over, scope), Bytes(1)), Constants(1));
    var x := Plus(Plus(NameCost(names.position, inside), NameCost(names.last, inside)), Bytes(1));
    var g := Plus(Plus(NameCost(names.position, inside), AtomCost(over, inside)), Bytes(1));
    var init := EmitInit(over, scope, t);
    InitCounted(over, scope, t);
    StillKept(init, t, i);
    var test := EmitTest(names, inside, After(init, t));
    if init.Emitted? {
      TestCounted(names, inside, init.tables);
    }
    BothCounted(init, test, t, i, x);
    var both := EmitBoth(init, test);
    StillKept(both, t, Plus(i, x));
    if both.Emitted? {
      GetCounted(names, over, inside, both.tables);
    }
    BothCounted(both, EmitGet(names, over, inside, After(test, After(init, t))), t, Plus(i, x), g);
  }

  // ----- expressions -----

  /** An expression is emitted if and only if it is affordable, and then costs what was said. */
  lemma {:induction false} EmitCounts(e: Expr, scope: Scope, t: Tables)
    requires Kept(t)
    ensures Counted(Emit(e, scope, t), t, CostOf(e, scope))
    decreases e, 1, 0
  {
    hide Counted, Encode, EmitAtom, AtomCost, EmitTwo, EmitConnective, EmitConstant;
    match e
    case AtomExpr(atom) => AtomCounted(atom, scope, t);
    case Let(name, value, body) => LetCounts(e, scope, t);
    case If(condition, whenTrue, whenFalse) => IfCounts(e, scope, t);
    case Binary(op, left, right) =>
      EncodeSize(Operate2(op));
      TwoCounted(left, right, scope, t);
      EndCounted(EmitTwo(left, right, scope, t), Encode(Operate2(op)), t, Plus(AtomCost(left, scope), AtomCost(right, scope)));
    case And(left, right) => LogicCounts(left, right, false, scope, t);
    case Or(left, right) => LogicCounts(left, right, true, scope, t);
    case Unary(op, atom) =>
      EncodeSize(Operate1(op));
      AtomCounted(atom, scope, t);
      EndCounted(EmitAtom(atom, scope, t), Encode(Operate1(op)), t, AtomCost(atom, scope));
    case Distinct(operand) =>
      EncodeSize(Operate1(Deduplicate));
      EmitCounts(operand, scope, t);
      EndCounted(Emit(operand, scope, t), Encode(Operate1(Deduplicate)), t, CostOf(operand, scope));
    case Mapped(_, _, _) => MappedCounts(e, scope, t);
    case Filter(_, _, _) => FilterCounts(e, scope, t);
    case Quantified(_, _, _, _) => QuantifiedCounts(e, scope, t);
    case Joined(join, items) =>
      if items == [] {
        ConstantCounted([], t);
      } else {
        ItemsCount(join, items, 0, scope, t);
      }
  }

  lemma LogicCounts(left: Atom, right: Atom, decides: bool, scope: Scope, t: Tables)
    requires Kept(t)
    ensures var a := EmitTwo(left, right, scope, t);
            Counted(EmitBoth(a, EmitConnective(decides, After(a, t))), t,
                    Plus(Plus(AtomCost(left, scope), AtomCost(right, scope)), Plus(Constants(2), Bytes(10))))
  {
    hide Counted, EmitTwo, EmitConnective, AtomCost;
    var a := EmitTwo(left, right, scope, t);
    TwoCounted(left, right, scope, t);
    if a.Emitted? {
      ConnectiveCounted(decides, a.tables);
    }
    BothCounted(a, EmitConnective(decides, After(a, t)), t, Plus(AtomCost(left, scope), AtomCost(right, scope)),
                Plus(Constants(2), Bytes(10)));
  }

  lemma {:induction false} LetCounts(e: Expr, scope: Scope, t: Tables)
    requires e.Let? && Kept(t)
    ensures Counted(Emit(e, scope, t), t, CostOf(e, scope))
    decreases e, 0, 0
  {
    hide Counted, Encode;
    var inside := Bound(scope, e.name);
    EncodeSize(LetDone);
    EmitCounts(e.value, scope, t);
    var a := Emit(e.value, scope, t);
    StillKept(a, t, CostOf(e.value, scope));
    if a.Emitted? {
      EmitCounts(e.body, inside, a.tables);
      EndCounted(Emit(e.body, inside, a.tables), Encode(LetDone), a.tables, CostOf(e.body, inside));
    }
    BothCounted(a, Ending(Emit(e.body, inside, After(a, t)), Encode(LetDone)), t, CostOf(e.value, scope),
                Plus(CostOf(e.body, inside), Bytes(1)));
  }

  lemma {:induction false} IfCounts(e: Expr, scope: Scope, t: Tables)
    requires e.If? && Kept(t)
    ensures Counted(Emit(e, scope, t), t, CostOf(e, scope))
    decreases e, 0, 0
  {
    hide Counted, Encode, EmitAtom, AtomCost;
    var c := EmitAtom(e.condition, scope, t);
    AtomCounted(e.condition, scope, t);
    StillKept(c, t, AtomCost(e.condition, scope));
    var x := Emit(e.whenTrue, scope, After(c, t));
    if c.Emitted? {
      EmitCounts(e.whenTrue, scope, c.tables);
    }
    BothCounted(c, x, t, AtomCost(e.condition, scope), CostOf(e.whenTrue, scope));
    var y := Emit(e.whenFalse, scope, After(x, After(c, t)));
    if c.Emitted? && x.Emitted? {
      EmitCounts(e.whenFalse, scope, x.tables);
    }
    var two := Plus(AtomCost(e.condition, scope), CostOf(e.whenTrue, scope));
    BothCounted(EmitBoth(c, x), y, t, two, CostOf(e.whenFalse, scope));
    IfSizes(e, scope, t, c, x, y);
  }

  lemma IfSizes(e: Expr, scope: Scope, t: Tables, c: Emitted, x: Emitted, y: Emitted)
    requires e.If? && Kept(t) && c == EmitAtom(e.condition, scope, t)
    requires x == Emit(e.whenTrue, scope, After(c, t)) && y == Emit(e.whenFalse, scope, After(x, After(c, t)))
    requires Counted(c, t, AtomCost(e.condition, scope))
    requires c.Emitted? ==> Counted(x, c.tables, CostOf(e.whenTrue, scope))
    requires c.Emitted? && x.Emitted? ==> Counted(y, x.tables, CostOf(e.whenFalse, scope))
    requires Counted(EmitBoth(EmitBoth(c, x), y), t,
                     Plus(Plus(AtomCost(e.condition, scope), CostOf(e.whenTrue, scope)), CostOf(e.whenFalse, scope)))
    ensures Counted(Emit(e, scope, t), t, CostOf(e, scope))
  {
    hide EmitAtom, AtomCost, Elements, Encode;
    var all := EmitBoth(EmitBoth(c, x), y);
    var sum := Plus(Plus(AtomCost(e.condition, scope), CostOf(e.whenTrue, scope)), CostOf(e.whenFalse, scope));
    assert Plus(sum, Bytes(6)).captured == sum.captured;
    if all.Emitted? && |x.code| + 3 <= 0x7FFF && |y.code| <= 0x7FFF {
      EncodeSize(JumpIfFalse(|x.code| + 3));
      EncodeSize(Jump(|y.code|));
    }
  }

  /** A loop's parts with the value of its body. */
  ghost function ValueParts(names: ContextNames, over: Atom, body: Expr, scope: Scope, t: Tables): Emitted {
    var inside := LoopScope(scope, names);
    var parts := LoopParts(names, over, scope, t);
    EmitBoth(parts, Emit(body, Bound(inside, names.item), After(parts, t)))
  }

  lemma {:induction false} ValueCounted(names: ContextNames, over: Atom, body: Expr, scope: Scope, t: Tables)
    requires Kept(t)
    ensures var value := CostOf(body, Bound(LoopScope(scope, names), names.item));
            && Counted(ValueParts(names, over, body, scope, t), t, Plus(LoopCost(names, over, scope), value))
            && (ValueParts(names, over, body, scope, t).Emitted? ==> Kept(ValueParts(names, over, body, scope, t).tables))
    decreases body, 2, 0
  {
    hide Counted, LoopParts, LoopCost;
    var inside := Bound(LoopScope(scope, names), names.item);
    var parts := LoopParts(names, over, scope, t);
    LoopCounted(names, over, scope, t);
    StillKept(parts, t, LoopCost(names, over, scope));
    if parts.Emitted? {
      EmitCounts(body, inside, parts.tables);
    }
    BothCounted(parts, Emit(body, inside, After(parts, t)), t, LoopCost(names, over, scope), CostOf(body, inside));
    StillKept(ValueParts(names, over, body, scope, t), t, Plus(LoopCost(names, over, scope), CostOf(body, inside)));
  }

  /** The parts of a loop are refused together, and their sizes are known. */
  ghost predicate Parted(q: LoopParted, parts: Emitted, value: Cost) {
    && (parts.Emitted? <==> q.init.Emitted? && q.test.Emitted? && q.get.Emitted? && q.value.Emitted?)
    && (parts.Emitted? ==>
          && parts.tables == q.value.tables && |q.init.code| == 7 && |q.test.code| == 7 && |q.get.code| == 7
          && |q.value.code| == value.size)
  }

  lemma {:induction false} PartsAre(names: ContextNames, over: Atom, body: Expr, scope: Scope, t: Tables)
    requires Kept(t)
    ensures Parted(PartsOf(names, over, body, scope, t), ValueParts(names, over, body, scope, t),
                   CostOf(body, Bound(LoopScope(scope, names), names.item)))
    decreases body, 2, 0
  {
    hide EmitInit, EmitTest, EmitGet, EmitKeep, Emit, CostOf, Counted, Kept;
    var inside := LoopScope(scope, names);
    var q := PartsOf(names, over, body, scope, t);
    InitSize(over, scope, t);
    if q.init.Emitted? {
      TestSize(names, inside, q.init.tables);
      if q.test.Emitted? {
        GetSize(names, over, inside, q.test.tables);
        if q.get.Emitted? {
          EmitCounts(body, Bound(inside, names.item), q.get.tables);
          CountedSize(q.value, q.get.tables, CostOf(body, Bound(inside, names.item)));
        }
      }
    }
  }

  lemma CountedSize(e: Emitted, t: Tables, c: Cost)
    requires Counted(e, t, c)
    ensures e.Emitted? ==> |e.code| == c.size
  {
  }

  lemma InitSize(over: Atom, scope: Scope, t: Tables)
    requires Kept(t)
    ensures var e := EmitInit(over, scope, t); e.Emitted? ==> |e.code| == 7 && Kept(e.tables)
  {
    hide EmitInit, AtomCost, Counted;
    var c := Plus(Plus(AtomCost(over, scope), Bytes(1)), Constants(1));
    InitCounted(over, scope, t);
    SizeOfAtom(over, scope);
    CountedSize(EmitInit(over, scope, t), t, c);
    StillKept(EmitInit(over, scope, t), t, c);
  }

  lemma TestSize(names: ContextNames, inside: Scope, t: Tables)
    requires Kept(t)
    ensures var e := EmitTest(names, inside, t); e.Emitted? ==> |e.code| == 7 && Kept(e.tables)
  {
    hide EmitTest, Counted, InReach, Known;
    var c := Plus(Plus(NameCost(names.position, inside), NameCost(names.last, inside)), Bytes(1));
    TestCounted(names, inside, t);
    CountedSize(EmitTest(names, inside, t), t, c);
    StillKept(EmitTest(names, inside, t), t, c);
  }

  lemma GetSize(names: ContextNames, over: Atom, inside: Scope, t: Tables)
    requires Kept(t)
    ensures var e := EmitGet(names, over, inside, t); e.Emitted? ==> |e.code| == 7 && Kept(e.tables)
  {
    hide EmitGet, AtomCost, Counted, InReach, Known;
    var c := Plus(Plus(NameCost(names.position, inside), AtomCost(over, inside)), Bytes(1));
    GetCounted(names, over, inside, t);
    SizeOfAtom(over, inside);
    CountedSize(EmitGet(names, over, inside, t), t, c);
    StillKept(EmitGet(names, over, inside, t), t, c);
  }

  lemma SizeOfAtom(a: Atom, scope: Scope)
    ensures AtomCost(a, scope).size == 3
  {
  }

  lemma NextSize(names: ContextNames, inside: Scope, t: Tables)
    requires Kept(t)
    ensures NextCost(names, inside).size == 10
    ensures var e := EmitNext(names, inside, t); e.Emitted? ==> |e.code| == 10
  {
    hide EmitNext;
    NextCounted(names, inside, t);
  }

  lemma LoopSize(names: ContextNames, over: Atom, scope: Scope)
    ensures LoopCost(names, over, scope).size == 21
  {
    SizeOfAtom(over, scope);
    SizeOfAtom(over, LoopScope(scope, names));
  }

  /** A loop is emitted if and only if its parts are and its jump back fits. */
  lemma LoopEnds(e: Emitted, parts: Emitted, t: Tables, c: Cost, bytes: nat, back: nat)
    requires Counted(parts, t, c) && (e.Emitted? <==> parts.Emitted? && back <= 0x7FFF)
    requires e.Emitted? ==> e.tables == parts.tables && |e.code| == c.size + bytes
    ensures Counted(e, t, Looped(c, bytes, back))
  {
    assert Looped(c, bytes, back).captured == c.captured;
  }

  /** The loop's parts up to the value of its body, and the step to the next position. */
  lemma {:induction false} StepCounted(names: ContextNames, over: Atom, body: Expr, scope: Scope, t: Tables)
    requires Kept(t)
    ensures var inside := LoopScope(scope, names);
            var parts := ValueParts(names, over, body, scope, t);
            var c := Plus(LoopCost(names, over, scope), CostOf(body, Bound(inside, names.item)));
            Counted(EmitBoth(parts, EmitNext(names, inside, After(parts, t))), t, Plus(c, NextCost(names, inside)))
    decreases body, 3, 0
  {
    hide Counted, LoopCost, NextCost, ValueParts, EmitNext;
    var inside := LoopScope(scope, names);
    var parts := ValueParts(names, over, body, scope, t);
    ValueCounted(names, over, body, scope, t);
    if parts.Emitted? {
      NextCounted(names, inside, parts.tables);
    }
    BothCounted(parts, EmitNext(names, inside, After(parts, t)), t,
                Plus(LoopCost(names, over, scope), CostOf(body, Bound(inside, names.item))), NextCost(names, inside));
  }

  lemma {:induction false} MappedCounts(e: Expr, scope: Scope, t: Tables)
    requires e.Mapped? && Kept(t)
    ensures Counted(Emit(e, scope, t), t, CostOf(e, scope))
    decreases e, 0, 0
  {
    hide Counted, Encode, LoopCost, NextCost, ValueParts, EmitNext, EmitInit, EmitTest, EmitGet, EmitKeep, LoopCode, MAP_PUSH, LOOP_END;
    var inside := LoopScope(scope, e.names);
    var value := CostOf(e.body, Bound(inside, e.names.item));
    var q := PartsOf(e.names, e.over, e.body, scope, t);
    var parts := ValueParts(e.names, e.over, e.body, scope, t);
    var next := EmitNext(e.names, inside, After(parts, t));
    StepCounted(e.names, e.over, e.body, scope, t);
    PartsAre(e.names, e.over, e.body, scope, t);
    ValueCounted(e.names, e.over, e.body, scope, t);
    LoopSize(e.names, e.over, scope);
    EndSize();
    if parts.Emitted? {
      NextSize(e.names, inside, parts.tables);
      var inner := Ending(EmitBoth(q.get, q.value), MAP_PUSH);
      if next.Emitted? && value.size + 32 <= 0x7FFF {
        LoopCodeSize(q.test.code, inner.code, next.code);
        EncodeSize(BuildNew);
        EncodeSize(BuildComplete);
      }
    }
    var c := Plus(LoopCost(e.names, e.over, scope), value);
    NextSize(e.names, inside, Tables([], []));
    LoopEnds(Emit(e, scope, t), EmitBoth(parts, next), t, Plus(c, NextCost(e.names, inside)), 12, value.size + 32);
  }

  lemma LoopCodeSize(test: Code, inner: Code, next: Code)
    requires LoopFits(test, inner, next)
    ensures |LoopCode(test, inner, next)| == |test| + |inner| + |next| + 6
  {
    hide Encode;
    EncodeSize(JumpIfTrue(|inner| + |next| + 3));
    EncodeSize(Jump(-(|test| + |inner| + |next| + 6)));
  }

  lemma {:induction false} FilterCounts(e: Expr, scope: Scope, t: Tables)
    requires e.Filter? && Kept(t)
    ensures Counted(Emit(e, scope, t), t, CostOf(e, scope))
    decreases e, 0, 0
  {
    hide Counted, Encode, LoopCost, NextCost, KeepCost, ValueParts, EmitNext, EmitInit, EmitTest, EmitGet, EmitKeep, LoopCode, LOOP_END;
    var inside := LoopScope(scope, e.names);
    var value := CostOf(e.body, Bound(inside, e.names.item));
    var q := PartsOf(e.names, e.over, e.body, scope, t);
    var parts := ValueParts(e.names, e.over, e.body, scope, t);
    var c := Plus(LoopCost(e.names, e.over, scope), value);
    var keep := EmitKeep(e.names, inside, After(parts, t));
    PartsAre(e.names, e.over, e.body, scope, t);
    ValueCounted(e.names, e.over, e.body, scope, t);
    if parts.Emitted? {
      KeepCounted(e.names, inside, parts.tables);
      SizeOfKeep(e.names, inside, parts.tables);
    }
    BothCounted(parts, keep, t, c, KeepCost(e.names, inside));
    var kept := EmitBoth(parts, keep);
    var next := EmitNext(e.names, inside, After(kept, t));
    if kept.Emitted? {
      NextCounted(e.names, inside, kept.tables);
      NextSize(e.names, inside, kept.tables);
    }
    BothCounted(kept, next, t, Plus(c, KeepCost(e.names, inside)), NextCost(e.names, inside));
    LoopSize(e.names, e.over, scope);
    NextSize(e.names, inside, Tables([], []));
    EndSize();
    if kept.Emitted? && next.Emitted? && value.size + 47 <= 0x7FFF {
      LoopCodeSize(q.test.code, q.get.code + q.value.code + keep.code, next.code);
      EncodeSize(BuildNew);
      EncodeSize(BuildComplete);
    }
    KeepBytes(e.names, inside);
    LoopEnds(Emit(e, scope, t), EmitBoth(kept, next), t, Plus(Plus(c, KeepCost(e.names, inside)), NextCost(e.names, inside)), 10,
             value.size + 47);
  }

  lemma KeepBytes(names: ContextNames, inside: Scope)
    ensures KeepCost(names, inside).size == 17
  {
  }

  lemma SizeOfKeep(names: ContextNames, inside: Scope, t: Tables)
    requires Kept(t)
    ensures var e := EmitKeep(names, inside, t); e.Emitted? ==> |e.code| == 17
  {
    hide EmitKeep;
    KeepCounted(names, inside, t);
  }

  lemma {:induction false} QuantifiedCounts(e: Expr, scope: Scope, t: Tables)
    requires e.Quantified? && Kept(t)
    ensures Counted(Emit(e, scope, t), t, CostOf(e, scope))
    decreases e, 0, 0
  {
    hide Counted, Encode, LoopCost, NextCost, ValueParts, EmitNext, EmitInit, EmitTest, EmitGet, EmitKeep, LoopCode, QuantifiedEnd;
    var inside := LoopScope(scope, e.names);
    var value := CostOf(e.body, Bound(inside, e.names.item));
    var q := PartsOf(e.names, e.over, e.body, scope, t);
    var parts := ValueParts(e.names, e.over, e.body, scope, t);
    var next := EmitNext(e.names, inside, After(parts, t));
    var c := Plus(Plus(LoopCost(e.names, e.over, scope), value), NextCost(e.names, inside));
    StepCounted(e.names, e.over, e.body, scope, t);
    PartsAre(e.names, e.over, e.body, scope, t);
    ValueCounted(e.names, e.over, e.body, scope, t);
    LoopSize(e.names, e.over, scope);
    NextSize(e.names, inside, Tables([], []));
    if parts.Emitted? {
      NextSize(e.names, inside, parts.tables);
      QuantifiedSizes(e, q.init, q.test, EmitBoth(q.get, q.value), next, value.size);
    }
    AnswersCounted(Emit(e, scope, t), EmitBoth(parts, next), t, c, value.size + 34);
  }

  /** What follows the loop's parts: two more constants, and the jumps. */
  lemma QuantifiedSizes(e: Expr, init: Emitted, test: Emitted, value: Emitted, next: Emitted, size: nat)
    requires e.Quantified? && init.Emitted? && test.Emitted? && value.Emitted? && |init.code| == 7 && |test.code| == 7
    requires |value.code| == 7 + size && (next.Emitted? ==> |next.code| == 10)
    ensures var r := EmitQuantified(e.every, init, test, value, next);
            && (r.Emitted? <==> next.Emitted? && |next.tables.constants| + 2 <= 0x10000 && size + 34 <= 0x7FFF)
            && (r.Emitted? ==> |r.code| == 55 + size && r.tables.closures == next.tables.closures
                               && |r.tables.constants| == |next.tables.constants| + 2)
  {
    hide Encode, LoopCode, QuantifiedEnd;
    EncodeSize(Branch(!e.every, 22));
    EncodeSize(IrCode.Pop);
    if next.Emitted? && |next.tables.constants| + 2 <= 0x10000 {
      var inner := value.code + (Encode(Branch(!e.every, 22)) + Encode(IrCode.Pop));
      EndingSize(|next.tables.constants|);
      if size + 34 <= 0x7FFF {
        LoopCodeSize(test.code, inner, next.code);
      }
    }
  }

  lemma EndingSize(n: nat)
    requires n + 1 <= MAX_INDEX
    ensures |QuantifiedEnd(n, n + 1)| == 14
  {
    hide Encode, LOOP_END;
    EndSize();
    EncodeSize(Const(n));
    EncodeSize(Const(n + 1));
    EncodeSize(Jump(6));
    EncodeSize(IrCode.Pop);
  }

  lemma AnswersCounted(e: Emitted, parts: Emitted, t: Tables, c: Cost, back: nat)
    requires Counted(parts, t, c)
    requires e.Emitted? <==> parts.Emitted? && |parts.tables.constants| + 2 <= 0x10000 && back <= 0x7FFF
    requires e.Emitted? ==> |e.code| == c.size + 24 && e.tables.closures == parts.tables.closures
                            && |e.tables.constants| == |parts.tables.constants| + 2
    ensures Counted(e, t, Looped(Plus(c, Constants(2)), 18, back))
  {
    assert Looped(Plus(c, Constants(2)), 18, back).captured == c.captured;
  }

  // ----- joined items -----

  /** Another item brings as many joins as it ends runs. */
  lemma {:induction false} OnesNext(i: nat)
    ensures TrailingZeros(i + 1) + CountOnes(i + 1) == CountOnes(i) + 1
    decreases i
  {
    if i % 2 == 1 {
      OnesNext(i / 2);
      assert (i + 1) / 2 == i / 2 + 1;
    } else {
      assert (i + 1) / 2 == i / 2;
    }
  }

  lemma {:induction false} OnesAre(n: nat)
    requires n > 0
    ensures CountOnes(n) > 0
  {
    if n > 1 {
      OnesAre(n / 2);
    }
  }

  lemma {:induction false} RepeatSize(op: BinaryOp, k: nat)
    ensures |Repeat(Encode(Operate2(op)), k)| == k
    decreases k
  {
    EncodeSize(Operate2(op));
    if k > 0 {
      RepeatSize(op, k - 1);
    }
  }

  /** From the `i`-th item on: the joins are those of all items but one, less those before. */
  lemma {:induction false} ItemsCount(join: BinaryOp, items: seq<Expr>, i: nat, scope: Scope, t: Tables)
    requires i <= |items| && items != [] && Kept(t)
    ensures |items| - i + CountOnes(i) >= 1
    ensures Counted(EmitItems(join, items, i, scope, t), t,
                    Plus(ItemsCost(items, i, scope), Bytes(|items| - i + CountOnes(i) - 1)))
    decreases items, 0, |items| - i
  {
    hide Counted, Encode, CountOnes, TrailingZeros, Repeat, Waiting, Emit, CostOf, Kept;
    var n := |items|;
    if i == n {
      OnesAre(n);
      RepeatSize(join, CountOnes(n) - 1);
      NothingSpent(t, EmitItems(join, items, i, scope, t), CountOnes(n) - 1);
    } else {
      OnesNext(i);
      OnesAre(i + 1);
      var a, x := ItemOf(join, items, i, scope, t), Plus(CostOf(items[i], Waiting(scope, CountOnes(i))), Bytes(TrailingZeros(i + 1)));
      ItemCounted(join, items, i, scope, t);
      var rest := Plus(ItemsCost(items, i + 1, scope), Bytes(n - (i + 1) + CountOnes(i + 1) - 1));
      if a.Emitted? {
        ItemsCount(join, items, i + 1, scope, a.tables);
      }
      BothCounted(a, EmitItems(join, items, i + 1, scope, After(a, t)), t, x, rest);
      PlusMoves(CostOf(items[i], Waiting(scope, CountOnes(i))), TrailingZeros(i + 1), ItemsCost(items, i + 1, scope),
                n - (i + 1) + CountOnes(i + 1) - 1);
    }
  }

  lemma PlusMoves(a: Cost, n: nat, b: Cost, m: nat)
    ensures Plus(Plus(a, Bytes(n)), Plus(b, Bytes(m))) == Plus(Plus(a, b), Bytes(n + m))
  {
  }

  /** An item with the joins after it. */
  ghost function ItemOf(join: BinaryOp, items: seq<Expr>, i: nat, scope: Scope, t: Tables): Emitted
    requires i < |items|
  {
    Ending(Emit(items[i], Waiting(scope, CountOnes(i)), t), Repeat(Encode(Operate2(join)), TrailingZeros(i + 1)))
  }

  lemma {:induction false} ItemCounted(join: BinaryOp, items: seq<Expr>, i: nat, scope: Scope, t: Tables)
    requires i < |items| && Kept(t)
    ensures var a := ItemOf(join, items, i, scope, t);
            && Counted(a, t, Plus(CostOf(items[i], Waiting(scope, CountOnes(i))), Bytes(TrailingZeros(i + 1))))
            && (a.Emitted? ==> Kept(a.tables))
    decreases items[i], 2, 0
  {
    hide Counted, Encode, CountOnes, TrailingZeros, Repeat, Waiting, Emit, CostOf, Kept;
    var inside := Waiting(scope, CountOnes(i));
    var k := TrailingZeros(i + 1);
    EmitCounts(items[i], inside, t);
    RepeatSize(join, k);
    EndCounted(Emit(items[i], inside, t), Repeat(Encode(Operate2(join)), k), t, CostOf(items[i], inside));
    StillKept(ItemOf(join, items, i, scope, t), t, Plus(CostOf(items[i], inside), Bytes(k)));
  }

  lemma NothingSpent(t: Tables, e: Emitted, n: nat)
    requires Kept(t) && e.Emitted? && |e.code| == n && e.tables == t
    ensures Counted(e, t, Plus(Bytes(0), Bytes(n)))
  {
    var c := Plus(Bytes(0), Bytes(n));
    assert c.captured - Elements(t.closures) == {};
    assert Elements(t.closures) + c.captured == Elements(t.closures);
  }

  // ----- names -----

  ghost function FreeAtom(a: Atom): set<Name> {
    if a.Variable? then {a.name} else {}
  }

  ghost function LoopNames(names: ContextNames): set<Name> {
    {names.item, names.position, names.last}
  }

  /** The names an expression needs from outside. */
  ghost function Free(e: Expr): set<Name> {
    match e
    case AtomExpr(atom) => FreeAtom(atom)
    case Let(name, value, body) => Free(value) + (Free(body) - {name})
    case If(condition, whenTrue, whenFalse) => FreeAtom(condition) + Free(whenTrue) + Free(whenFalse)
    case Binary(_, left, right) => FreeAtom(left) + FreeAtom(right)
    case And(left, right) => FreeAtom(left) + FreeAtom(right)
    case Or(left, right) => FreeAtom(left) + FreeAtom(right)
    case Unary(_, atom) => FreeAtom(atom)
    case Distinct(operand) => Free(operand)
    case Mapped(names, over, body) => FreeAtom(over) + (Free(body) - LoopNames(names))
    case Filter(names, over, body) => FreeAtom(over) + (Free(body) - LoopNames(names))
    case Quantified(_, names, over, body) => FreeAtom(over) + (Free(body) - LoopNames(names))
    case Joined(_, items) => FreeOfAll(items)
  }

  ghost function FreeOfAll(items: seq<Expr>): set<Name> {
    set i, x | 0 <= i < |items| && x in Free(items[i]) :: x
  }

  function Deeper(a: nat, b: nat): nat {
    if a < b then b else a
  }

  /** How many names an expression has on the stack at once. */
  function Depth(e: Expr): nat
    decreases e, 0
  {
    match e
    case Let(_, value, body) => Deeper(Depth(value), 1 + Depth(body))
    case If(_, whenTrue, whenFalse) => Deeper(Depth(whenTrue), Depth(whenFalse))
    case Distinct(operand) => Depth(operand)
    case Mapped(_, _, body) => 3 + Depth(body)
    case Filter(_, _, body) => 3 + Depth(body)
    case Quantified(_, _, _, body) => 3 + Depth(body)
    case Joined(_, items) => ItemsDepth(items, 0)
    case _ => 0
  }

  function ItemsDepth(items: seq<Expr>, i: nat): nat
    requires i <= |items|
    decreases items, |items| - i
  {
    if i == |items| then 0 else Deeper(CountOnes(i) + Depth(items[i]), ItemsDepth(items, i + 1))
  }

  /** A name on the stack, or of an enclosing function. */
  ghost predicate Found(scope: Scope, name: Name) {
    name in scope.names || Known(scope.outer, name)
  }

  ghost predicate AllFound(scope: Scope, names: set<Name>) {
    forall x :: x in names ==> Found(scope, x)
  }

  lemma NameFound(name: Name, scope: Scope)
    requires |scope.names| <= 0x10000
    ensures NameCost(name, scope).names <==> Found(scope, name)
  {
  }

  lemma AtomFound(a: Atom, scope: Scope)
    requires |scope.names| <= 0x10000
    ensures AtomCost(a, scope).names <==> AllFound(scope, FreeAtom(a))
  {
    if a.Variable? {
      NameFound(a.name, scope);
    }
  }

  lemma FoundBelow(scope: Scope, name: Name, names: set<Name>)
    ensures AllFound(Bound(scope, name), names) <==> AllFound(scope, names - {name})
  {
    var inside := Bound(scope, name);
    forall x | x in names ensures Found(inside, x) <==> x == name || Found(scope, x) {
    }
  }

  lemma FoundInLoop(scope: Scope, names: ContextNames, free: set<Name>)
    ensures AllFound(Bound(LoopScope(scope, names), names.item), free) <==> AllFound(scope, free - LoopNames(names))
  {
    hide Known;
    FoundBelow(LoopScope(scope, names), names.item, free);
    FoundBelow(Bound(scope, names.last), names.position, free - {names.item});
    FoundBelow(scope, names.last, free - {names.item} - {names.position});
    assert free - {names.item} - {names.position} - {names.last} == free - LoopNames(names);
  }

  /** What a loop looks up itself: the sequence it is over, as the other names are its own. */
  lemma LoopFound(names: ContextNames, over: Atom, scope: Scope)
    requires |scope.names| + 3 <= 0x10000
    ensures LoopCost(names, over, scope).names <==> AllFound(scope, FreeAtom(over))
    ensures NextCost(names, LoopScope(scope, names)).names && KeepCost(names, LoopScope(scope, names)).names
  {
    var inside := LoopScope(scope, names);
    AtomFound(over, scope);
    AtomFound(over, inside);
    NameFound(names.position, inside);
    NameFound(names.last, inside);
    assert inside.names[|scope.names|] == names.last && inside.names[|scope.names| + 1] == names.position;
    assert AllFound(scope, FreeAtom(over)) ==> AllFound(inside, FreeAtom(over));
  }

  lemma FoundBoth(scope: Scope, a: set<Name>, b: set<Name>)
    ensures AllFound(scope, a + b) <==> AllFound(scope, a) && AllFound(scope, b)
  {
    hide Found;
  }

  lemma {:induction false} WaitingNames(scope: Scope, n: nat)
    ensures |Waiting(scope, n).names| == |scope.names| + n && Waiting(scope, n).outer == scope.outer
    ensures forall x :: x in Waiting(scope, n).names <==> x in scope.names || (n > 0 && x == WAITING)
    decreases n
  {
    if n > 0 {
      WaitingNames(scope, n - 1);
    }
  }

  /** While at most 65,536 names are on the stack, the names have their slots if and only if they are known. */
  lemma {:induction false} NamesFound(e: Expr, scope: Scope)
    requires WellFormed(e) && |scope.names| + Depth(e) <= 0x10000
    ensures CostOf(e, scope).names <==> AllFound(scope, Free(e))
    decreases e, 0
  {
    hide AllFound, AtomCost, FreeAtom, LoopCost, NextCost, KeepCost, LoopNames, LoopScope;
    match e
    case AtomExpr(atom) => AtomFound(atom, scope);
    case Let(name, value, body) =>
      NamesFound(value, scope);
      NamesFound(body, Bound(scope, name));
      FoundBelow(scope, name, Free(body));
      FoundBoth(scope, Free(value), Free(body) - {name});
    case If(condition, whenTrue, whenFalse) =>
      AtomFound(condition, scope);
      NamesFound(whenTrue, scope);
      NamesFound(whenFalse, scope);
      FoundBoth(scope, FreeAtom(condition), Free(whenTrue));
      FoundBoth(scope, FreeAtom(condition) + Free(whenTrue), Free(whenFalse));
    case Binary(_, left, right) => AtomsFound(left, right, scope);
    case And(left, right) => AtomsFound(left, right, scope);
    case Or(left, right) => AtomsFound(left, right, scope);
    case Unary(_, atom) => AtomFound(atom, scope);
    case Distinct(operand) => NamesFound(operand, scope);
    case Mapped(names, over, body) => BodyFound(names, over, body, scope);
    case Filter(names, over, body) => BodyFound(names, over, body, scope);
    case Quantified(_, names, over, body) => BodyFound(names, over, body, scope);
    case Joined(join, items) =>
      ItemsFound(e, items, 0, scope);
      NoneAbove(items, scope);
      assert items == [] ==> ItemsAllFound(items, 0, scope);
  }

  lemma AtomsFound(left: Atom, right: Atom, scope: Scope)
    requires |scope.names| <= 0x10000
    ensures AtomCost(left, scope).names && AtomCost(right, scope).names <==> AllFound(scope, FreeAtom(left) + FreeAtom(right))
  {
    hide AllFound;
    AtomFound(left, scope);
    AtomFound(right, scope);
    FoundBoth(scope, FreeAtom(left), FreeAtom(right));
  }

  lemma {:induction false} BodyFound(names: ContextNames, over: Atom, body: Expr, scope: Scope)
    requires WellFormed(body) && |scope.names| + 3 + Depth(body) <= 0x10000
    ensures var inside := LoopScope(scope, names);
            && NextCost(names, inside).names && KeepCost(names, inside).names
            && (LoopCost(names, over, scope).names && CostOf(body, Bound(inside, names.item)).names
                <==> AllFound(scope, FreeAtom(over) + (Free(body) - LoopNames(names))))
    decreases body, 1
  {
    hide AllFound, Free, CostOf, LoopCost, NextCost, KeepCost;
    LoopFound(names, over, scope);
    NamesFound(body, Bound(LoopScope(scope, names), names.item));
    FoundInLoop(scope, names, Free(body));
    FoundBoth(scope, FreeAtom(over), Free(body) - LoopNames(names));
  }

  /** The items from the `i`-th on. */
  ghost predicate ItemsAllFound(items: seq<Expr>, i: nat, scope: Scope)
    requires i <= |items|
  {
    forall j :: i <= j < |items| ==> AllFound(scope, Free(items[j]))
  }

  lemma NoneAbove(items: seq<Expr>, scope: Scope)
    ensures ItemsAllFound(items, 0, scope) <==> AllFound(scope, FreeOfAll(items))
  {
    hide Free, Found;
    var all := FreeOfAll(items);
    if AllFound(scope, all) {
      forall j | 0 <= j < |items| ensures AllFound(scope, Free(items[j])) {
        forall x | x in Free(items[j]) ensures Found(scope, x) {
          assert x in all;
        }
      }
    }
    if ItemsAllFound(items, 0, scope) {
      forall x | x in all ensures Found(scope, x) {
        var i :| 0 <= i < |items| && x in Free(items[i]);
        assert AllFound(scope, Free(items[i]));
      }
    }
  }

  lemma {:induction false} ItemsFound(e: Expr, items: seq<Expr>, i: nat, scope: Scope)
    requires e.Joined? && e.items == items && WellFormed(e) && i <= |items| && |scope.names| + ItemsDepth(items, i) <= 0x10000
    ensures ItemsCost(items, i, scope).names <==> ItemsAllFound(items, i, scope)
    decreases items, |items| - i
  {
    hide AllFound, Free, CostOf, CountOnes, WellFormed, Waiting;
    if i < |items| {
      var inside := Waiting(scope, CountOnes(i));
      WellItem(e, i);
      WaitingNames(scope, CountOnes(i));
      NamesFound(items[i], inside);
      NotWaiting(items[i]);
      FoundWaiting(scope, CountOnes(i), Free(items[i]));
      ItemsFound(e, items, i + 1, scope);
    }
  }

  lemma WellItem(e: Expr, i: nat)
    requires e.Joined? && WellFormed(e) && i < |e.items|
    ensures WellFormed(e.items[i])
  {
  }

  lemma FoundWaiting(scope: Scope, n: nat, names: set<Name>)
    requires WAITING !in names
    ensures AllFound(Waiting(scope, n), names) <==> AllFound(scope, names)
  {
    WaitingNames(scope, n);
    forall x | x in names ensures Found(Waiting(scope, n), x) <==> Found(scope, x) {
    }
  }

  /** No expression looks a waiting run up. */
  lemma {:induction false} NotWaiting(e: Expr)
    requires WellFormed(e)
    ensures WAITING !in Free(e)
    decreases e
  {
    match e
    case Let(_, value, body) =>
      NotWaiting(value);
      NotWaiting(body);
    case If(_, whenTrue, whenFalse) =>
      NotWaiting(whenTrue);
      NotWaiting(whenFalse);
    case Distinct(operand) => NotWaiting(operand);
    case Mapped(_, _, body) => NotWaiting(body);
    case Filter(_, _, body) => NotWaiting(body);
    case Quantified(_, _, _, body) => NotWaiting(body);
    case Joined(_, items) =>
      forall i | 0 <= i < |items| ensures WAITING !in Free(items[i]) {
        NotWaiting(items[i]);
      }
    case _ =>
  }

  // ----- which expressions compile -----

  /**
   * An expression whose names are known compiles if its jumps are at most 32,767 bytes long and it has at most 65,536 names
   * on the stack, constants and captured names.
   */
  lemma Compiles(e: Expr, scope: Scope, t: Tables)
    requires WellFormed(e) && AllFound(scope, Free(e)) && CostOf(e, scope).jumps
    requires |scope.names| + Depth(e) <= 65536 && |t.constants| + CostOf(e, scope).constants <= 65536
    requires |t.closures| + |CostOf(e, scope).captured| <= 65536
    ensures Emit(e, scope, t).Emitted? && |Emit(e, scope, t).code| == CostOf(e, scope).size
  {
    hide CostOf, Emit, AllFound;
    EmitCounts(e, scope, t);
    NamesFound(e, scope);
    FewerLeft(CostOf(e, scope).captured, Elements(t.closures));
  }

  lemma FewerLeft(a: set<Name>, b: set<Name>)
    ensures |a - b| <= |a|
  {
    assert a == (a - b) + (a * b);
    assert (a - b) !! (a * b);
  }

  /** A refusal has its reason: a name that is not known, a jump that is too long, or more than 65,536 of something. */
  lemma RefusedFor(e: Expr, scope: Scope, t: Tables)
    requires WellFormed(e) && Emit(e, scope, t).Refused?
    ensures || !AllFound(scope, Free(e)) || !CostOf(e, scope).jumps
            || |scope.names| + Depth(e) > 65536 || |t.constants| + CostOf(e, scope).constants > 65536
            || |t.closures| + |CostOf(e, scope).captured| > 65536
  {
    hide CostOf, Emit, AllFound, Depth, Free, WellFormed;
    if AllFound(scope, Free(e)) && CostOf(e, scope).jumps && |scope.names| + Depth(e) <= 65536
       && |t.constants| + CostOf(e, scope).constants <= 65536 && |t.closures| + |CostOf(e, scope).captured| <= 65536 {
      Compiles(e, scope, t);
    }
  }
}
