/** The bytecode of an expression: what the compiler emits, and when it refuses. */
module IrEmission {
  import opened Options
  import opened IrCode
  import opened IrMachine
  import opened IrExpr
  import opened IrJoins

  /** A function's constants, and the names of the variables it captures. */
  datatype Tables = Tables(constants: seq<Sequence>, closures: seq<Name>)

  /** Code and the tables with what it added, or a refusal: a limit passed, or a name that is not known. */
  datatype Emitted = Emitted(code: Code, tables: Tables) | Refused

  /** The names on the stack, the bottom first, and those of the functions around this one. */
  datatype Scope = Scope(names: seq<Name>, outer: seq<seq<Name>>)

  function Bound(scope: Scope, name: Name): Scope {
    scope.(names := scope.names + [name])
  }

  /** The place of a name: its last. */
  function LastIndex(names: seq<Name>, name: Name): (k: Option<nat>)
    ensures k.Some? ==> k.value < |names| && names[k.value] == name
  {
    if names == [] then None
    else if names[|names| - 1] == name then Some(|names| - 1)
    else LastIndex(names[..|names| - 1], name)
  }

  function FirstIndex(names: seq<Name>, name: Name): (k: Option<nat>)
    ensures k.Some? ==> k.value < |names| && names[k.value] == name
  {
    if names == [] then None
    else if names[0] == name then Some(0)
    else
      var k := FirstIndex(names[1..], name);
      if k.None? then None else Some(k.value + 1)
  }

  predicate Known(outer: seq<seq<Name>>, name: Name) {
    exists i :: 0 <= i < |outer| && name in outer[i]
  }

  /** The tables after code that may have been refused. */
  function After(e: Emitted, t: Tables): Tables {
    if e.Refused? then t else e.tables
  }

  // ----- atoms -----

  function EmitConstant(items: Sequence, t: Tables): Emitted {
    if |t.constants| > MAX_INDEX then Refused
    else Emitted(Encode(Const(|t.constants|)), t.(constants := t.constants + [items]))
  }

  function EmitClosureVar(name: Name, t: Tables): Emitted {
    var found := FirstIndex(t.closures, name);
    var index := if found.Some? then found.value else |t.closures|;
    var closures := if found.Some? then t.closures else t.closures + [name];
    if index > MAX_INDEX then Refused else Emitted(Encode(ClosureVar(index)), t.(closures := closures))
  }

  function EmitVariable(name: Name, scope: Scope, t: Tables): Emitted {
    var k := LastIndex(scope.names, name);
    if k.Some? then if k.value > MAX_INDEX then Refused else Emitted(Encode(Var(k.value)), t)
    else if Known(scope.outer, name) then EmitClosureVar(name, t)
    else Refused
  }

  function EmitAtom(a: Atom, scope: Scope, t: Tables): Emitted {
    match a
    case Constant(items) => EmitConstant(items, t)
    case Variable(name) => EmitVariable(name, scope, t)
  }

  function EmitSet(name: Name, scope: Scope, t: Tables): Emitted {
    var k := LastIndex(scope.names, name);
    if k.None? || k.value > MAX_INDEX then Refused else Emitted(Encode(Set(k.value)), t)
  }

  // ----- straight code -----

  /** One after the other. */
  function EmitBoth(a: Emitted, b: Emitted): Emitted {
    if a.Refused? || b.Refused? then Refused else Emitted(a.code + b.code, b.tables)
  }

  function Ending(a: Emitted, c: Code): Emitted {
    if a.Refused? then Refused else Emitted(a.code + c, a.tables)
  }

  function EmitTwo(a: Atom, b: Atom, scope: Scope, t: Tables): Emitted {
    var x := EmitAtom(a, scope, t);
    EmitBoth(x, EmitAtom(b, scope, After(x, t)))
  }

  function Branch(on: bool, d: int): Instruction {
    if on then JumpIfTrue(d) else JumpIfFalse(d)
  }

  /** After two operands: the second is tested, then the first if that does not decide. */
  function ConnectiveCode(decides: bool, other: nat, decided: nat): Code
    requires other <= MAX_INDEX && decided <= MAX_INDEX
  {
    Encode(Branch(decides, 9)) + (Encode(Branch(decides, 7))
    + (Encode(Const(other)) + (Encode(Jump(4)) + (Encode(IrCode.Pop) + Encode(Const(decided))))))
  }

  function EmitConnective(decides: bool, t: Tables): Emitted {
    var n := |t.constants|;
    if n + 1 > MAX_INDEX then Refused
    else Emitted(ConnectiveCode(decides, n, n + 1), t.(constants := t.constants + [[Boolean(!decides)]] + [[Boolean(decides)]]))
  }

  // ----- loops -----

  function LoopScope(scope: Scope, names: ContextNames): Scope {
    Bound(Bound(scope, names.last), names.position)
  }

  /** The length of the sequence, and the first position. */
  function EmitInit(over: Atom, scope: Scope, t: Tables): Emitted {
    var a := Ending(EmitAtom(over, scope, t), Encode(SequenceLen));
    EmitBoth(a, EmitConstant([Integer(1)], After(a, t)))
  }

  /** Whether the position is past the length. */
  function EmitTest(names: ContextNames, inside: Scope, t: Tables): Emitted {
    var a := EmitVariable(names.position, inside, t);
    Ending(EmitBoth(a, EmitVariable(names.last, inside, After(a, t))), Encode(Operate2(Gt)))
  }

  function EmitGet(names: ContextNames, over: Atom, inside: Scope, t: Tables): Emitted {
    var a := EmitVariable(names.position, inside, t);
    Ending(EmitBoth(a, EmitAtom(over, inside, After(a, t))), Encode(SequenceGet))
  }

  function EmitNext(names: ContextNames, inside: Scope, t: Tables): Emitted {
    var a := EmitVariable(names.position, inside, t);
    var b := EmitBoth(a, EmitConstant([Integer(1)], After(a, t)));
    EmitBoth(Ending(b, Encode(Operate2(Add))), EmitSet(names.position, inside, After(b, t)))
  }

  /** A test that jumps past the loop, what is done for an item, the step to the next position and the jump back. */
  function LoopCode(test: Code, inner: Code, next: Code): Code
    requires LoopFits(test, inner, next)
  {
    test + (Encode(JumpIfTrue(|inner| + |next| + 3)) + (inner + (next + Encode(Jump(-(|test| + |inner| + |next| + 6))))))
  }

  /** Its jumps can be encoded. */
  predicate LoopFits(test: Code, inner: Code, next: Code) {
    |test| + |inner| + |next| + 6 <= MAX_JUMP
  }

  /** What is done with the value of the body: push it to the sequence being built, and drop the item. */
  const MAP_PUSH: Code := Encode(BuildPush) + Encode(IrCode.Pop)

  const LOOP_END: Code := Encode(IrCode.Pop) + Encode(IrCode.Pop)

  /** Whether the item is kept, and its push if so. */
  function EmitKeep(names: ContextNames, inside: Scope, t: Tables): Emitted {
    var position := EmitVariable(names.position, inside, t);
    if position.Refused? || |position.code| != 3 then Refused
    else
      Emitted(Encode(Dup) + (Encode(IrCode.IsNumeric) + (Encode(JumpIfFalse(4)) + (position.code + (Encode(Operate2(Eq)) + KEEP)))),
              position.tables)
  }

  const KEEP: Code := Encode(JumpIfTrue(4)) + (Encode(IrCode.Pop) + (Encode(Jump(1)) + Encode(BuildPush)))

  /** The end of a quantified loop: the answer if no item decided, or else the way out of the loop and the other answer. */
  function QuantifiedEnd(reached: nat, out: nat): Code
    requires reached <= MAX_INDEX && out <= MAX_INDEX
  {
    LOOP_END + (Encode(Const(reached)) + (Encode(Jump(6)) + (Encode(IrCode.Pop) + (LOOP_END + Encode(Const(out))))))
  }

  // ----- expressions -----

  function Repeat(c: Code, n: nat): Code {
    if n == 0 then [] else c + Repeat(c, n - 1)
  }

  function Waiting(scope: Scope, n: nat): Scope {
    if n == 0 then scope else Bound(Waiting(scope, n - 1), WAITING)
  }

  function Emit(e: Expr, scope: Scope, t: Tables): Emitted
    decreases e, 0
  {
    match e
    case AtomExpr(atom) => EmitAtom(atom, scope, t)
    case Let(name, value, body) =>
      var a := Emit(value, scope, t);
      EmitBoth(a, Ending(Emit(body, Bound(scope, name), After(a, t)), Encode(LetDone)))
    case If(condition, whenTrue, whenFalse) =>
      var c := EmitAtom(condition, scope, t);
      var x := Emit(whenTrue, scope, After(c, t));
      var y := Emit(whenFalse, scope, After(x, t));
      if c.Refused? || x.Refused? || y.Refused? || |x.code| + 3 > MAX_JUMP || |y.code| > MAX_JUMP then Refused
      else Emitted(c.code + (Encode(JumpIfFalse(|x.code| + 3)) + (x.code + (Encode(Jump(|y.code|)) + y.code))), y.tables)
    case Binary(op, left, right) => Ending(EmitTwo(left, right, scope, t), Encode(Operate2(op)))
    case And(left, right) =>
      var a := EmitTwo(left, right, scope, t);
      EmitBoth(a, EmitConnective(false, After(a, t)))
    case Or(left, right) =>
      var a := EmitTwo(left, right, scope, t);
      EmitBoth(a, EmitConnective(true, After(a, t)))
    case Unary(op, atom) => Ending(EmitAtom(atom, scope, t), Encode(Operate1(op)))
    case Distinct(operand) => Ending(Emit(operand, scope, t), Encode(Operate1(Deduplicate)))
    case Mapped(names, over, body) =>
      var inside := LoopScope(scope, names);
      var init := EmitInit(over, scope, t);
      var test := EmitTest(names, inside, After(init, t));
      var get := EmitGet(names, over, inside, After(test, t));
      var value := Emit(body, Bound(inside, names.item), After(get, t));
      var inner := Ending(EmitBoth(get, value), MAP_PUSH);
      var next := EmitNext(names, inside, After(value, t));
      EmitBuilt(init, test, inner, next)
    case Filter(names, over, body) =>
      var inside := LoopScope(scope, names);
      var init := EmitInit(over, scope, t);
      var test := EmitTest(names, inside, After(init, t));
      var get := EmitGet(names, over, inside, After(test, t));
      var value := Emit(body, Bound(inside, names.item), After(get, t));
      var keep := EmitKeep(names, inside, After(value, t));
      var inner := EmitBoth(EmitBoth(get, value), keep);
      var next := EmitNext(names, inside, After(keep, t));
      EmitBuilt(init, test, inner, next)
    case Quantified(every, names, over, body) =>
      var inside := LoopScope(scope, names);
      var init := EmitInit(over, scope, t);
      var test := EmitTest(names, inside, After(init, t));
      var get := EmitGet(names, over, inside, After(test, t));
      var value := Emit(body, Bound(inside, names.item), After(get, t));
      var next := EmitNext(names, inside, After(value, t));
      EmitQuantified(every, init, test, EmitBoth(get, value), next)
    case Joined(join, items) =>
      if items == [] then EmitConstant([], t) else EmitItems(join, items, 0, scope, t)
  }

  /** What is emitted for a loop, part by part. */
  datatype LoopParted = LoopParted(init: Emitted, test: Emitted, get: Emitted, value: Emitted, keep: Emitted)

  function PartsOf(names: ContextNames, over: Atom, body: Expr, scope: Scope, t: Tables): LoopParted {
    var inside := LoopScope(scope, names);
    var init := EmitInit(over, scope, t);
    var test := EmitTest(names, inside, After(init, t));
    var get := EmitGet(names, over, inside, After(test, t));
    var value := Emit(body, Bound(inside, names.item), After(get, t));
    LoopParted(init, test, get, value, EmitKeep(names, inside, After(value, t)))
  }

  /** A loop that builds a sequence. */
  function EmitBuilt(init: Emitted, test: Emitted, inner: Emitted, next: Emitted): Emitted {
    if init.Refused? || test.Refused? || inner.Refused? || next.Refused? || !LoopFits(test.code, inner.code, next.code) then Refused
    else
      Emitted(Encode(BuildNew) + (init.code + (LoopCode(test.code, inner.code, next.code) + (LOOP_END + Encode(BuildComplete)))), next.tables)
  }

  /** A loop that ends at the first item that decides. */
  function EmitQuantified(every: bool, init: Emitted, test: Emitted, value: Emitted, next: Emitted): Emitted {
    if init.Refused? || test.Refused? || value.Refused? || next.Refused? then Refused
    else
      var out := |next.code| + 12;
      var n := |next.tables.constants|;
      if out > MAX_JUMP || n + 1 > MAX_INDEX then Refused
      else
        var inner := value.code + (Encode(Branch(!every, out)) + Encode(IrCode.Pop));
        if !LoopFits(test.code, inner, next.code) then Refused
        else
          Emitted(init.code + (LoopCode(test.code, inner, next.code) + QuantifiedEnd(n, n + 1)),
                  next.tables.(constants := next.tables.constants + [[Boolean(every)]] + [[Boolean(!every)]]))
  }

  function LastJoinCount(n: nat): nat {
    if CountOnes(n) == 0 then 0 else CountOnes(n) - 1
  }

  /** The items from the `i`-th on, with the joins after each and those at the end. */
  function EmitItems(join: BinaryOp, items: seq<Expr>, i: nat, scope: Scope, t: Tables): Emitted
    requires i <= |items| && items != []
    decreases items, |items| - i
  {
    if i == |items| then Emitted(Repeat(Encode(Operate2(join)), LastJoinCount(i)), t)
    else
      var a := Ending(Emit(items[i], Waiting(scope, CountOnes(i)), t), Repeat(Encode(Operate2(join)), TrailingZeros(i + 1)));
      EmitBoth(a, EmitItems(join, items, i + 1, scope, After(a, t)))
  }

  /** A function's code: its body's, and the return. */
  function EmitFunction(params: seq<Name>, body: Expr, outer: seq<seq<Name>>): Emitted {
    Ending(Emit(body, Scope(params, outer), Tables([], [])), Encode(Return))
  }
}
