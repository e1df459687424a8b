/** What the bytecode does is what the expression means. */
module IrCorrect {
  import opened Options
  import opened IrCode
  import opened IrMachine
  import opened IrExpr
  import opened IrJoins
  import opened IrEmission

  // ----- tables grow -----

  ghost predicate Grown(t: Tables, e: Emitted) {
    e.Emitted? ==> t.constants <= e.tables.constants && t.closures <= e.tables.closures
  }

  lemma AtomGrows(a: Atom, scope: Scope, t: Tables)
    ensures Grown(t, EmitAtom(a, scope, t))
  {
  }

  lemma VariableGrows(name: Name, scope: Scope, t: Tables)
    ensures Grown(t, EmitVariable(name, scope, t))
  {
  }

  lemma LoopGrows(names: ContextNames, over: Atom, scope: Scope, t: Tables)
    ensures Grown(t, EmitInit(over, scope, t)) && Grown(t, EmitTest(names, scope, t)) && Grown(t, EmitGet(names, over, scope, t))
    ensures Grown(t, EmitNext(names, scope, t)) && Grown(t, EmitKeep(names, scope, t))
  {
    hide EmitAtom, EmitVariable;
    AtomGrows(over, scope, t);
    VariableGrows(names.position, scope, t);
    var a := After(EmitVariable(names.position, scope, t), t);
    AtomGrows(over, scope, a);
    VariableGrows(names.last, scope, a);
  }

  lemma {:induction false} EmitGrows(e: Expr, scope: Scope, t: Tables)
    ensures Grown(t, Emit(e, scope, t))
    decreases e, 0
  {
    hide EmitAtom, EmitInit, EmitTest, EmitGet, EmitNext, EmitKeep, Grown, EmitBoth, Ending, EmitBuilt, EmitQuantified, EmitTwo, EmitConnective,
         EmitItems;
    match e
    case AtomExpr(atom) => AtomGrows(atom, scope, t);
    case Let(name, value, body) =>
      EmitGrows(value, scope, t);
      EmitGrows(body, Bound(scope, name), After(Emit(value, scope, t), t));
      LetGrows(e, scope, t);
    case If(condition, whenTrue, whenFalse) =>
      var c := EmitAtom(condition, scope, t);
      AtomGrows(condition, scope, t);
      EmitGrows(whenTrue, scope, After(c, t));
      EmitGrows(whenFalse, scope, After(Emit(whenTrue, scope, After(c, t)), t));
      IfGrows(e, scope, t);
    case Binary(op, left, right) => OperandsGrow(left, right, scope, t);
    case And(left, right) => OperandsGrow(left, right, scope, t);
    case Or(left, right) => OperandsGrow(left, right, scope, t);
    case Unary(op, atom) =>
      AtomGrows(atom, scope, t);
      EndingGrows(t, EmitAtom(atom, scope, t), Encode(Operate1(op)));
    case Distinct(operand) =>
      EmitGrows(operand, scope, t);
      EndingGrows(t, Emit(operand, scope, t), Encode(Operate1(Deduplicate)));
    case Mapped(names, over, body) =>
      BodyGrows(names, over, body, scope, t);
      MapGrows(e, scope, t);
    case Filter(names, over, body) =>
      BodyGrows(names, over, body, scope, t);
      FilterGrows(e, scope, t);
    case Quantified(every, names, over, body) =>
      BodyGrows(names, over, body, scope, t);
      QuantifiedGrows(e, scope, t);
    case Joined(join, items) =>
      if items == [] {
        AtomGrows(Constant([]), scope, t);
        ConstantAtom([], scope, t);
      } else {
        ItemsGrow(join, items, 0, scope, t);
      }
  }

  lemma ConstantAtom(items: Sequence, scope: Scope, t: Tables)
    ensures EmitAtom(Constant(items), scope, t) == EmitConstant(items, t)
  {
  }

  lemma EndingGrows(t: Tables, a: Emitted, c: Code)
    requires Grown(t, a)
    ensures Grown(t, Ending(a, c))
  {
  }

  lemma OperandsGrow(left: Atom, right: Atom, scope: Scope, t: Tables)
    ensures var a := EmitTwo(left, right, scope, t);
            && Grown(t, a) && (forall c :: Grown(t, Ending(a, c))) && (forall d :: Grown(t, EmitBoth(a, EmitConnective(d, After(a, t)))))
  {
    hide EmitAtom;
    AtomGrows(left, scope, t);
    AtomGrows(right, scope, After(EmitAtom(left, scope, t), t));
  }

  lemma LetGrows(e: Expr, scope: Scope, t: Tables)
    requires e.Let? && Grown(t, Emit(e.value, scope, t))
    requires var a := After(Emit(e.value, scope, t), t); Grown(a, Emit(e.body, Bound(scope, e.name), a))
    ensures Grown(t, Emit(e, scope, t))
  {
  }

  lemma IfGrows(e: Expr, scope: Scope, t: Tables)
    requires e.If? && Grown(t, EmitAtom(e.condition, scope, t))
    requires var c := After(EmitAtom(e.condition, scope, t), t);
             var x := Emit(e.whenTrue, scope, c);
             Grown(c, x) && Grown(After(x, t), Emit(e.whenFalse, scope, After(x, t)))
    ensures Grown(t, Emit(e, scope, t))
  {
    hide EmitAtom;
  }

  /** The tables grow through a loop up to the value of its body, and after it. */
  ghost predicate BodyGrown(names: ContextNames, over: Atom, body: Expr, scope: Scope, t: Tables) {
    var inside := LoopScope(scope, names);
    var init := EmitInit(over, scope, t);
    var test := EmitTest(names, inside, After(init, t));
    var get := EmitGet(names, over, inside, After(test, t));
    var value := Emit(body, Bound(inside, names.item), After(get, t));
    var keep := EmitKeep(names, inside, After(value, t));
    && Grown(t, init) && Grown(After(init, t), test) && Grown(After(test, t), get) && Grown(After(get, t), value)
    && Grown(After(value, t), EmitNext(names, inside, After(value, t)))
    && Grown(After(value, t), keep) && Grown(After(keep, t), EmitNext(names, inside, After(keep, t)))
  }

  lemma {:induction false} BodyGrows(names: ContextNames, over: Atom, body: Expr, scope: Scope, t: Tables)
    ensures BodyGrown(names, over, body, scope, t)
    decreases body, 1
  {
    hide EmitInit, EmitTest, EmitGet, EmitNext, EmitKeep, Grown, Emit;
    var inside := LoopScope(scope, names);
    var init := EmitInit(over, scope, t);
    LoopGrows(names, over, scope, t);
    var test := EmitTest(names, inside, After(init, t));
    LoopGrows(names, over, inside, After(init, t));
    var get := EmitGet(names, over, inside, After(test, t));
    LoopGrows(names, over, inside, After(test, t));
    var value := Emit(body, Bound(inside, names.item), After(get, t));
    EmitGrows(body, Bound(inside, names.item), After(get, t));
    LoopGrows(names, over, inside, After(value, t));
    LoopGrows(names, over, inside, After(EmitKeep(names, inside, After(value, t)), t));
  }

  lemma MapGrows(e: Expr, scope: Scope, t: Tables)
    requires e.Mapped? && BodyGrown(e.names, e.over, e.body, scope, t)
    ensures Grown(t, Emit(e, scope, t))
  {
    hide EmitInit, EmitTest, EmitGet, EmitNext, EmitKeep, LoopCode;
  }

  lemma FilterGrows(e: Expr, scope: Scope, t: Tables)
    requires e.Filter? && BodyGrown(e.names, e.over, e.body, scope, t)
    ensures Grown(t, Emit(e, scope, t))
  {
    hide EmitInit, EmitTest, EmitGet, EmitNext, EmitKeep, LoopCode;
  }

  lemma QuantifiedGrows(e: Expr, scope: Scope, t: Tables)
    requires e.Quantified? && BodyGrown(e.names, e.over, e.body, scope, t)
    ensures Grown(t, Emit(e, scope, t))
  {
    hide EmitInit, EmitTest, EmitGet, EmitNext, EmitKeep, LoopCode;
  }

  lemma {:induction false} ItemsGrow(join: BinaryOp, items: seq<Expr>, i: nat, scope: Scope, t: Tables)
    requires i <= |items| && items != []
    ensures Grown(t, EmitItems(join, items, i, scope, t))
    decreases items, |items| - i
  {
    hide Emit, Repeat, Waiting;
    if i < |items| {
      EmitGrows(items[i], Waiting(scope, CountOnes(i)), t);
      var a := Ending(Emit(items[i], Waiting(scope, CountOnes(i)), t), Repeat(Encode(Operate2(join)), TrailingZeros(i + 1)));
      ItemsGrow(join, items, i + 1, scope, After(a, t));
    }
  }

  // ----- a function that is in no other captures nothing -----

  ghost predicate Closed(t: Tables, e: Emitted) {
    e.Emitted? ==> e.tables.closures == t.closures
  }

  lemma AtomCloses(a: Atom, scope: Scope, t: Tables)
    requires scope.outer == []
    ensures Closed(t, EmitAtom(a, scope, t))
  {
  }

  lemma VariableCloses(name: Name, scope: Scope, t: Tables)
    requires scope.outer == []
    ensures Closed(t, EmitVariable(name, scope, t))
  {
  }

  lemma LoopCloses(names: ContextNames, over: Atom, scope: Scope, t: Tables)
    requires scope.outer == []
    ensures Closed(t, EmitInit(over, scope, t)) && Closed(t, EmitTest(names, scope, t)) && Closed(t, EmitGet(names, over, scope, t))
    ensures Closed(t, EmitNext(names, scope, t)) && Closed(t, EmitKeep(names, scope, t))
  {
    hide EmitAtom, EmitVariable;
    AtomCloses(over, scope, t);
    VariableCloses(names.position, scope, t);
    var a := After(EmitVariable(names.position, scope, t), t);
    AtomCloses(over, scope, a);
    VariableCloses(names.last, scope, a);
  }

  lemma OperandsClose(left: Atom, right: Atom, scope: Scope, t: Tables)
    requires scope.outer == []
    ensures Closed(t, EmitTwo(left, right, scope, t))
  {
    hide EmitAtom;
    AtomCloses(left, scope, t);
    AtomCloses(right, scope, After(EmitAtom(left, scope, t), t));
  }

  lemma {:induction false} EmitCloses(e: Expr, scope: Scope, t: Tables)
    requires scope.outer == []
    ensures Closed(t, Emit(e, scope, t))
    decreases e, 0
  {
    hide EmitAtom, EmitTwo, EmitInit, EmitTest, EmitGet, EmitNext, EmitKeep, LoopCode, EmitItems, Encode, QuantifiedEnd, ConnectiveCode;
    match e
    case AtomExpr(atom) => AtomCloses(atom, scope, t);
    case Let(name, value, body) =>
      EmitCloses(value, scope, t);
      EmitCloses(body, Bound(scope, name), After(Emit(value, scope, t), t));
    case If(condition, whenTrue, whenFalse) =>
      var c := After(EmitAtom(condition, scope, t), t);
      AtomCloses(condition, scope, t);
      EmitCloses(whenTrue, scope, c);
      EmitCloses(whenFalse, scope, After(Emit(whenTrue, scope, c), c));
      EmitCloses(whenFalse, scope, After(Emit(whenTrue, scope, c), t));
    case Binary(op, left, right) => OperandsClose(left, right, scope, t);
    case And(left, right) => OperandsClose(left, right, scope, t);
    case Or(left, right) => OperandsClose(left, right, scope, t);
    case Unary(op, atom) => AtomCloses(atom, scope, t);
    case Distinct(operand) => EmitCloses(operand, scope, t);
    case Mapped(names, over, body) => BodyCloses(names, over, body, scope, t);
    case Filter(names, over, body) => BodyCloses(names, over, body, scope, t);
    case Quantified(every, names, over, body) => BodyCloses(names, over, body, scope, t);
    case Joined(join, items) =>
      if items != [] {
        ItemsClose(join, items, 0, scope, t);
      }
  }

  lemma {:induction false} BodyCloses(names: ContextNames, over: Atom, body: Expr, scope: Scope, t: Tables)
    requires scope.outer == []
    ensures var q := PartsOf(names, over, body, scope, t);
            && Closed(t, q.init) && Closed(After(q.init, t), q.test) && Closed(After(q.test, t), q.get) && Closed(After(q.get, t), q.value)
            && Closed(After(q.value, t), EmitNext(names, LoopScope(scope, names), After(q.value, t)))
            && Closed(After(q.value, t), q.keep)
            && Closed(After(q.keep, t), EmitNext(names, LoopScope(scope, names), After(q.keep, t)))
    decreases body, 1
  {
    hide EmitInit, EmitTest, EmitGet, EmitNext, EmitKeep, Closed, Emit;
    var inside, q := LoopScope(scope, names), PartsOf(names, over, body, scope, t);
    LoopCloses(names, over, scope, t);
    LoopCloses(names, over, inside, After(q.init, t));
    LoopCloses(names, over, inside, After(q.test, t));
    EmitCloses(body, Bound(inside, names.item), After(q.get, t));
    LoopCloses(names, over, inside, After(q.value, t));
    LoopCloses(names, over, inside, After(q.keep, t));
  }

  lemma {:induction false} ItemsClose(join: BinaryOp, items: seq<Expr>, i: nat, scope: Scope, t: Tables)
    requires i <= |items| && items != [] && scope.outer == []
    ensures Closed(t, EmitItems(join, items, i, scope, t))
    decreases items, |items| - i
  {
    hide Emit, Repeat, Waiting;
    if i < |items| {
      WaitingOuter(scope, CountOnes(i));
      EmitCloses(items[i], Waiting(scope, CountOnes(i)), t);
      var a := Ending(Emit(items[i], Waiting(scope, CountOnes(i)), t), Repeat(Encode(Operate2(join)), TrailingZeros(i + 1)));
      ItemsClose(join, items, i + 1, scope, After(a, t));
    }
  }

  lemma {:induction false} WaitingOuter(scope: Scope, n: nat)
    ensures Waiting(scope, n).outer == scope.outer
    decreases n
  {
    if n > 0 {
      WaitingOuter(scope, n - 1);
    }
  }

  /** So its code captures nothing. */
  lemma FunctionCloses(params: seq<Name>, body: Expr)
    ensures EmitFunction(params, body, []).Emitted? ==> EmitFunction(params, body, []).tables.closures == []
  {
    hide Emit;
    EmitCloses(body, Scope(params, []), Tables([], []));
  }

  // ----- where code stands -----

  /** A place in a run: the names of the values on the stack, the bottom first, and the values they have. */
  datatype Place = Place(p: Program, scope: Scope, stack: seq<Value>, env: Env)

  function Having(x: Place, name: Name, v: Value): Place {
    Place(x.p, Bound(x.scope, name), x.stack + [v], Bind(x.env, name, v))
  }

  function Wait(x: Place, v: Value): Place {
    Place(x.p, Bound(x.scope, WAITING), x.stack + [v], x.env)
  }

  /** A local's slot is its place on the stack. */
  ghost predicate Settled(x: Place) {
    && |x.scope.names| == |x.stack| && Lawful(x.p.ops)
    && forall name :: name != WAITING ==> SlotHolds(x, name)
  }

  predicate SlotHolds(x: Place, name: Name)
    requires |x.scope.names| == |x.stack|
  {
    var k := LastIndex(x.scope.names, name);
    if k.Some? then name in x.env.locals && x.env.locals[name] == x.stack[k.value] else name !in x.env.locals
  }

  /** The program has the constants, and the captured values of the names. */
  predicate Serves(x: Place, t: Tables) {
    && t.constants <= x.p.constants && |t.closures| <= |x.p.closureVars|
    && forall i :: 0 <= i < |t.closures| ==>
         t.closures[i] in x.env.captured && x.p.closureVars[i] == x.env.captured[t.closures[i]]
  }

  lemma ServesLess(x: Place, t: Tables, e: Emitted)
    requires e.Emitted? && Grown(t, e) && Serves(x, e.tables)
    ensures Serves(x, t)
  {
  }

  lemma Settles(x: Place, name: Name, v: Value)
    requires Settled(x) && name != WAITING
    ensures Settled(Having(x, name, v))
  {
    var y := Having(x, name, v);
    assert y.scope.names[..|x.stack|] == x.scope.names;
    forall n | n != WAITING ensures SlotHolds(y, n) {
      assert SlotHolds(x, n);
    }
  }

  lemma SettlesWaiting(x: Place, v: Value)
    requires Settled(x)
    ensures Settled(Wait(x, v))
  {
    var y := Wait(x, v);
    assert y.scope.names[..|x.stack|] == x.scope.names;
    forall n | n != WAITING ensures SlotHolds(y, n) {
      assert SlotHolds(x, n);
    }
  }

  /** At `ip` with this stack, the run gets to that state. */
  ghost predicate Goes(p: Program, ip: nat, stack: seq<Value>, build: seq<Sequence>, to: Machine) {
    Reaches(p, Running(ip, stack, build), to)
  }

  /** The state after code that leaves one new value. */
  function Then(ip: nat, stack: seq<Value>, build: seq<Sequence>, r: Option<Value>): Machine {
    if r.None? then Failed else Running(ip, stack + [r.value], build)
  }

  /** The code at `ip` leaves exactly one new value, or fails. */
  ghost predicate Yields(p: Program, ip: nat, c: Code, stack: seq<Value>, build: seq<Sequence>, r: Option<Value>) {
    Goes(p, ip, stack, build, Then(ip + |c|, stack, build, r))
  }

  lemma GoesThen(p: Program, ip: nat, stack: seq<Value>, build: seq<Sequence>, mid: Machine, to: Machine)
    requires Goes(p, ip, stack, build, mid) && Reaches(p, mid, to)
    ensures Goes(p, ip, stack, build, to)
  {
    hide Reaches;
    ReachesThen(p, Running(ip, stack, build), mid, to);
  }

  /** One instruction at `ip`. */
  lemma GoesOne(p: Program, i: Instruction, ip: nat, stack: seq<Value>, build: seq<Sequence>)
    requires Fits(i) && Holds(p.code, ip, Encode(i))
    ensures |Encode(i)| == Size(i) && Goes(p, ip, stack, build, Exec(p, i, ip + Size(i), stack, build))
  {
    hide Reaches, Exec, Encode, Holds;
    EncodeSize(i);
    Executes(p, i, ip, stack, build);
  }

  // ----- atoms -----

  lemma {:induction false} FirstIsThere(closures: seq<Name>, name: Name)
    ensures FirstIndex(closures, name).None? ==> name !in closures
    decreases |closures|
  {
    if closures != [] {
      FirstIsThere(closures[1..], name);
    }
  }

  /** An atom's code pushes its value, whatever else is on the stack above the names. */
  lemma AtomRuns(a: Atom, x: Place, t: Tables, extra: seq<Value>, ip: nat, build: seq<Sequence>)
    requires Named(a) && Settled(x) && EmitAtom(a, x.scope, t).Emitted?
    requires Holds(x.p.code, ip, EmitAtom(a, x.scope, t).code) && Serves(x, EmitAtom(a, x.scope, t).tables)
    ensures EvalAtom(a, x.env).Some? && |EmitAtom(a, x.scope, t).code| == 3
    ensures Yields(x.p, ip, EmitAtom(a, x.scope, t).code, x.stack + extra, build, EvalAtom(a, x.env))
  {
    hide Goes, Holds, Encode, Lawful;
    match a {
      case Constant(items) =>
        GoesOne(x.p, Const(|t.constants|), ip, x.stack + extra, build);
        assert x.p.constants[|t.constants|] == items;
      case Variable(name) =>
        assert SlotHolds(x, name);
        var k := LastIndex(x.scope.names, name);
        if k.Some? {
          GoesOne(x.p, Var(k.value), ip, x.stack + extra, build);
        } else {
          var found := FirstIndex(t.closures, name);
          var i := if found.Some? then found.value else |t.closures|;
          GoesOne(x.p, ClosureVar(i), ip, x.stack + extra, build);
          assert EmitAtom(a, x.scope, t).tables.closures[i] == name;
        }
    }
  }

  /** A local's code pushes its value, and adds nothing to the tables. */
  lemma LocalRuns(name: Name, x: Place, t: Tables, extra: seq<Value>, ip: nat, build: seq<Sequence>)
    requires name != WAITING && Settled(x) && name in x.env.locals
    requires EmitVariable(name, x.scope, t).Emitted? && Holds(x.p.code, ip, EmitVariable(name, x.scope, t).code)
    ensures EmitVariable(name, x.scope, t).tables == t && |EmitVariable(name, x.scope, t).code| == 3
    ensures Yields(x.p, ip, EmitVariable(name, x.scope, t).code, x.stack + extra, build, Some(x.env.locals[name]))
  {
    hide Goes, Holds, Encode, Lawful;
    assert SlotHolds(x, name);
    GoesOne(x.p, Var(LastIndex(x.scope.names, name).value), ip, x.stack + extra, build);
  }

  // ----- operators -----

  /** Two operands are on the stack, the second on top. */
  lemma OperandsRun(a: Atom, b: Atom, x: Place, t: Tables, ip: nat, build: seq<Sequence>)
    requires Named(a) && Named(b) && Settled(x) && EmitTwo(a, b, x.scope, t).Emitted?
    requires Holds(x.p.code, ip, EmitTwo(a, b, x.scope, t).code) && Serves(x, EmitTwo(a, b, x.scope, t).tables)
    ensures EvalAtom(a, x.env).Some? && EvalAtom(b, x.env).Some? && |EmitTwo(a, b, x.scope, t).code| == 6
    ensures Goes(x.p, ip, x.stack, build,
                 Running(ip + 6, x.stack + [EvalAtom(a, x.env).value] + [EvalAtom(b, x.env).value], build))
  {
    hide Goes, Holds, EmitAtom, Serves, Settled;
    var first := EmitAtom(a, x.scope, t);
    var second := EmitAtom(b, x.scope, After(first, t));
    AtomGrows(b, x.scope, After(first, t));
    ServesLess(x, first.tables, second);
    HoldsParts(x.p.code, ip, first.code, second.code);
    AtomRuns(a, x, t, [], ip, build);
    assert x.stack + [] == x.stack;
    var v := EvalAtom(a, x.env).value;
    AtomRuns(b, x, first.tables, [v], ip + 3, build);
    GoesNext(x.p, ip, x.stack, build, Running(ip + 3, x.stack + [v], build), EvalAtom(b, x.env).value);
  }

  lemma GoesNext(p: Program, ip: nat, stack: seq<Value>, build: seq<Sequence>, mid: Machine, v: Value)
    requires Goes(p, ip, stack, build, mid) && mid.Running?
    requires Goes(p, mid.ip, mid.stack, mid.build, Running(mid.ip + 3, mid.stack + [v], mid.build))
    ensures Goes(p, ip, stack, build, Running(mid.ip + 3, mid.stack + [v], mid.build))
  {
    hide Reaches;
    GoesThen(p, ip, stack, build, mid, Running(mid.ip + 3, mid.stack + [v], mid.build));
  }

  /** Code, and one instruction after it. */
  lemma GoesOn(p: Program, ip: nat, stack: seq<Value>, build: seq<Sequence>, mid: Machine, i: Instruction)
    requires Goes(p, ip, stack, build, mid) && mid.Running? && Fits(i) && Holds(p.code, mid.ip, Encode(i))
    ensures Goes(p, ip, stack, build, Exec(p, i, mid.ip + Size(i), mid.stack, mid.build)) && |Encode(i)| == Size(i)
  {
    hide Reaches, Exec, Encode, Holds;
    GoesOne(p, i, mid.ip, mid.stack, mid.build);
    GoesThen(p, ip, stack, build, mid, Exec(p, i, mid.ip + Size(i), mid.stack, mid.build));
  }

  lemma PairTop(stack: seq<Value>, a: Value, b: Value)
    ensures var s := stack + [a] + [b]; |s| >= 2 && Top(s) == b && Rest(s) == stack + [a] && Top(Rest(s)) == a && Rest(Rest(s)) == stack
  {
  }

  lemma OneTop(stack: seq<Value>, a: Value)
    ensures stack + [a] != [] && Top(stack + [a]) == a && Rest(stack + [a]) == stack
  {
  }

  lemma BinaryRuns(op: BinaryOp, a: Atom, b: Atom, x: Place, t: Tables, ip: nat, build: seq<Sequence>)
    requires Named(a) && Named(b) && Settled(x)
    requires var e := Ending(EmitTwo(a, b, x.scope, t), Encode(Operate2(op)));
             e.Emitted? && Holds(x.p.code, ip, e.code) && Serves(x, e.tables)
    ensures Yields(x.p, ip, Ending(EmitTwo(a, b, x.scope, t), Encode(Operate2(op))).code, x.stack, build,
                   Apply2(x.p.ops, op, EvalAtom(a, x.env), EvalAtom(b, x.env)))
  {
    hide Goes, Holds, EmitTwo, Serves, Settled, Encode;
    var two := EmitTwo(a, b, x.scope, t);
    HoldsParts(x.p.code, ip, two.code, Encode(Operate2(op)));
    OperandsRun(a, b, x, t, ip, build);
    var v, w := EvalAtom(a, x.env).value, EvalAtom(b, x.env).value;
    GoesOn(x.p, ip, x.stack, build, Running(ip + 6, x.stack + [v] + [w], build), Operate2(op));
    PairTop(x.stack, v, w);
  }

  /** An operator of one operand, after code that yields it. */
  lemma OperatorRuns(op: UnaryOp, p: Program, ip: nat, c: Code, stack: seq<Value>, build: seq<Sequence>, v: Option<Value>)
    requires Holds(p.code, ip, c + Encode(Operate1(op))) && Yields(p, ip, c, stack, build, v)
    ensures Yields(p, ip, c + Encode(Operate1(op)), stack, build, Apply1(p.ops, op, v))
  {
    hide Goes, Holds, Encode;
    HoldsParts(p.code, ip, c, Encode(Operate1(op)));
    if v.Some? {
      GoesOn(p, ip, stack, build, Running(ip + |c|, stack + [v.value], build), Operate1(op));
      OneTop(stack, v.value);
    }
  }

  // ----- branches -----

  /** Where a branch on a value leads. */
  function Branched(ops: Ops, on: bool, d: nat, ip: nat, stack: seq<Value>, build: seq<Sequence>, v: Value): Machine {
    var t := Truth(ops, Some(v));
    if t.None? then Failed else Running(if t.value == on then ip + d else ip, stack, build)
  }

  lemma BranchRuns(p: Program, on: bool, d: nat, ip: nat, stack: seq<Value>, v: Value, build: seq<Sequence>)
    requires d <= MAX_JUMP && Holds(p.code, ip, Encode(Branch(on, d)))
    ensures |Encode(Branch(on, d))| == 3 && Goes(p, ip, stack + [v], build, Branched(p.ops, on, d, ip + 3, stack, build, v))
  {
    hide Goes, Holds, Encode;
    OneTop(stack, v);
    GoesOne(p, Branch(on, d), ip, stack + [v], build);
  }

  lemma ConnectiveParts(code: Code, ip: nat, decides: bool, other: nat, decided: nat)
    requires other <= MAX_INDEX && decided <= MAX_INDEX && Holds(code, ip, ConnectiveCode(decides, other, decided))
    ensures |ConnectiveCode(decides, other, decided)| == 16
    ensures Holds(code, ip, Encode(Branch(decides, 9))) && Holds(code, ip + 3, Encode(Branch(decides, 7)))
    ensures Holds(code, ip + 6, Encode(Const(other))) && Holds(code, ip + 9, Encode(Jump(4)))
    ensures Holds(code, ip + 12, Encode(IrCode.Pop)) && Holds(code, ip + 13, Encode(Const(decided)))
  {
    hide Holds, Encode;
    var e := Encode(Const(decided));
    EncodeSize(Branch(decides, 9));
    EncodeSize(Branch(decides, 7));
    EncodeSize(Const(other));
    EncodeSize(Jump(4));
    EncodeSize(IrCode.Pop);
    EncodeSize(Const(decided));
    HoldsParts(code, ip + 12, Encode(IrCode.Pop), e);
    HoldsParts(code, ip + 9, Encode(Jump(4)), Encode(IrCode.Pop) + e);
    HoldsParts(code, ip + 6, Encode(Const(other)), Encode(Jump(4)) + (Encode(IrCode.Pop) + e));
    HoldsParts(code, ip + 3, Encode(Branch(decides, 7)), Encode(Const(other)) + (Encode(Jump(4)) + (Encode(IrCode.Pop) + e)));
    HoldsParts(code, ip, Encode(Branch(decides, 9)),
               Encode(Branch(decides, 7)) + (Encode(Const(other)) + (Encode(Jump(4)) + (Encode(IrCode.Pop) + e))));
  }

  /** A constant that a table has. */
  lemma ConstRuns(p: Program, k: nat, items: Sequence, ip: nat, stack: seq<Value>, build: seq<Sequence>)
    requires k <= MAX_INDEX && k < |p.constants| && p.constants[k] == items && Holds(p.code, ip, Encode(Const(k)))
    ensures |Encode(Const(k))| == 3 && Goes(p, ip, stack, build, Running(ip + 3, stack + [Items(items)], build))
  {
    hide Goes, Holds, Encode;
    GoesOne(p, Const(k), ip, stack, build);
  }

  /** The answer if the first operand is tested. */
  lemma FirstDecides(p: Program, decides: bool, other: nat, decided: nat, ip: nat, stack: seq<Value>, build: seq<Sequence>, a: Value)
    requires other <= MAX_INDEX && decided <= MAX_INDEX && Holds(p.code, ip, ConnectiveCode(decides, other, decided))
    requires other < |p.constants| && p.constants[other] == [Boolean(!decides)]
    requires decided < |p.constants| && p.constants[decided] == [Boolean(decides)]
    ensures Goes(p, ip + 3, stack + [a], build, Then(ip + 16, stack, build, TruthValue(Truth(p.ops, Some(a)))))
  {
    hide Goes, Holds, Encode, ConnectiveCode, Truth;
    ConnectiveParts(p.code, ip, decides, other, decided);
    BranchRuns(p, decides, 7, ip + 3, stack, a, build);
    var t := Truth(p.ops, Some(a));
    if t.Some? {
      if t.value == decides {
        ConstRuns(p, decided, [Boolean(decides)], ip + 13, stack, build);
        Follow(p, ip + 3, stack + [a], build, ip + 13, stack, Running(ip + 16, stack + [Items([Boolean(decides)])], build));
      } else {
        ConstRuns(p, other, [Boolean(!decides)], ip + 6, stack, build);
        GoesOn(p, ip + 6, stack, build, Running(ip + 9, stack + [Items([Boolean(!decides)])], build), Jump(4));
        Follow(p, ip + 3, stack + [a], build, ip + 6, stack, Running(ip + 16, stack + [Items([Boolean(!decides)])], build));
      }
    }
  }

  lemma Follow(p: Program, ip: nat, stack: seq<Value>, build: seq<Sequence>, mid: nat, s: seq<Value>, to: Machine)
    requires Goes(p, ip, stack, build, Running(mid, s, build)) && Goes(p, mid, s, build, to)
    ensures Goes(p, ip, stack, build, to)
  {
    hide Reaches;
    GoesThen(p, ip, stack, build, Running(mid, s, build), to);
  }

  /** The second operand decided: the first is dropped. */
  lemma SecondDecides(p: Program, decides: bool, other: nat, decided: nat, ip: nat, stack: seq<Value>, build: seq<Sequence>, a: Value)
    requires other <= MAX_INDEX && decided <= MAX_INDEX && Holds(p.code, ip, ConnectiveCode(decides, other, decided))
    requires decided < |p.constants| && p.constants[decided] == [Boolean(decides)]
    ensures Goes(p, ip + 12, stack + [a], build, if a.Absent? then Failed else Running(ip + 16, stack + [Items([Boolean(decides)])], build))
  {
    hide Goes, Holds, Encode, ConnectiveCode;
    ConnectiveParts(p.code, ip, decides, other, decided);
    GoesOne(p, IrCode.Pop, ip + 12, stack + [a], build);
    OneTop(stack, a);
    if a.Items? {
      ConstRuns(p, decided, [Boolean(decides)], ip + 13, stack, build);
      Follow(p, ip + 12, stack + [a], build, ip + 13, stack, Running(ip + 16, stack + [Items([Boolean(decides)])], build));
    }
  }

  lemma ConnectiveRuns(p: Program, decides: bool, other: nat, decided: nat, ip: nat, stack: seq<Value>, build: seq<Sequence>, a: Value, b: Value)
    requires other <= MAX_INDEX && decided <= MAX_INDEX && Holds(p.code, ip, ConnectiveCode(decides, other, decided))
    requires other < |p.constants| && p.constants[other] == [Boolean(!decides)]
    requires decided < |p.constants| && p.constants[decided] == [Boolean(decides)]
    ensures |ConnectiveCode(decides, other, decided)| == 16
    ensures Goes(p, ip, stack + [a] + [b], build, Then(ip + 16, stack, build, Connective(p.ops, decides, Some(a), Some(b))))
  {
    hide Goes, Holds, Encode, ConnectiveCode, Truth;
    ConnectiveParts(p.code, ip, decides, other, decided);
    BranchRuns(p, decides, 9, ip, stack + [a], b, build);
    var t := Truth(p.ops, Some(b));
    if t.Some? {
      if t.value == decides {
        SecondDecides(p, decides, other, decided, ip, stack, build, a);
        Follow(p, ip, stack + [a] + [b], build, ip + 12, stack + [a],
              if a.Absent? then Failed else Running(ip + 16, stack + [Items([Boolean(decides)])], build));
      } else {
        FirstDecides(p, decides, other, decided, ip, stack, build, a);
        Follow(p, ip, stack + [a] + [b], build, ip + 3, stack + [a], Then(ip + 16, stack, build, TruthValue(Truth(p.ops, Some(a)))));
      }
    }
  }

  lemma LogicRuns(decides: bool, a: Atom, b: Atom, x: Place, t: Tables, ip: nat, build: seq<Sequence>)
    requires Named(a) && Named(b) && Settled(x)
    requires var two := EmitTwo(a, b, x.scope, t);
             var e := EmitBoth(two, EmitConnective(decides, After(two, t)));
             e.Emitted? && Holds(x.p.code, ip, e.code) && Serves(x, e.tables)
    ensures var two := EmitTwo(a, b, x.scope, t);
            Yields(x.p, ip, EmitBoth(two, EmitConnective(decides, After(two, t))).code, x.stack, build,
                   Connective(x.p.ops, decides, EvalAtom(a, x.env), EvalAtom(b, x.env)))
  {
    hide Goes, Holds, EmitTwo, Settled, Encode, ConnectiveCode, Connective;
    var two := EmitTwo(a, b, x.scope, t);
    var n := |two.tables.constants|;
    HoldsParts(x.p.code, ip, two.code, ConnectiveCode(decides, n, n + 1));
    OperandsRun(a, b, x, t, ip, build);
    var v, w := EvalAtom(a, x.env).value, EvalAtom(b, x.env).value;
    ConnectiveRuns(x.p, decides, n, n + 1, ip + 6, x.stack, build, v, w);
    Follow(x.p, ip, x.stack, build, ip + 6, x.stack + [v] + [w], Then(ip + 22, x.stack, build, Connective(x.p.ops, decides, Some(v), Some(w))));
  }

  lemma IfParts(code: Code, ip: nat, c: Code, x: Code, y: Code)
    requires |x| + 3 <= MAX_JUMP && |y| <= MAX_JUMP && |c| == 3
    requires Holds(code, ip, c + (Encode(JumpIfFalse(|x| + 3)) + (x + (Encode(Jump(|y|)) + y))))
    ensures Holds(code, ip, c) && Holds(code, ip + 3, Encode(JumpIfFalse(|x| + 3))) && Holds(code, ip + 6, x)
    ensures Holds(code, ip + 6 + |x|, Encode(Jump(|y|))) && Holds(code, ip + 9 + |x|, y)
    ensures |c + (Encode(JumpIfFalse(|x| + 3)) + (x + (Encode(Jump(|y|)) + y)))| == 9 + |x| + |y|
  {
    hide Holds, Encode;
    EncodeSize(JumpIfFalse(|x| + 3));
    EncodeSize(Jump(|y|));
    HoldsParts(code, ip, c, Encode(JumpIfFalse(|x| + 3)) + (x + (Encode(Jump(|y|)) + y)));
    HoldsParts(code, ip + 3, Encode(JumpIfFalse(|x| + 3)), x + (Encode(Jump(|y|)) + y));
    HoldsParts(code, ip + 6, x, Encode(Jump(|y|)) + y);
    HoldsParts(code, ip + 6 + |x|, Encode(Jump(|y|)), y);
  }

  /** The branch that is taken leaves its value, and the other is jumped over. */
  lemma IfRuns(p: Program, ip: nat, c: Code, x: Code, y: Code, stack: seq<Value>, build: seq<Sequence>, v: Value, rx: Option<Value>, ry: Option<Value>)
    requires |x| + 3 <= MAX_JUMP && |y| <= MAX_JUMP && |c| == 3
    requires Holds(p.code, ip, c + (Encode(JumpIfFalse(|x| + 3)) + (x + (Encode(Jump(|y|)) + y))))
    requires Yields(p, ip, c, stack, build, Some(v))
    requires Yields(p, ip + 6, x, stack, build, rx) && Yields(p, ip + 9 + |x|, y, stack, build, ry)
    ensures var t := Truth(p.ops, Some(v));
            Yields(p, ip, c + (Encode(JumpIfFalse(|x| + 3)) + (x + (Encode(Jump(|y|)) + y))), stack, build,
                   if t.None? then None else if t.value then rx else ry)
  {
    hide Goes, Holds, Encode, Truth;
    IfParts(p.code, ip, c, x, y);
    var t, end := Truth(p.ops, Some(v)), ip + 9 + |x| + |y|;
    BranchRuns(p, false, |x| + 3, ip + 3, stack, v, build);
    Follow(p, ip, stack, build, ip + 3, stack + [v], Branched(p.ops, false, |x| + 3, ip + 6, stack, build, v));
    if t.Some? {
      if t.value {
        Follow(p, ip, stack, build, ip + 6, stack, Then(ip + 6 + |x|, stack, build, rx));
        if rx.Some? {
          GoesOn(p, ip, stack, build, Running(ip + 6 + |x|, stack + [rx.value], build), Jump(|y|));
        }
      } else {
        Follow(p, ip, stack, build, ip + 9 + |x|, stack, Then(end, stack, build, ry));
      }
    }
  }

  /** A local that is bound, used and dropped. */
  lemma LetRuns(p: Program, ip: nat, a: Code, b: Code, stack: seq<Value>, build: seq<Sequence>, v: Option<Value>, r: Option<Value>)
    requires Holds(p.code, ip, a + (b + Encode(LetDone))) && Yields(p, ip, a, stack, build, v)
    requires v.Some? ==> Yields(p, ip + |a|, b, stack + [v.value], build, r)
    ensures Yields(p, ip, a + (b + Encode(LetDone)), stack, build, if v.None? then None else Result(Use(r)))
  {
    hide Goes, Holds, Encode;
    HoldsParts(p.code, ip, a, b + Encode(LetDone));
    HoldsParts(p.code, ip + |a|, b, Encode(LetDone));
    if v.Some? {
      Follow(p, ip, stack, build, ip + |a|, stack + [v.value], Then(ip + |a| + |b|, stack + [v.value], build, r));
      if r.Some? {
        GoesOn(p, ip, stack, build, Running(ip + |a| + |b|, stack + [v.value] + [r.value], build), LetDone);
        PairTop(stack, v.value, r.value);
      }
    }
  }

  // ----- loops -----

  /** A loop over items, and the tables its parts are emitted with. */
  datatype Loop = Loop(names: ContextNames, over: Atom, items: Sequence, testT: Tables, getT: Tables, nextT: Tables)

  /** The place inside a loop, before its `k`-th item. */
  function In(x: Place, l: Loop, k: nat): Place {
    Having(Having(x, l.names.last, Items([Integer(|l.items|)])), l.names.position, Items([Integer(k + 1)]))
  }

  function TestOf(x: Place, l: Loop): Emitted {
    EmitTest(l.names, LoopScope(x.scope, l.names), l.testT)
  }

  function GetOf(x: Place, l: Loop): Emitted {
    EmitGet(l.names, l.over, LoopScope(x.scope, l.names), l.getT)
  }

  function NextOf(x: Place, l: Loop): Emitted {
    EmitNext(l.names, LoopScope(x.scope, l.names), l.nextT)
  }

  /** The loop's code stands at `ip`, and its parts can be used. */
  ghost predicate LoopAt(x: Place, l: Loop, ip: nat, inner: Code) {
    && LoopNamed(l.names, l.over) && Settled(x) && EvalAtom(l.over, x.env) == Some(Items(l.items))
    && TestOf(x, l).Emitted? && GetOf(x, l).Emitted? && NextOf(x, l).Emitted?
    && Serves(x, GetOf(x, l).tables) && Serves(x, NextOf(x, l).tables)
    && LoopFits(TestOf(x, l).code, inner, NextOf(x, l).code)
    && Holds(x.p.code, ip, LoopCode(TestOf(x, l).code, inner, NextOf(x, l).code))
  }

  function LoopEnd(x: Place, l: Loop, ip: nat, inner: Code): nat
    requires TestOf(x, l).Emitted? && NextOf(x, l).Emitted?
  {
    ip + |TestOf(x, l).code| + |inner| + |NextOf(x, l).code| + 6
  }

  lemma LoopParts(code: Code, ip: nat, test: Code, inner: Code, next: Code)
    requires LoopFits(test, inner, next) && Holds(code, ip, LoopCode(test, inner, next))
    ensures |LoopCode(test, inner, next)| == |test| + |inner| + |next| + 6
    ensures Holds(code, ip, test) && Holds(code, ip + |test|, Encode(JumpIfTrue(|inner| + |next| + 3)))
    ensures Holds(code, ip + |test| + 3, inner) && Holds(code, ip + |test| + 3 + |inner|, next)
    ensures Holds(code, ip + |test| + 3 + |inner| + |next|, Encode(Jump(-(|test| + |inner| + |next| + 6))))
  {
    hide Holds, Encode;
    var branch, back := JumpIfTrue(|inner| + |next| + 3), Jump(-(|test| + |inner| + |next| + 6));
    EncodeSize(branch);
    EncodeSize(back);
    HoldsParts(code, ip, test, Encode(branch) + (inner + (next + Encode(back))));
    HoldsParts(code, ip + |test|, Encode(branch), inner + (next + Encode(back)));
    HoldsParts(code, ip + |test| + 3, inner, next + Encode(back));
    HoldsParts(code, ip + |test| + 3 + |inner|, next, Encode(back));
  }

  lemma InSettled(x: Place, l: Loop, k: nat)
    requires LoopNamed(l.names, l.over) && Settled(x)
    ensures Settled(In(x, l, k)) && In(x, l, k).scope == LoopScope(x.scope, l.names)
    ensures In(x, l, k).stack == x.stack + [Items([Integer(|l.items|)])] + [Items([Integer(k + 1)])]
    ensures EvalAtom(l.over, In(x, l, k).env) == EvalAtom(l.over, x.env)
  {
    hide Settled;
    Settles(x, l.names.last, Items([Integer(|l.items|)]));
    Settles(Having(x, l.names.last, Items([Integer(|l.items|)])), l.names.position, Items([Integer(k + 1)]));
  }

  /** The test leaves the loop after the last item, and enters its body before. */
  lemma Enters(x: Place, l: Loop, ip: nat, inner: Code, k: nat, build: seq<Sequence>)
    requires LoopAt(x, l, ip, inner) && k <= |l.items|
    ensures var s, m := In(x, l, k).stack, |TestOf(x, l).code|;
            Goes(x.p, ip, s, build, Running(if k == |l.items| then LoopEnd(x, l, ip, inner) else ip + m + 3, s, build))
  {
    hide Goes, Holds, EmitVariable, Encode, Settled, LoopCode;
    var y, inside, p := In(x, l, k), LoopScope(x.scope, l.names), x.p;
    InSettled(x, l, k);
    LoopParts(p.code, ip, TestOf(x, l).code, inner, NextOf(x, l).code);
    var a := EmitVariable(l.names.position, inside, l.testT);
    var b := EmitVariable(l.names.last, inside, After(a, l.testT));
    HoldsParts(p.code, ip, a.code + b.code, Encode(Operate2(Gt)));
    HoldsParts(p.code, ip, a.code, b.code);
    LocalRuns(l.names.position, y, l.testT, [], ip, build);
    assert y.stack + [] == y.stack;
    var at, n := Items([Integer(k + 1)]), Items([Integer(|l.items|)]);
    LocalRuns(l.names.last, y, l.testT, [at], ip + 3, build);
    Follow(p, ip, y.stack, build, ip + 3, y.stack + [at], Running(ip + 6, y.stack + [at] + [n], build));
    GoesOn(p, ip, y.stack, build, Running(ip + 6, y.stack + [at] + [n], build), Operate2(Gt));
    PairTop(y.stack, at, n);
    GtIs(p.ops, x, k + 1, |l.items|);
    var past := Items([Boolean(k + 1 > |l.items|)]);
    BranchRuns(p, true, |inner| + |NextOf(x, l).code| + 3, ip + 7, y.stack, past, build);
    TruthIs(p.ops, x, k + 1 > |l.items|);
    Follow(p, ip, y.stack, build, ip + 7, y.stack + [past],
          Branched(p.ops, true, |inner| + |NextOf(x, l).code| + 3, ip + 10, y.stack, build, past));
  }

  lemma GtIs(ops: Ops, x: Place, a: int, b: int)
    requires Settled(x) && ops == x.p.ops
    ensures ops.binary(Gt, [Integer(a)], [Integer(b)]) == Some([Boolean(a > b)])
  {
  }

  lemma TruthIs(ops: Ops, x: Place, b: bool)
    requires Settled(x) && ops == x.p.ops
    ensures Truth(ops, Some(Items([Boolean(b)]))) == Some(b)
  {
  }

  lemma AddIs(ops: Ops, x: Place, a: int, b: int)
    requires Settled(x) && ops == x.p.ops
    ensures ops.binary(Add, [Integer(a)], [Integer(b)]) == Some([Integer(a + b)])
  {
  }

  /** The item is on the stack. */
  lemma Gets(x: Place, l: Loop, ip: nat, k: nat, build: seq<Sequence>)
    requires LoopNamed(l.names, l.over) && Settled(x) && EvalAtom(l.over, x.env) == Some(Items(l.items)) && k < |l.items|
    requires GetOf(x, l).Emitted? && Serves(x, GetOf(x, l).tables) && Holds(x.p.code, ip, GetOf(x, l).code)
    ensures |GetOf(x, l).code| == 7
    ensures Goes(x.p, ip, In(x, l, k).stack, build, Running(ip + 7, In(x, l, k).stack + [Items([l.items[k]])], build))
  {
    hide Goes, Holds, EmitVariable, EmitAtom, Encode, Settled;
    var y, inside, p := In(x, l, k), LoopScope(x.scope, l.names), x.p;
    InSettled(x, l, k);
    var a := EmitVariable(l.names.position, inside, l.getT);
    var b := EmitAtom(l.over, inside, After(a, l.getT));
    HoldsParts(p.code, ip, a.code + b.code, Encode(IrCode.SequenceGet));
    HoldsParts(p.code, ip, a.code, b.code);
    LocalRuns(l.names.position, y, l.getT, [], ip, build);
    assert y.stack + [] == y.stack;
    var at, s := Items([Integer(k + 1)]), Items(l.items);
    AtomRuns(l.over, y, l.getT, [at], ip + 3, build);
    Follow(p, ip, y.stack, build, ip + 3, y.stack + [at], Running(ip + 6, y.stack + [at] + [s], build));
    GoesOn(p, ip, y.stack, build, Running(ip + 6, y.stack + [at] + [s], build), IrCode.SequenceGet);
    PairTop(y.stack, at, s);
  }

  lemma NextParts(x: Place, l: Loop, ip: nat)
    requires NextOf(x, l).Emitted? && Holds(x.p.code, ip, NextOf(x, l).code)
    ensures var inside := LoopScope(x.scope, l.names);
            var a := EmitVariable(l.names.position, inside, l.nextT);
            var one := EmitConstant([Integer(1)], After(a, l.nextT));
            var store := EmitSet(l.names.position, inside, After(EmitBoth(a, one), l.nextT));
            && a.Emitted? && one.Emitted? && store.Emitted? && |one.code| == 3 && NextOf(x, l).tables == one.tables
            && Holds(x.p.code, ip, a.code) && Holds(x.p.code, ip + |a.code|, one.code)
            && Holds(x.p.code, ip + |a.code| + 3, Encode(Operate2(Add)))
            && Holds(x.p.code, ip + |a.code| + 4, store.code)
            && |NextOf(x, l).code| == |a.code| + 4 + |store.code|
  {
    hide Holds, EmitVariable, Encode;
    var inside := LoopScope(x.scope, l.names);
    var a := EmitVariable(l.names.position, inside, l.nextT);
    var one := EmitConstant([Integer(1)], After(a, l.nextT));
    var store := EmitSet(l.names.position, inside, After(EmitBoth(a, one), l.nextT));
    EncodeSize(Const(|After(a, l.nextT).constants|));
    EncodeSize(Operate2(Add));
    HoldsParts(x.p.code, ip, a.code + one.code + Encode(Operate2(Add)), store.code);
    HoldsParts(x.p.code, ip, a.code + one.code, Encode(Operate2(Add)));
    HoldsParts(x.p.code, ip, a.code, one.code);
  }

  /** The position is set to the next. */
  lemma Nexts(x: Place, l: Loop, ip: nat, k: nat, build: seq<Sequence>)
    requires LoopNamed(l.names, l.over) && Settled(x)
    requires NextOf(x, l).Emitted? && Serves(x, NextOf(x, l).tables) && Holds(x.p.code, ip, NextOf(x, l).code)
    ensures Goes(x.p, ip, In(x, l, k).stack, build, Running(ip + |NextOf(x, l).code|, In(x, l, k + 1).stack, build))
  {
    hide Goes, Holds, EmitVariable, Encode, Settled;
    var y, inside, p := In(x, l, k), LoopScope(x.scope, l.names), x.p;
    var a := EmitVariable(l.names.position, inside, l.nextT);
    InSettled(x, l, k);
    InSettled(x, l, k + 1);
    NextParts(x, l, ip);
    LocalRuns(l.names.position, y, l.nextT, [], ip, build);
    assert y.stack + [] == y.stack;
    var at, one, then_ := Items([Integer(k + 1)]), Items([Integer(1)]), Items([Integer(k + 2)]);
    var n := |a.tables.constants|;
    assert p.constants[n] == [Integer(1)];
    ConstRuns(p, n, [Integer(1)], ip + 3, y.stack + [at], build);
    Follow(p, ip, y.stack, build, ip + 3, y.stack + [at], Running(ip + 6, y.stack + [at] + [one], build));
    GoesOn(p, ip, y.stack, build, Running(ip + 6, y.stack + [at] + [one], build), Operate2(Add));
    PairTop(y.stack, at, one);
    AddIs(p.ops, x, k + 1, 1);
    PositionSet(x, l, k, a.tables);
    GoesOn(p, ip, y.stack, build, Running(ip + 7, y.stack + [then_], build), Set(|x.stack| + 1));
    SetTop(x.stack, Items([Integer(|l.items|)]), at, then_);
    EncodeSize(Set(|x.stack| + 1));
  }

  lemma PositionSet(x: Place, l: Loop, k: nat, t: Tables)
    requires LoopNamed(l.names, l.over) && Settled(x) && EmitSet(l.names.position, LoopScope(x.scope, l.names), t).Emitted?
    ensures |x.stack| + 1 <= MAX_INDEX
    ensures EmitSet(l.names.position, LoopScope(x.scope, l.names), t).code == Encode(Set(|x.stack| + 1))
  {
    hide Encode;
  }

  lemma SetTop(stack: seq<Value>, n: Value, at: Value, v: Value)
    ensures var s := stack + [n] + [at] + [v]; |s| == |stack| + 3 && Rest(s)[|stack| + 1 := Top(s)] == stack + [n] + [v]
  {
  }

  /** After an item the run is back at the test, for the next one. */
  lemma Repeats(x: Place, l: Loop, ip: nat, inner: Code, k: nat, build: seq<Sequence>)
    requires LoopAt(x, l, ip, inner)
    ensures Goes(x.p, ip + |TestOf(x, l).code| + 3 + |inner|, In(x, l, k).stack, build, Running(ip, In(x, l, k + 1).stack, build))
  {
    hide Goes, Holds, Encode, Settled, LoopCode, TestOf, NextOf;
    var test, next := TestOf(x, l).code, NextOf(x, l).code;
    LoopParts(x.p.code, ip, test, inner, next);
    var at := ip + |test| + 3 + |inner|;
    Nexts(x, l, at, k, build);
    GoesOn(x.p, at, In(x, l, k).stack, build, Running(at + |next|, In(x, l, k + 1).stack, build), Jump(-(|test| + |inner| + |next| + 6)));
  }

  /** Before the loop: the length and the first position, or the error of an absent sequence. */
  lemma Inits(x: Place, l: Loop, t: Tables, ip: nat, build: seq<Sequence>)
    requires LoopNamed(l.names, l.over) && Settled(x)
    requires var e := EmitInit(l.over, x.scope, t); e.Emitted? && Holds(x.p.code, ip, e.code) && Serves(x, e.tables)
    ensures EvalAtom(l.over, x.env).Some? && |EmitInit(l.over, x.scope, t).code| == 7
    ensures var v := EvalAtom(l.over, x.env).value;
            && (v == Items(l.items) ==> Goes(x.p, ip, x.stack, build, Running(ip + 7, In(x, l, 0).stack, build)))
            && (v.Absent? ==> Goes(x.p, ip, x.stack, build, Failed))
  {
    hide Goes, Holds, EmitAtom, Encode, Settled;
    var a := EmitAtom(l.over, x.scope, t);
    var one := EmitConstant([Integer(1)], a.tables);
    EncodeSize(IrCode.SequenceLen);
    EncodeSize(Const(|a.tables.constants|));
    HoldsParts(x.p.code, ip, a.code + Encode(IrCode.SequenceLen), one.code);
    HoldsParts(x.p.code, ip, a.code, Encode(IrCode.SequenceLen));
    AtomRuns(l.over, x, t, [], ip, build);
    assert x.stack + [] == x.stack;
    var v := EvalAtom(l.over, x.env).value;
    OneTop(x.stack, v);
    GoesOn(x.p, ip, x.stack, build, Running(ip + 3, x.stack + [v], build), IrCode.SequenceLen);
    if v == Items(l.items) {
      var n := Items([Integer(|l.items|)]);
      var k := |a.tables.constants|;
      assert x.p.constants[k] == [Integer(1)];
      ConstRuns(x.p, k, [Integer(1)], ip + 4, x.stack + [n], build);
      Follow(x.p, ip, x.stack, build, ip + 4, x.stack + [n], Running(ip + 7, x.stack + [n] + [Items([Integer(1)])], build));
    }
  }

  /** The place of a loop's body. */
  function BodyPlace(x: Place, l: Loop, k: nat): Place
    requires k < |l.items|
  {
    Having(In(x, l, k), l.names.item, Items([l.items[k]]))
  }

  lemma BodySettled(x: Place, l: Loop, k: nat, t: Tables)
    requires LoopNamed(l.names, l.over) && Settled(x) && k < |l.items|
    ensures Settled(BodyPlace(x, l, k)) && BodyPlace(x, l, k).scope == Bound(LoopScope(x.scope, l.names), l.names.item)
    ensures BodyPlace(x, l, k).env == LoopEnv(x.env, l.names, l.items, k) && BodyPlace(x, l, k).p == x.p
    ensures BodyPlace(x, l, k).stack == In(x, l, k).stack + [Items([l.items[k]])]
    ensures Serves(x, t) ==> Serves(BodyPlace(x, l, k), t)
  {
    hide Settled;
    InSettled(x, l, k);
    Settles(In(x, l, k), l.names.item, Items([l.items[k]]));
  }

  /** The code at a loop's body yields the body's value for each item. */
  ghost predicate BodyYields(x: Place, l: Loop, body: Expr, at: nat, code: Code, build: seq<Sequence>, k: nat) {
    k < |l.items| ==>
      Yields(x.p, at, code, BodyPlace(x, l, k).stack, build, Eval(body, LoopEnv(x.env, l.names, l.items, k), x.p.ops))
  }

  /** Where a loop that builds a sequence leads from its `k`-th item. */
  function Built(end: nat, stack: seq<Value>, build: seq<Sequence>, acc: Sequence, r: Option<Sequence>): Machine {
    if r.None? then Failed else Running(end, stack, build + [acc + r.value])
  }

  /** What `for` and `!` do with an item's value. */
  lemma PushesValue(p: Program, ip: nat, stack: seq<Value>, item: Value, build: seq<Sequence>, acc: Sequence, v: Value)
    requires Holds(p.code, ip, MAP_PUSH) && item.Items?
    ensures |MAP_PUSH| == 2
    ensures Goes(p, ip, stack + [item] + [v], build + [acc], if v.Absent? then Failed else Running(ip + 2, stack, build + [acc + v.items]))
  {
    hide Goes, Holds, Encode;
    EncodeSize(BuildPush);
    EncodeSize(IrCode.Pop);
    HoldsParts(p.code, ip, Encode(BuildPush), Encode(IrCode.Pop));
    PairTop(stack, item, v);
    GoesOne(p, BuildPush, ip, stack + [item] + [v], build + [acc]);
    if v.Items? {
      assert (build + [acc])[..|build|] == build;
      OneTop(stack, item);
      GoesOn(p, ip, stack + [item] + [v], build + [acc], Running(ip + 1, stack + [item], build + [acc + v.items]), IrCode.Pop);
    }
  }

  /** One turn of a loop that builds a sequence. */
  lemma MapTurn(x: Place, l: Loop, body: Expr, value: Code, ip: nat, build: seq<Sequence>, acc: Sequence, k: nat)
    requires GetOf(x, l).Emitted? && LoopAt(x, l, ip, GetOf(x, l).code + value + MAP_PUSH)
    requires k < |l.items| && BodyYields(x, l, body, ip + |TestOf(x, l).code| + 10, value, build + [acc], k)
    ensures var s := Use(Eval(body, LoopEnv(x.env, l.names, l.items, k), x.p.ops));
            Goes(x.p, ip, In(x, l, k).stack, build + [acc],
                 if s.None? then Failed else Running(ip, In(x, l, k + 1).stack, build + [acc + s.value]))
  {
    hide Goes, Holds, Encode, Settled, LoopCode, TestOf, NextOf, GetOf, Eval, Serves, MAP_PUSH;
    var get := GetOf(x, l).code;
    var inner := get + value + MAP_PUSH;
    var at, stack := ip + |TestOf(x, l).code| + 3, In(x, l, k).stack;
    LoopParts(x.p.code, ip, TestOf(x, l).code, inner, NextOf(x, l).code);
    HoldsParts(x.p.code, at, get + value, MAP_PUSH);
    HoldsParts(x.p.code, at, get, value);
    Enters(x, l, ip, inner, k, build + [acc]);
    Gets(x, l, at, k, build + [acc]);
    var item, v := Items([l.items[k]]), Eval(body, LoopEnv(x.env, l.names, l.items, k), x.p.ops);
    BodySettled(x, l, k, l.testT);
    Follow(x.p, ip, stack, build + [acc], at, stack, Running(at + 7, stack + [item], build + [acc]));
    Follow(x.p, ip, stack, build + [acc], at + 7, stack + [item], Then(at + 7 + |value|, stack + [item], build + [acc], v));
    if v.Some? {
      PushesValue(x.p, at + 7 + |value|, stack, item, build, acc, v.value);
      var s := Use(v);
      var to := if s.None? then Failed else Running(at + 9 + |value|, stack, build + [acc + s.value]);
      Follow(x.p, ip, stack, build + [acc], at + 7 + |value|, stack + [item] + [v.value], to);
      if s.Some? {
        Repeats(x, l, ip, inner, k, build + [acc + s.value]);
        FollowBuilt(x.p, ip, stack, build + [acc], at + |inner|, stack, build + [acc + s.value],
               Running(ip, In(x, l, k + 1).stack, build + [acc + s.value]));
      }
    }
  }

  lemma FollowBuilt(p: Program, ip: nat, stack: seq<Value>, build: seq<Sequence>, mid: nat, s: seq<Value>, b: seq<Sequence>, to: Machine)
    requires Goes(p, ip, stack, build, Running(mid, s, b)) && Goes(p, mid, s, b, to)
    ensures Goes(p, ip, stack, build, to)
  {
    hide Reaches;
    GoesThen(p, ip, stack, build, Running(mid, s, b), to);
  }

  /** The instructions that test a predicate's value, and push the item if it is kept, or drop it. */
  predicate KeepAt(code: Code, ip: nat, position: Code) {
    && Holds(code, ip, Encode(Dup)) && Holds(code, ip + 1, Encode(IrCode.IsNumeric))
    && Holds(code, ip + 2, Encode(JumpIfFalse(4))) && Holds(code, ip + 5, position) && |position| == 3
    && Holds(code, ip + 8, Encode(Operate2(Eq))) && Holds(code, ip + 9, Encode(JumpIfTrue(4)))
    && Holds(code, ip + 12, Encode(IrCode.Pop)) && Holds(code, ip + 13, Encode(Jump(1)))
    && Holds(code, ip + 16, Encode(BuildPush)) && |KEEP| == 8
  }

  function KeepOf(x: Place, l: Loop, t: Tables): Emitted {
    EmitKeep(l.names, LoopScope(x.scope, l.names), t)
  }

  function PositionOf(x: Place, l: Loop, t: Tables): Emitted {
    EmitVariable(l.names.position, LoopScope(x.scope, l.names), t)
  }

  lemma KeepParts(x: Place, l: Loop, t: Tables, ip: nat)
    requires KeepOf(x, l, t).Emitted? && Holds(x.p.code, ip, KeepOf(x, l, t).code)
    ensures PositionOf(x, l, t).Emitted? && |KeepOf(x, l, t).code| == 17 && KeepAt(x.p.code, ip, PositionOf(x, l, t).code)
  {
    hide Holds, Encode, EmitVariable;
    var code, position := x.p.code, EmitVariable(l.names.position, LoopScope(x.scope, l.names), t).code;
    EncodeSize(Dup);
    EncodeSize(IrCode.IsNumeric);
    EncodeSize(JumpIfFalse(4));
    EncodeSize(Operate2(Eq));
    EncodeSize(JumpIfTrue(4));
    EncodeSize(IrCode.Pop);
    EncodeSize(Jump(1));
    EncodeSize(BuildPush);
    HoldsParts(code, ip, Encode(Dup), Encode(IrCode.IsNumeric) + (Encode(JumpIfFalse(4)) + (position + (Encode(Operate2(Eq)) + KEEP))));
    HoldsParts(code, ip + 1, Encode(IrCode.IsNumeric), Encode(JumpIfFalse(4)) + (position + (Encode(Operate2(Eq)) + KEEP)));
    HoldsParts(code, ip + 2, Encode(JumpIfFalse(4)), position + (Encode(Operate2(Eq)) + KEEP));
    HoldsParts(code, ip + 5, position, Encode(Operate2(Eq)) + KEEP);
    HoldsParts(code, ip + 8, Encode(Operate2(Eq)), KEEP);
    HoldsParts(code, ip + 9, Encode(JumpIfTrue(4)), Encode(IrCode.Pop) + (Encode(Jump(1)) + Encode(BuildPush)));
    HoldsParts(code, ip + 12, Encode(IrCode.Pop), Encode(Jump(1)) + Encode(BuildPush));
    HoldsParts(code, ip + 13, Encode(Jump(1)), Encode(BuildPush));
  }

  /** The test of a kept item, once there is a value to test: `t` is on top of the item. */
  lemma KeepTested(p: Program, ip: nat, stack: seq<Value>, item: Item, build: seq<Sequence>, acc: Sequence, t: Value)
    requires Holds(p.code, ip, Encode(JumpIfTrue(4))) && Holds(p.code, ip + 3, Encode(IrCode.Pop))
    requires Holds(p.code, ip + 4, Encode(Jump(1))) && Holds(p.code, ip + 7, Encode(BuildPush))
    ensures var keeps := Truth(p.ops, Some(t));
            Goes(p, ip, stack + [Items([item])] + [t], build + [acc],
                 if keeps.None? then Failed else Running(ip + 8, stack, build + [if keeps.value then acc + [item] else acc]))
  {
    hide Goes, Holds, Encode, Truth;
    var s, v := stack + [Items([item])], Items([item]);
    var keeps := Truth(p.ops, Some(t));
    OneTop(stack, v);
    BranchRuns(p, true, 4, ip, s, t, build + [acc]);
    if keeps.Some? {
      if keeps.value {
        GoesOn(p, ip, s + [t], build + [acc], Running(ip + 7, s, build + [acc]), BuildPush);
        assert (build + [acc])[..|build|] == build;
      } else {
        GoesOn(p, ip, s + [t], build + [acc], Running(ip + 3, s, build + [acc]), IrCode.Pop);
        GoesOn(p, ip, s + [t], build + [acc], Running(ip + 4, stack, build + [acc]), Jump(1));
      }
    }
  }

  /** A number on top is compared with the position. */
  lemma KeepCompares(x: Place, l: Loop, t: Tables, ip: nat, k: nat, item: Value, v: Value, build: seq<Sequence>)
    requires LoopNamed(l.names, l.over) && Settled(x)
    requires var e := EmitVariable(l.names.position, LoopScope(x.scope, l.names), t);
             e.Emitted? && |e.code| == 3 && Holds(x.p.code, ip, e.code) && Holds(x.p.code, ip + 3, Encode(Operate2(Eq)))
    ensures var stack := In(x, l, k).stack;
            Goes(x.p, ip, stack + [item] + [v], build,
                 Then(ip + 4, stack + [item], build, Apply2(x.p.ops, Eq, Some(v), Some(Items([Integer(k + 1)])))))
  {
    hide Goes, Holds, Encode, Settled, EmitVariable;
    var y, at := In(x, l, k), Items([Integer(k + 1)]);
    InSettled(x, l, k);
    LocalRuns(l.names.position, y, t, [item, v], ip, build);
    assert y.stack + [item, v] == y.stack + [item] + [v];
    GoesOn(x.p, ip, y.stack + [item] + [v], build, Running(ip + 3, y.stack + [item] + [v] + [at], build), Operate2(Eq));
    PairTop(y.stack + [item], v, at);
  }

  /** The item is kept, or dropped, as the value of the predicate says. */
  lemma KeepRuns(x: Place, l: Loop, t: Tables, ip: nat, k: nat, build: seq<Sequence>, acc: Sequence, v: Value)
    requires LoopNamed(l.names, l.over) && Settled(x) && k < |l.items|
    requires var e := EmitKeep(l.names, LoopScope(x.scope, l.names), t); e.Emitted? && Holds(x.p.code, ip, e.code)
    ensures var keeps, stack := Keeps(x.p.ops, Some(v), k + 1), In(x, l, k).stack;
            Goes(x.p, ip, stack + [Items([l.items[k]])] + [v], build + [acc],
                 if keeps.None? then Failed
                 else Running(ip + 17, stack, build + [if keeps.value then acc + [l.items[k]] else acc]))
  {
    hide Goes, Holds, Encode, Settled, EmitVariable, EmitKeep, Truth, Apply2;
    var p, stack, item, b := x.p, In(x, l, k).stack, Items([l.items[k]]), build + [acc];
    var s := stack + [item];
    KeepParts(x, l, t, ip);
    OneTop(s, v);
    GoesOne(p, Dup, ip, s + [v], b);
    if v.Items? {
      OneTop(s + [v], v);
      GoesOn(p, ip, s + [v], b, Running(ip + 1, s + [v] + [v], b), IrCode.IsNumeric);
      var numeric := p.ops.numeric(v.items);
      UseIs(v);
      if numeric.Some? {
        var n := Items([Boolean(numeric.value)]);
        BranchRuns(p, false, 4, ip + 2, s + [v], n, b);
        TruthIs(p.ops, x, numeric.value);
        Follow(p, ip, s + [v], b, ip + 2, s + [v] + [n], Branched(p.ops, false, 4, ip + 5, s + [v], b, n));
        if numeric.value {
          var r := Apply2(p.ops, Eq, Some(v), Some(Items([Integer(k + 1)])));
          KeepCompares(x, l, t, ip + 5, k, item, v, b);
          Follow(p, ip, s + [v], b, ip + 5, s + [v], Then(ip + 9, s, b, r));
          if r.Some? {
            KeepTested(p, ip + 9, stack, l.items[k], build, acc, r.value);
            KeepEnds(p, ip, s + [v], b, ip + 9, s + [r.value], stack, build, acc, l.items[k], Truth(p.ops, r));
          }
          NoTruth(p.ops, r);
        } else {
          KeepTested(p, ip + 9, stack, l.items[k], build, acc, v);
          KeepEnds(p, ip, s + [v], b, ip + 9, s + [v], stack, build, acc, l.items[k], Truth(p.ops, Some(v)));
          TruthOf(p.ops, v);
        }
      }
    }
  }

  lemma UseIs(v: Value)
    requires v.Items?
    ensures Use(Some(v)) == Some(v.items)
  {
  }

  lemma TruthOf(ops: Ops, v: Value)
    requires v.Items?
    ensures Truth(ops, Some(v)) == ops.truth(v.items)
  {
  }

  lemma NoTruth(ops: Ops, r: Option<Value>)
    ensures r.None? ==> Truth(ops, r).None?
  {
  }

  lemma KeepEnds(p: Program, ip: nat, from: seq<Value>, b: seq<Sequence>, mid: nat, s: seq<Value>, stack: seq<Value>, build: seq<Sequence>,
                 acc: Sequence, item: Item, keeps: Option<bool>)
    requires Goes(p, ip, from, b, Running(mid, s, b))
    requires Goes(p, mid, s, b, if keeps.None? then Failed
                                else Running(mid + 8, stack, build + [if keeps.value then acc + [item] else acc]))
    ensures Goes(p, ip, from, b, if keeps.None? then Failed
                                 else Running(mid + 8, stack, build + [if keeps.value then acc + [item] else acc]))
  {
    hide Reaches;
    GoesThen(p, ip, from, b, Running(mid, s, b),
             if keeps.None? then Failed else Running(mid + 8, stack, build + [if keeps.value then acc + [item] else acc]));
  }

  /** One turn of a filter. */
  lemma FilterTurn(x: Place, l: Loop, body: Expr, value: Code, keepT: Tables, ip: nat, build: seq<Sequence>, acc: Sequence, k: nat)
    requires var keep := EmitKeep(l.names, LoopScope(x.scope, l.names), keepT);
             keep.Emitted? && GetOf(x, l).Emitted? && LoopAt(x, l, ip, GetOf(x, l).code + value + keep.code)
    requires k < |l.items| && BodyYields(x, l, body, ip + |TestOf(x, l).code| + 10, value, build + [acc], k)
    ensures var keeps := Keeps(x.p.ops, Eval(body, LoopEnv(x.env, l.names, l.items, k), x.p.ops), k + 1);
            Goes(x.p, ip, In(x, l, k).stack, build + [acc],
                 if keeps.None? then Failed
                 else Running(ip, In(x, l, k + 1).stack, build + [if keeps.value then acc + [l.items[k]] else acc]))
  {
    hide Goes, Holds, Encode, Settled, LoopCode, TestOf, NextOf, GetOf, Eval, Serves, EmitKeep, Keeps;
    var get, keep := GetOf(x, l).code, EmitKeep(l.names, LoopScope(x.scope, l.names), keepT).code;
    var inner, b := get + value + keep, build + [acc];
    var at, stack := ip + |TestOf(x, l).code| + 3, In(x, l, k).stack;
    LoopParts(x.p.code, ip, TestOf(x, l).code, inner, NextOf(x, l).code);
    HoldsParts(x.p.code, at, get + value, keep);
    HoldsParts(x.p.code, at, get, value);
    Enters(x, l, ip, inner, k, b);
    Gets(x, l, at, k, b);
    KeepParts(x, l, keepT, at + 7 + |value|);
    var item, v := Items([l.items[k]]), Eval(body, LoopEnv(x.env, l.names, l.items, k), x.p.ops);
    BodySettled(x, l, k, l.testT);
    Follow(x.p, ip, stack, b, at, stack, Running(at + 7, stack + [item], b));
    Follow(x.p, ip, stack, b, at + 7, stack + [item], Then(at + 7 + |value|, stack + [item], b, v));
    NoKeeps(x.p.ops, v, k + 1);
    if v.Some? {
      KeepRuns(x, l, keepT, at + 7 + |value|, k, build, acc, v.value);
      var keeps := Keeps(x.p.ops, v, k + 1);
      var to := if keeps.None? then Failed else Running(at + 24 + |value|, stack, build + [if keeps.value then acc + [l.items[k]] else acc]);
      Follow(x.p, ip, stack, b, at + 7 + |value|, stack + [item] + [v.value], to);
      if keeps.Some? {
        Repeats(x, l, ip, inner, k, to.build);
        FollowBuilt(x.p, ip, stack, b, at + |inner|, stack, to.build, Running(ip, In(x, l, k + 1).stack, to.build));
      }
    }
  }

  lemma NoKeeps(ops: Ops, v: Option<Value>, k: int)
    ensures v.None? ==> Keeps(ops, v, k).None?
  {
  }

  // ----- the end of loops -----

  lemma LoopEndRuns(x: Place, l: Loop, ip: nat, k: nat, build: seq<Sequence>)
    requires Holds(x.p.code, ip, LOOP_END)
    ensures |LOOP_END| == 2 && Goes(x.p, ip, In(x, l, k).stack, build, Running(ip + 2, x.stack, build))
  {
    hide Goes, Holds, Encode;
    EncodeSize(IrCode.Pop);
    HoldsParts(x.p.code, ip, Encode(IrCode.Pop), Encode(IrCode.Pop));
    var n, at := Items([Integer(|l.items|)]), Items([Integer(k + 1)]);
    PairTop(x.stack, n, at);
    GoesOne(x.p, IrCode.Pop, ip, x.stack + [n] + [at], build);
    OneTop(x.stack, n);
    GoesOn(x.p, ip, x.stack + [n] + [at], build, Running(ip + 1, x.stack + [n], build), IrCode.Pop);
  }

  lemma BuiltParts(code: Code, ip: nat, init: Code, loop: Code)
    requires Holds(code, ip, Encode(BuildNew) + (init + (loop + (LOOP_END + Encode(BuildComplete)))))
    ensures Holds(code, ip, Encode(BuildNew)) && Holds(code, ip + 1, init) && Holds(code, ip + 1 + |init|, loop)
    ensures Holds(code, ip + 1 + |init| + |loop|, LOOP_END) && Holds(code, ip + 3 + |init| + |loop|, Encode(BuildComplete))
    ensures |Encode(BuildNew) + (init + (loop + (LOOP_END + Encode(BuildComplete))))| == 4 + |init| + |loop|
  {
    hide Holds, Encode;
    EncodeSize(BuildNew);
    EncodeSize(BuildComplete);
    EncodeSize(IrCode.Pop);
    HoldsParts(code, ip, Encode(BuildNew), init + (loop + (LOOP_END + Encode(BuildComplete))));
    HoldsParts(code, ip + 1, init, loop + (LOOP_END + Encode(BuildComplete)));
    HoldsParts(code, ip + 1 + |init|, loop, LOOP_END + Encode(BuildComplete));
    HoldsParts(code, ip + 1 + |init| + |loop|, LOOP_END, Encode(BuildComplete));
  }

  /** A new sequence is begun, built by the loop and left as the value. */
  lemma BuiltRuns(x: Place, l: Loop, ip: nat, init: Code, loop: Code, build: seq<Sequence>, r: Option<Sequence>)
    requires |init| == 7 && Holds(x.p.code, ip, Encode(BuildNew) + (init + (loop + (LOOP_END + Encode(BuildComplete)))))
    requires Goes(x.p, ip + 1, x.stack, build + [[]], Running(ip + 8, In(x, l, 0).stack, build + [[]]))
    requires Goes(x.p, ip + 8, In(x, l, 0).stack, build + [[]],
                  Built(ip + 8 + |loop|, In(x, l, |l.items|).stack, build, [], r))
    ensures Yields(x.p, ip, Encode(BuildNew) + (init + (loop + (LOOP_END + Encode(BuildComplete)))), x.stack, build, Result(r))
  {
    hide Goes, Holds, Encode, LOOP_END, In;
    BuiltParts(x.p.code, ip, init, loop);
    GoesOne(x.p, BuildNew, ip, x.stack, build);
    var b, n := build + [[]], |l.items|;
    FollowBuilt(x.p, ip, x.stack, build, ip + 1, x.stack, b, Running(ip + 8, In(x, l, 0).stack, b));
    FollowBuilt(x.p, ip, x.stack, build, ip + 8, In(x, l, 0).stack, b, Built(ip + 8 + |loop|, In(x, l, n).stack, build, [], r));
    if r.Some? {
      var b2 := build + [[] + r.value];
      assert [] + r.value == r.value && b2[..|build|] == build;
      LoopEndRuns(x, l, ip + 8 + |loop|, n, b2);
      FollowBuilt(x.p, ip, x.stack, build, ip + 8 + |loop|, In(x, l, n).stack, b2, Running(ip + 10 + |loop|, x.stack, b2));
      GoesOn(x.p, ip, x.stack, build, Running(ip + 10 + |loop|, x.stack, b2), BuildComplete);
    }
  }

  /** The sequence the loop is over is absent. */
  lemma BuiltFails(x: Place, ip: nat, init: Code, loop: Code, build: seq<Sequence>)
    requires Holds(x.p.code, ip, Encode(BuildNew) + (init + (loop + (LOOP_END + Encode(BuildComplete)))))
    requires Goes(x.p, ip + 1, x.stack, build + [[]], Failed)
    ensures Goes(x.p, ip, x.stack, build, Failed)
  {
    hide Goes, Holds, Encode;
    BuiltParts(x.p.code, ip, init, loop);
    GoesOne(x.p, BuildNew, ip, x.stack, build);
    FollowBuilt(x.p, ip, x.stack, build, ip + 1, x.stack, build + [[]], Failed);
  }

  // ----- quantified expressions -----

  lemma QuantifiedParts(code: Code, ip: nat, reached: nat, out: nat)
    requires reached <= MAX_INDEX && out <= MAX_INDEX && Holds(code, ip, QuantifiedEnd(reached, out))
    ensures |QuantifiedEnd(reached, out)| == 14
    ensures Holds(code, ip, LOOP_END) && Holds(code, ip + 2, Encode(Const(reached))) && Holds(code, ip + 5, Encode(Jump(6)))
    ensures Holds(code, ip + 8, Encode(IrCode.Pop)) && Holds(code, ip + 9, LOOP_END) && Holds(code, ip + 11, Encode(Const(out)))
  {
    hide Holds, Encode;
    EncodeSize(IrCode.Pop);
    EncodeSize(Const(reached));
    EncodeSize(Const(out));
    EncodeSize(Jump(6));
    HoldsParts(code, ip, LOOP_END, Encode(Const(reached)) + (Encode(Jump(6)) + (Encode(IrCode.Pop) + (LOOP_END + Encode(Const(out))))));
    HoldsParts(code, ip + 2, Encode(Const(reached)), Encode(Jump(6)) + (Encode(IrCode.Pop) + (LOOP_END + Encode(Const(out)))));
    HoldsParts(code, ip + 5, Encode(Jump(6)), Encode(IrCode.Pop) + (LOOP_END + Encode(Const(out))));
    HoldsParts(code, ip + 8, Encode(IrCode.Pop), LOOP_END + Encode(Const(out)));
    HoldsParts(code, ip + 9, LOOP_END, Encode(Const(out)));
  }

  /** The two constants at a quantified loop's end. */
  predicate Answers(p: Program, every: bool, reached: nat, out: nat) {
    && reached <= MAX_INDEX && out <= MAX_INDEX && reached < |p.constants| && out < |p.constants|
    && p.constants[reached] == [Boolean(every)] && p.constants[out] == [Boolean(!every)]
  }

  /** After the last item. */
  lemma ReachedEnd(x: Place, l: Loop, every: bool, reached: nat, out: nat, ip: nat, k: nat, build: seq<Sequence>)
    requires Answers(x.p, every, reached, out) && Holds(x.p.code, ip, QuantifiedEnd(reached, out))
    ensures Goes(x.p, ip, In(x, l, k).stack, build, Running(ip + 14, x.stack + [Items([Boolean(every)])], build))
  {
    hide Goes, Holds, Encode, QuantifiedEnd, LOOP_END, In;
    QuantifiedParts(x.p.code, ip, reached, out);
    LoopEndRuns(x, l, ip, k, build);
    ConstRuns(x.p, reached, [Boolean(every)], ip + 2, x.stack, build);
    var s := x.stack + [Items([Boolean(every)])];
    Follow(x.p, ip, In(x, l, k).stack, build, ip + 2, x.stack, Running(ip + 5, s, build));
    GoesOn(x.p, ip, In(x, l, k).stack, build, Running(ip + 5, s, build), Jump(6));
  }

  /** Out of the loop at the item that decides. */
  lemma JumpedOut(x: Place, l: Loop, every: bool, reached: nat, out: nat, ip: nat, k: nat, item: Value, build: seq<Sequence>)
    requires Answers(x.p, every, reached, out) && Holds(x.p.code, ip, QuantifiedEnd(reached, out)) && item.Items?
    ensures Goes(x.p, ip + 8, In(x, l, k).stack + [item], build, Running(ip + 14, x.stack + [Items([Boolean(!every)])], build))
  {
    hide Goes, Holds, Encode, QuantifiedEnd, LOOP_END, In;
    var stack := In(x, l, k).stack;
    QuantifiedParts(x.p.code, ip, reached, out);
    OneTop(stack, item);
    GoesOne(x.p, IrCode.Pop, ip + 8, stack + [item], build);
    LoopEndRuns(x, l, ip + 9, k, build);
    Follow(x.p, ip + 8, stack + [item], build, ip + 9, stack, Running(ip + 11, x.stack, build));
    ConstRuns(x.p, out, [Boolean(!every)], ip + 11, x.stack, build);
    Follow(x.p, ip + 8, stack + [item], build, ip + 11, x.stack, Running(ip + 14, x.stack + [Items([Boolean(!every)])], build));
  }

  function QuantifiedInner(get: Code, value: Code, every: bool, out: nat): Code
    requires out <= MAX_JUMP
  {
    get + value + (Encode(Branch(!every, out)) + Encode(IrCode.Pop))
  }

  /** One turn: the loop is left if the value decides. */
  lemma QuantifiedTurn(x: Place, l: Loop, every: bool, body: Expr, value: Code, out: nat, ip: nat, build: seq<Sequence>, k: nat)
    requires out <= MAX_JUMP && GetOf(x, l).Emitted? && LoopAt(x, l, ip, QuantifiedInner(GetOf(x, l).code, value, every, out))
    requires out == |NextOf(x, l).code| + 12
    requires k < |l.items| && BodyYields(x, l, body, ip + |TestOf(x, l).code| + 10, value, build, k)
    ensures var t := Truth(x.p.ops, Eval(body, LoopEnv(x.env, l.names, l.items, k), x.p.ops));
            var end := LoopEnd(x, l, ip, QuantifiedInner(GetOf(x, l).code, value, every, out));
            Goes(x.p, ip, In(x, l, k).stack, build,
                 if t.None? then Failed
                 else if t.value != every then Running(end + 8, In(x, l, k).stack + [Items([l.items[k]])], build)
                 else Running(ip, In(x, l, k + 1).stack, build))
  {
    hide Goes, Holds, Encode, Settled, LoopCode, TestOf, NextOf, GetOf, Eval, Serves, Truth;
    var get, tail := GetOf(x, l).code, Encode(Branch(!every, out)) + Encode(IrCode.Pop);
    var inner := QuantifiedInner(get, value, every, out);
    var at, stack := ip + |TestOf(x, l).code| + 3, In(x, l, k).stack;
    EncodeSize(Branch(!every, out));
    EncodeSize(IrCode.Pop);
    LoopParts(x.p.code, ip, TestOf(x, l).code, inner, NextOf(x, l).code);
    HoldsParts(x.p.code, at, get + value, tail);
    HoldsParts(x.p.code, at, get, value);
    HoldsParts(x.p.code, at + |get| + |value|, Encode(Branch(!every, out)), Encode(IrCode.Pop));
    Enters(x, l, ip, inner, k, build);
    Gets(x, l, at, k, build);
    var item, v := Items([l.items[k]]), Eval(body, LoopEnv(x.env, l.names, l.items, k), x.p.ops);
    BodySettled(x, l, k, l.testT);
    Follow(x.p, ip, stack, build, at, stack, Running(at + 7, stack + [item], build));
    Follow(x.p, ip, stack, build, at + 7, stack + [item], Then(at + 7 + |value|, stack + [item], build, v));
    NoTruth(x.p.ops, v);
    if v.Some? {
      var on := at + 7 + |value|;
      BranchRuns(x.p, !every, out, on, stack + [item], v.value, build);
      Follow(x.p, ip, stack, build, on, stack + [item] + [v.value], Branched(x.p.ops, !every, out, on + 3, stack + [item], build, v.value));
      var t := Truth(x.p.ops, v);
      if t.Some? && t.value == every {
        OneTop(stack, item);
        GoesOn(x.p, ip, stack, build, Running(on + 3, stack + [item], build), IrCode.Pop);
        Repeats(x, l, ip, inner, k, build);
        Follow(x.p, ip, stack, build, at + |inner|, stack, Running(ip, In(x, l, k + 1).stack, build));
      }
    }
  }

  // ----- joins -----

  /** Joining the last values on the stack, again and again. */
  lemma {:induction false} JoinsRun(p: Program, op: BinaryOp, ip: nat, base: seq<Value>, runs: seq<Value>, k: nat, build: seq<Sequence>)
    requires k < |runs| && Holds(p.code, ip, Repeat(Encode(Operate2(op)), k))
    ensures |Repeat(Encode(Operate2(op)), k)| == k
    ensures var r := JoinTop(p.ops, op, runs, k);
            Goes(p, ip, base + runs, build, JoinedTo(r, ip + k, base, build))
    decreases k
  {
    hide Goes, Holds, Encode, Join;
    var n, i := |runs|, Operate2(op);
    RepeatSize(op, k);
    if k == 0 {
      GoesNowhere(p, ip, base + runs, build);
    } else {
      EncodeSize(i);
      HoldsParts(p.code, ip, Encode(i), Repeat(Encode(i), k - 1));
      JoinRuns(p, op, ip, base, runs, build);
      var v := Join(p.ops, op, Some(runs[n - 2]), Some(runs[n - 1]));
      if v.Some? {
        var joined := runs[..n - 2] + [v.value];
        JoinsRun(p, op, ip + 1, base, joined, k - 1, build);
        var r := JoinTop(p.ops, op, joined, k - 1);
        Follow(p, ip, base + runs, build, ip + 1, base + joined, JoinedTo(r, ip + k, base, build));
      }
    }
  }

  ghost function JoinedTo(r: Option<seq<Value>>, ip: nat, base: seq<Value>, build: seq<Sequence>): Machine {
    if r.None? then Failed else Running(ip, base + r.value, build)
  }

  /** Joining the last two values. */
  lemma JoinRuns(p: Program, op: BinaryOp, ip: nat, base: seq<Value>, runs: seq<Value>, build: seq<Sequence>)
    requires |runs| >= 2 && Holds(p.code, ip, Encode(Operate2(op)))
    ensures var n := |runs|;
            var v := Join(p.ops, op, Some(runs[n - 2]), Some(runs[n - 1]));
            Goes(p, ip, base + runs, build, if v.None? then Failed else Running(ip + 1, base + (runs[..n - 2] + [v.value]), build))
  {
    hide Goes, Holds, Encode;
    var n := |runs|;
    LastTwo(base, runs);
    GoesOne(p, Operate2(op), ip, base + runs, build);
    var v := Join(p.ops, op, Some(runs[n - 2]), Some(runs[n - 1]));
    if v.Some? {
      assert base + runs[..n - 2] + [v.value] == base + (runs[..n - 2] + [v.value]);
    }
  }

  lemma {:induction false} RepeatSize(op: BinaryOp, k: nat)
    ensures |Repeat(Encode(Operate2(op)), k)| == k
    decreases k
  {
    EncodeSize(Operate2(op));
    if k > 0 {
      RepeatSize(op, k - 1);
    }
  }

  lemma LastTwo(base: seq<Value>, runs: seq<Value>)
    requires |runs| >= 2
    ensures var s, n := base + runs, |runs|;
            && |s| >= 2 && Top(s) == runs[n - 1] && Top(Rest(s)) == runs[n - 2] && Rest(Rest(s)) == base + runs[..n - 2]
  {
  }

  lemma GoesNowhere(p: Program, ip: nat, stack: seq<Value>, build: seq<Sequence>)
    ensures Goes(p, ip, stack, build, Running(ip, stack, build))
  {
    ReachesSelf(p, Running(ip, stack, build));
  }

  /** The place with runs waiting on the stack. */
  function WaitAll(x: Place, runs: seq<Value>): Place {
    if runs == [] then x else Wait(WaitAll(x, runs[..|runs| - 1]), runs[|runs| - 1])
  }

  lemma {:induction false} WaitingSettles(x: Place, runs: seq<Value>)
    requires Settled(x)
    ensures Settled(WaitAll(x, runs)) && WaitAll(x, runs).scope == Waiting(x.scope, |runs|)
    ensures WaitAll(x, runs).stack == x.stack + runs && WaitAll(x, runs).env == x.env && WaitAll(x, runs).p == x.p
    decreases |runs|
  {
    hide Settled;
    if runs != [] {
      var n := |runs| - 1;
      WaitingSettles(x, runs[..n]);
      SettlesWaiting(WaitAll(x, runs[..n]), runs[n]);
      assert runs == runs[..n] + [runs[n]];
    } else {
      assert x.stack + runs == x.stack;
    }
  }

  lemma JoinsAssociate(x: Place, join: BinaryOp)
    requires Settled(x) && (join == Comma || join == Union || join == Intersect)
    ensures Associative(x.p.ops, join)
  {
  }

  // ----- expressions -----

  /** The expression's code stands at `ip`, in a program that has its constants and captured values. */
  ghost predicate Ready(e: Expr, x: Place, t: Tables, ip: nat) {
    && WellFormed(e) && Settled(x) && Emit(e, x.scope, t).Emitted?
    && Holds(x.p.code, ip, Emit(e, x.scope, t).code) && Serves(x, Emit(e, x.scope, t).tables)
  }

  /** Running an expression's code leaves its value, one new value on the stack, or fails where it has none. */
  lemma {:induction false} EmitRuns(e: Expr, x: Place, t: Tables, ip: nat, build: seq<Sequence>)
    requires Ready(e, x, t, ip)
    ensures Yields(x.p, ip, Emit(e, x.scope, t).code, x.stack, build, Eval(e, x.env, x.p.ops))
    decreases e, 1, 0
  {
    hide Goes, Holds, Serves, Settled, EmitAtom, EmitTwo, EmitConnective, EmitInit, EmitTest, EmitGet, EmitNext, EmitKeep, EmitBuilt,
         EmitQuantified, EmitItems, EvalMap, EvalFilter, EvalQuantified, EvalAll, Encode;
    match e
    case AtomExpr(atom) =>
      AtomRuns(atom, x, t, [], ip, build);
      assert x.stack + [] == x.stack;
    case Let(_, _, _) => LetIsRun(e, x, t, ip, build);
    case If(_, _, _) => IfIsRun(e, x, t, ip, build);
    case Binary(op, left, right) => BinaryRuns(op, left, right, x, t, ip, build);
    case And(left, right) => LogicRuns(false, left, right, x, t, ip, build);
    case Or(left, right) => LogicRuns(true, left, right, x, t, ip, build);
    case Unary(op, atom) =>
      HoldsParts(x.p.code, ip, EmitAtom(atom, x.scope, t).code, Encode(Operate1(op)));
      AtomRuns(atom, x, t, [], ip, build);
      assert x.stack + [] == x.stack;
      OperatorRuns(op, x.p, ip, EmitAtom(atom, x.scope, t).code, x.stack, build, EvalAtom(atom, x.env));
    case Distinct(operand) =>
      HoldsParts(x.p.code, ip, Emit(operand, x.scope, t).code, Encode(Operate1(Deduplicate)));
      EmitRuns(operand, x, t, ip, build);
      OperatorRuns(Deduplicate, x.p, ip, Emit(operand, x.scope, t).code, x.stack, build, Eval(operand, x.env, x.p.ops));
    case Mapped(_, _, _) => MapIsRun(e, x, t, ip, build);
    case Filter(_, _, _) => FilterIsRun(e, x, t, ip, build);
    case Quantified(_, _, _, _) => QuantifiedIsRun(e, x, t, ip, build);
    case Joined(join, items) =>
      if items == [] {
        ConstantAtom([], x.scope, t);
        AtomRuns(Constant([]), x, t, [], ip, build);
        assert x.stack + [] == x.stack;
        NothingJoined(join, x);
      } else {
        JoinedIsRun(e, x, t, ip, build);
      }
  }

  lemma NothingJoined(join: BinaryOp, x: Place)
    ensures Eval(Joined(join, []), x.env, x.p.ops) == EvalAtom(Constant([]), x.env)
  {
  }

  lemma {:induction false} LetIsRun(e: Expr, x: Place, t: Tables, ip: nat, build: seq<Sequence>)
    requires e.Let? && Ready(e, x, t, ip)
    ensures Yields(x.p, ip, Emit(e, x.scope, t).code, x.stack, build, Eval(e, x.env, x.p.ops))
    decreases e, 0, 0
  {
    hide Goes, Holds, Serves, Settled, Encode;
    var a := Emit(e.value, x.scope, t);
    var b := Emit(e.body, Bound(x.scope, e.name), a.tables);
    HoldsParts(x.p.code, ip, a.code, b.code + Encode(LetDone));
    HoldsParts(x.p.code, ip + |a.code|, b.code, Encode(LetDone));
    EmitGrows(e.body, Bound(x.scope, e.name), a.tables);
    ServesLess(x, a.tables, b);
    EmitRuns(e.value, x, t, ip, build);
    var v := Eval(e.value, x.env, x.p.ops);
    var r := None;
    if v.Some? {
      var y := Having(x, e.name, v.value);
      Settles(x, e.name, v.value);
      ServesAlike(x, y, b.tables);
      EmitRuns(e.body, y, a.tables, ip + |a.code|, build);
      r := Eval(e.body, y.env, x.p.ops);
    }
    LetRuns(x.p, ip, a.code, b.code, x.stack, build, v, r);
  }

  /** Serving depends on the program and the captured values. */
  lemma ServesAlike(x: Place, y: Place, t: Tables)
    requires Serves(x, t) && x.p == y.p && x.env.captured == y.env.captured
    ensures Serves(y, t)
  {
  }

  lemma {:induction false} IfIsRun(e: Expr, x: Place, t: Tables, ip: nat, build: seq<Sequence>)
    requires e.If? && Ready(e, x, t, ip)
    ensures Yields(x.p, ip, Emit(e, x.scope, t).code, x.stack, build, Eval(e, x.env, x.p.ops))
    decreases e, 0, 0
  {
    hide Goes, Holds, Serves, Settled, Encode, EmitAtom, Truth;
    var c := EmitAtom(e.condition, x.scope, t);
    var a := Emit(e.whenTrue, x.scope, c.tables);
    var b := Emit(e.whenFalse, x.scope, a.tables);
    EmitGrows(e.whenTrue, x.scope, c.tables);
    EmitGrows(e.whenFalse, x.scope, a.tables);
    ServesLess(x, a.tables, b);
    ServesLess(x, c.tables, a);
    HoldsParts(x.p.code, ip, c.code, Encode(JumpIfFalse(|a.code| + 3)) + (a.code + (Encode(Jump(|b.code|)) + b.code)));
    AtomRuns(e.condition, x, t, [], ip, build);
    assert x.stack + [] == x.stack;
    IfParts(x.p.code, ip, c.code, a.code, b.code);
    EmitRuns(e.whenTrue, x, c.tables, ip + 6, build);
    EmitRuns(e.whenFalse, x, a.tables, ip + 9 + |a.code|, build);
    IfRuns(x.p, ip, c.code, a.code, b.code, x.stack, build, EvalAtom(e.condition, x.env).value,
           Eval(e.whenTrue, x.env, x.p.ops), Eval(e.whenFalse, x.env, x.p.ops));
  }

  // ----- loops over their items -----

  /** A body's code can be run at its place for every item. */
  ghost predicate BodyReady(x: Place, l: Loop, body: Expr, bodyT: Tables) {
    var value := Emit(body, Bound(LoopScope(x.scope, l.names), l.names.item), bodyT);
    WellFormed(body) && LoopNamed(l.names, l.over) && Settled(x) && value.Emitted? && Serves(x, value.tables)
  }

  function BodyCode(x: Place, l: Loop, body: Expr, bodyT: Tables): Code
    requires Emit(body, Bound(LoopScope(x.scope, l.names), l.names.item), bodyT).Emitted?
  {
    Emit(body, Bound(LoopScope(x.scope, l.names), l.names.item), bodyT).code
  }

  lemma {:induction false} BodyRuns(x: Place, l: Loop, body: Expr, bodyT: Tables, at: nat, build: seq<Sequence>, k: nat)
    requires BodyReady(x, l, body, bodyT) && Holds(x.p.code, at, BodyCode(x, l, body, bodyT)) && k < |l.items|
    ensures BodyYields(x, l, body, at, BodyCode(x, l, body, bodyT), build, k)
    decreases body, 2, 0
  {
    hide Goes, Holds, Serves, Settled, Emit, Eval;
    BodySettled(x, l, k, Emit(body, Bound(LoopScope(x.scope, l.names), l.names.item), bodyT).tables);
    EmitRuns(body, BodyPlace(x, l, k), bodyT, at, build);
  }

  /** The loop builds the values of the items from the `k`-th on. */
  lemma {:induction false} MapLoop(x: Place, l: Loop, body: Expr, bodyT: Tables, ip: nat, build: seq<Sequence>, acc: Sequence, k: nat)
    requires BodyReady(x, l, body, bodyT) && GetOf(x, l).Emitted? && k <= |l.items|
    requires LoopAt(x, l, ip, GetOf(x, l).code + BodyCode(x, l, body, bodyT) + MAP_PUSH)
    ensures var end := LoopEnd(x, l, ip, GetOf(x, l).code + BodyCode(x, l, body, bodyT) + MAP_PUSH);
            Goes(x.p, ip, In(x, l, k).stack, build + [acc],
                 Built(end, In(x, l, |l.items|).stack, build, acc, EvalMap(l.names, body, l.items, k, x.env, x.p.ops)))
    decreases body, 3, |l.items| - k
  {
    hide Goes, Holds, Serves, Settled, Emit, Eval, BodyCode, TestOf, GetOf, NextOf, MAP_PUSH, LoopCode, In;
    var get, value := GetOf(x, l).code, BodyCode(x, l, body, bodyT);
    var inner := get + value + MAP_PUSH;
    if k == |l.items| {
      Enters(x, l, ip, inner, k, build + [acc]);
      assert acc + [] == acc;
    } else {
      var at := ip + |TestOf(x, l).code| + 3;
      LoopParts(x.p.code, ip, TestOf(x, l).code, inner, NextOf(x, l).code);
      HoldsParts(x.p.code, at, get + value, MAP_PUSH);
      HoldsParts(x.p.code, at, get, value);
      Gets(x, l, at, k, build);
      BodyRuns(x, l, body, bodyT, at + 7, build + [acc], k);
      MapTurn(x, l, body, value, ip, build, acc, k);
      var s := Use(Eval(body, LoopEnv(x.env, l.names, l.items, k), x.p.ops));
      if s.Some? {
        MapLoop(x, l, body, bodyT, ip, build, acc + s.value, k + 1);
        var r := EvalMap(l.names, body, l.items, k + 1, x.env, x.p.ops);
        if r.Some? {
          assert acc + s.value + r.value == acc + (s.value + r.value);
        }
        FollowBuilt(x.p, ip, In(x, l, k).stack, build + [acc], ip, In(x, l, k + 1).stack, build + [acc + s.value],
               Built(LoopEnd(x, l, ip, inner), In(x, l, |l.items|).stack, build, acc + s.value, r));
      }
    }
  }

  /** The loop keeps those of the items from the `k`-th on that the body says. */
  lemma {:induction false} FilterLoop(x: Place, l: Loop, body: Expr, bodyT: Tables, keepT: Tables, ip: nat, build: seq<Sequence>,
                                      acc: Sequence, k: nat)
    requires BodyReady(x, l, body, bodyT) && GetOf(x, l).Emitted? && k <= |l.items|
    requires var keep := EmitKeep(l.names, LoopScope(x.scope, l.names), keepT);
             keep.Emitted? && LoopAt(x, l, ip, GetOf(x, l).code + BodyCode(x, l, body, bodyT) + keep.code)
    ensures var keep := EmitKeep(l.names, LoopScope(x.scope, l.names), keepT);
            var end := LoopEnd(x, l, ip, GetOf(x, l).code + BodyCode(x, l, body, bodyT) + keep.code);
            Goes(x.p, ip, In(x, l, k).stack, build + [acc],
                 Built(end, In(x, l, |l.items|).stack, build, acc, EvalFilter(l.names, body, l.items, k, x.env, x.p.ops)))
    decreases body, 3, |l.items| - k
  {
    hide Goes, Holds, Serves, Settled, Emit, Eval, BodyCode, TestOf, GetOf, NextOf, EmitKeep, LoopCode, In, Keeps;
    var get, value := GetOf(x, l).code, BodyCode(x, l, body, bodyT);
    var keep := EmitKeep(l.names, LoopScope(x.scope, l.names), keepT).code;
    var inner := get + value + keep;
    if k == |l.items| {
      Enters(x, l, ip, inner, k, build + [acc]);
      assert acc + [] == acc;
    } else {
      var at := ip + |TestOf(x, l).code| + 3;
      LoopParts(x.p.code, ip, TestOf(x, l).code, inner, NextOf(x, l).code);
      HoldsParts(x.p.code, at, get + value, keep);
      HoldsParts(x.p.code, at, get, value);
      Gets(x, l, at, k, build);
      BodyRuns(x, l, body, bodyT, at + 7, build + [acc], k);
      FilterTurn(x, l, body, value, keepT, ip, build, acc, k);
      var keeps := Keeps(x.p.ops, Eval(body, LoopEnv(x.env, l.names, l.items, k), x.p.ops), k + 1);
      if keeps.Some? {
        var more := if keeps.value then acc + [l.items[k]] else acc;
        FilterLoop(x, l, body, bodyT, keepT, ip, build, more, k + 1);
        var r := EvalFilter(l.names, body, l.items, k + 1, x.env, x.p.ops);
        if r.Some? && keeps.value {
          assert acc + [l.items[k]] + r.value == acc + ([l.items[k]] + r.value);
        }
        FollowBuilt(x.p, ip, In(x, l, k).stack, build + [acc], ip, In(x, l, k + 1).stack, build + [more],
               Built(LoopEnd(x, l, ip, inner), In(x, l, |l.items|).stack, build, more, r));
      }
    }
  }

  /** The loop answers for the items from the `k`-th on. */
  lemma {:induction false} QuantifiedLoop(x: Place, l: Loop, every: bool, body: Expr, bodyT: Tables, reached: nat, out: nat, ip: nat,
                                          build: seq<Sequence>, k: nat)
    requires BodyReady(x, l, body, bodyT) && GetOf(x, l).Emitted? && NextOf(x, l).Emitted? && k <= |l.items|
    requires var jump := |NextOf(x, l).code| + 12;
             && jump <= MAX_JUMP && Answers(x.p, every, reached, out)
             && var inner := QuantifiedInner(GetOf(x, l).code, BodyCode(x, l, body, bodyT), every, jump);
                LoopAt(x, l, ip, inner) && Holds(x.p.code, LoopEnd(x, l, ip, inner), QuantifiedEnd(reached, out))
    ensures var inner := QuantifiedInner(GetOf(x, l).code, BodyCode(x, l, body, bodyT), every, |NextOf(x, l).code| + 12);
            Goes(x.p, ip, In(x, l, k).stack, build,
                 Then(LoopEnd(x, l, ip, inner) + 14, x.stack, build,
                      TruthValue(EvalQuantified(every, l.names, body, l.items, k, x.env, x.p.ops))))
    decreases body, 3, |l.items| - k
  {
    hide Goes, Holds, Serves, Settled, Emit, Eval, BodyCode, TestOf, GetOf, NextOf, LoopCode, In, Truth, QuantifiedEnd, Encode;
    var get, value, jump := GetOf(x, l).code, BodyCode(x, l, body, bodyT), |NextOf(x, l).code| + 12;
    var inner := QuantifiedInner(get, value, every, jump);
    var end := LoopEnd(x, l, ip, inner);
    if k == |l.items| {
      Enters(x, l, ip, inner, k, build);
      ReachedEnd(x, l, every, reached, out, end, k, build);
      Follow(x.p, ip, In(x, l, k).stack, build, end, In(x, l, k).stack, Running(end + 14, x.stack + [Items([Boolean(every)])], build));
    } else {
      var at := ip + |TestOf(x, l).code| + 3;
      LoopParts(x.p.code, ip, TestOf(x, l).code, inner, NextOf(x, l).code);
      HoldsParts(x.p.code, at, get + value, Encode(Branch(!every, jump)) + Encode(IrCode.Pop));
      HoldsParts(x.p.code, at, get, value);
      Gets(x, l, at, k, build);
      BodyRuns(x, l, body, bodyT, at + 7, build, k);
      QuantifiedTurn(x, l, every, body, value, jump, ip, build, k);
      var t := Truth(x.p.ops, Eval(body, LoopEnv(x.env, l.names, l.items, k), x.p.ops));
      if t.Some? && t.value != every {
        var item := Items([l.items[k]]);
        JumpedOut(x, l, every, reached, out, end, k, item, build);
        Follow(x.p, ip, In(x, l, k).stack, build, end + 8, In(x, l, k).stack + [item], Running(end + 14, x.stack + [Items([Boolean(!every)])], build));
      } else if t.Some? {
        QuantifiedLoop(x, l, every, body, bodyT, reached, out, ip, build, k + 1);
        var r := EvalQuantified(every, l.names, body, l.items, k + 1, x.env, x.p.ops);
        Follow(x.p, ip, In(x, l, k).stack, build, ip, In(x, l, k + 1).stack, Then(end + 14, x.stack, build, TruthValue(r)));
      }
    }
  }

  // ----- loops as expressions -----

  function LoopOf(names: ContextNames, over: Atom, items: Sequence, q: LoopParted, t: Tables, next: Tables): Loop {
    Loop(names, over, items, After(q.init, t), After(q.test, t), next)
  }

  /** Everything up to the body's value can be used where what follows it can. */
  lemma LoopServes(x: Place, names: ContextNames, over: Atom, body: Expr, t: Tables)
    requires var q := PartsOf(names, over, body, x.scope, t);
             q.init.Emitted? && q.test.Emitted? && q.get.Emitted? && q.value.Emitted? && Serves(x, q.value.tables)
    ensures var q := PartsOf(names, over, body, x.scope, t);
            Serves(x, q.init.tables) && Serves(x, q.test.tables) && Serves(x, q.get.tables)
  {
    hide EmitInit, EmitTest, EmitGet, EmitKeep, Emit, Grown, Serves;
    BodyGrows(names, over, body, x.scope, t);
    var q := PartsOf(names, over, body, x.scope, t);
    ServesLess(x, q.get.tables, q.value);
    ServesLess(x, q.test.tables, q.get);
    ServesLess(x, q.init.tables, q.test);
  }

  lemma NextServes(x: Place, names: ContextNames, t: Tables)
    requires EmitNext(names, LoopScope(x.scope, names), t).Emitted? && Serves(x, EmitNext(names, LoopScope(x.scope, names), t).tables)
    ensures Serves(x, t)
  {
    hide EmitNext, Serves;
    LoopGrows(names, Constant([]), LoopScope(x.scope, names), t);
    ServesLess(x, t, EmitNext(names, LoopScope(x.scope, names), t));
  }

  lemma {:induction false} MapIsRun(e: Expr, x: Place, t: Tables, ip: nat, build: seq<Sequence>)
    requires e.Mapped? && Ready(e, x, t, ip)
    ensures Yields(x.p, ip, Emit(e, x.scope, t).code, x.stack, build, Eval(e, x.env, x.p.ops))
    decreases e, 0, 0
  {
    hide Goes, Holds, Serves, Settled, Encode, EmitInit, EmitTest, EmitGet, EmitNext, EmitKeep, LoopCode, MAP_PUSH, LOOP_END, EvalMap, In;
    var names, over, body := e.names, e.over, e.body;
    var q := PartsOf(names, over, body, x.scope, t);
    var next := EmitNext(names, LoopScope(x.scope, names), q.value.tables);
    var inner := q.get.code + q.value.code + MAP_PUSH;
    var loop := LoopCode(q.test.code, inner, next.code);
    NextServes(x, names, q.value.tables);
    LoopServes(x, names, over, body, t);
    BuiltParts(x.p.code, ip, q.init.code, loop);
    var s := Use(EvalAtom(over, x.env));
    var l := LoopOf(names, over, if s.Some? then s.value else [], q, t, q.value.tables);
    Inits(x, l, t, ip + 1, build + [[]]);
    if s.None? {
      BuiltFails(x, ip, q.init.code, loop, build);
    } else {
      MapLoop(x, l, body, q.get.tables, ip + 8, build, [], 0);
      LoopParts(x.p.code, ip + 8, q.test.code, inner, next.code);
      BuiltRuns(x, l, ip, q.init.code, loop, build, EvalMap(names, body, s.value, 0, x.env, x.p.ops));
    }
  }

  lemma {:induction false} FilterIsRun(e: Expr, x: Place, t: Tables, ip: nat, build: seq<Sequence>)
    requires e.Filter? && Ready(e, x, t, ip)
    ensures Yields(x.p, ip, Emit(e, x.scope, t).code, x.stack, build, Eval(e, x.env, x.p.ops))
    decreases e, 0, 0
  {
    hide Goes, Holds, Serves, Settled, Encode, EmitInit, EmitTest, EmitGet, EmitNext, EmitKeep, LoopCode, LOOP_END, EvalFilter, In;
    var names, over, body := e.names, e.over, e.body;
    var q := PartsOf(names, over, body, x.scope, t);
    var next := EmitNext(names, LoopScope(x.scope, names), q.keep.tables);
    var inner := q.get.code + q.value.code + q.keep.code;
    var loop := LoopCode(q.test.code, inner, next.code);
    NextServes(x, names, q.keep.tables);
    LoopGrows(names, over, LoopScope(x.scope, names), q.value.tables);
    ServesLess(x, q.value.tables, q.keep);
    LoopServes(x, names, over, body, t);
    BuiltParts(x.p.code, ip, q.init.code, loop);
    var s := Use(EvalAtom(over, x.env));
    var l := LoopOf(names, over, if s.Some? then s.value else [], q, t, q.keep.tables);
    Inits(x, l, t, ip + 1, build + [[]]);
    if s.None? {
      BuiltFails(x, ip, q.init.code, loop, build);
    } else {
      FilterLoop(x, l, body, q.get.tables, q.value.tables, ip + 8, build, [], 0);
      LoopParts(x.p.code, ip + 8, q.test.code, inner, next.code);
      BuiltRuns(x, l, ip, q.init.code, loop, build, EvalFilter(names, body, s.value, 0, x.env, x.p.ops));
    }
  }

  lemma AnswersServed(x: Place, every: bool, t: Tables)
    requires |t.constants| + 1 <= MAX_INDEX
    requires Serves(x, t.(constants := t.constants + [[Boolean(every)]] + [[Boolean(!every)]]))
    ensures Answers(x.p, every, |t.constants|, |t.constants| + 1) && Serves(x, t)
  {
    var all := t.constants + [[Boolean(every)]] + [[Boolean(!every)]];
    assert all[|t.constants|] == [Boolean(every)] && all[|t.constants| + 1] == [Boolean(!every)];
  }

  lemma {:induction false} QuantifiedIsRun(e: Expr, x: Place, t: Tables, ip: nat, build: seq<Sequence>)
    requires e.Quantified? && Ready(e, x, t, ip)
    ensures Yields(x.p, ip, Emit(e, x.scope, t).code, x.stack, build, Eval(e, x.env, x.p.ops))
    decreases e, 0, 0
  {
    hide Goes, Holds, Serves, Settled, Encode, EmitInit, EmitTest, EmitGet, EmitNext, EmitKeep, LoopCode, LOOP_END, EvalQuantified, In,
         QuantifiedEnd;
    var names, over, body, every := e.names, e.over, e.body, e.every;
    var q := PartsOf(names, over, body, x.scope, t);
    var next := EmitNext(names, LoopScope(x.scope, names), q.value.tables);
    var jump, n := |next.code| + 12, |next.tables.constants|;
    var inner := q.get.code + q.value.code + (Encode(Branch(!every, jump)) + Encode(IrCode.Pop));
    var loop, ending := LoopCode(q.test.code, inner, next.code), QuantifiedEnd(n, n + 1);
    AnswersServed(x, every, next.tables);
    NextServes(x, names, q.value.tables);
    LoopServes(x, names, over, body, t);
    HoldsParts(x.p.code, ip, q.init.code, loop + ending);
    HoldsParts(x.p.code, ip + |q.init.code|, loop, ending);
    var s := Use(EvalAtom(over, x.env));
    var l := LoopOf(names, over, if s.Some? then s.value else [], q, t, q.value.tables);
    Inits(x, l, t, ip, build);
    if s.Some? {
      LoopParts(x.p.code, ip + 7, q.test.code, inner, next.code);
      QuantifiedParts(x.p.code, ip + 7 + |loop|, n, n + 1);
      QuantifiedLoop(x, l, every, body, q.get.tables, n, n + 1, ip + 7, build, 0);
      var r := TruthValue(EvalQuantified(every, names, body, s.value, 0, x.env, x.p.ops));
      Follow(x.p, ip, x.stack, build, ip + 7, In(x, l, 0).stack, Then(ip + 21 + |loop|, x.stack, build, r));
    }
  }

  // ----- joined expressions -----

  /** The value of all items, once the first have the values `vs`. */
  function JoinedFrom(x: Place, join: BinaryOp, items: seq<Expr>, i: nat, vs: seq<Value>): Option<Value>
    requires i <= |items| && |vs| == i && items != []
  {
    var rest := EvalAll(items, i, x.env, x.p.ops);
    if rest.None? then None else JoinAll(x.p.ops, join, vs + rest.value)
  }

  /** The items from the `i`-th on are evaluated, and all joined. */
  lemma {:induction false} ItemsRun(join: BinaryOp, items: seq<Expr>, i: nat, x: Place, t: Tables, ip: nat, build: seq<Sequence>,
                                    runs: seq<Value>, vs: seq<Value>)
    requires i <= |items| && items != [] && Settled(x) && (join == Comma || join == Union || join == Intersect)
    requires forall j :: 0 <= j < |items| ==> WellFormed(items[j])
    requires |vs| == i && Chunked(x.p.ops, join, runs, Lens(i), vs)
    requires var e := EmitItems(join, items, i, x.scope, t); e.Emitted? && Holds(x.p.code, ip, e.code) && Serves(x, e.tables)
    ensures Goes(x.p, ip, x.stack + runs, build,
                 Then(ip + |EmitItems(join, items, i, x.scope, t).code|, x.stack, build, JoinedFrom(x, join, items, i, vs)))
    decreases items, 2, |items| - i
  {
    hide Goes, Holds, Serves, Settled, Encode, Emit, EmitItems, EvalAll, Chunked, JoinAll, JoinTop, Eval, Repeat, Lens, Waiting, Associative;
    JoinsAssociate(x, join);
    if i == |items| {
      LastItems(join, items, x, t, ip, build, runs, vs);
    } else {
      var joins := Repeat(Encode(Operate2(join)), TrailingZeros(i + 1));
      LensTotal(i);
      ChunkLengths(x.p.ops, join, runs, Lens(i), vs);
      WaitingSettles(x, runs);
      var y := WaitAll(x, runs);
      var a := Emit(items[i], y.scope, t);
      ItemsSplit(join, items, i, x.scope, t);
      var rest := EmitItems(join, items, i + 1, x.scope, a.tables);
      HoldsParts(x.p.code, ip, a.code + joins, rest.code);
      HoldsParts(x.p.code, ip, a.code, joins);
      ItemsGrow(join, items, i + 1, x.scope, a.tables);
      ServesLess(x, a.tables, rest);
      ServesAlike(x, y, a.tables);
      EmitRuns(items[i], y, t, ip, build);
      var v := Eval(items[i], x.env, x.p.ops);
      NoItem(x, join, items, i, vs);
      if v.Some? {
        ItemJoins(x.p, join, ip, a.code, x.stack, runs, vs, v.value, build);
        var r := JoinTop(x.p.ops, join, runs + [v.value], TrailingZeros(i + 1));
        var at := ip + |a.code| + TrailingZeros(i + 1);
        ItemValue(x, join, items, i, vs, v.value);
        if r.Some? {
          ItemsRun(join, items, i + 1, x, a.tables, at, build, r.value, vs + [v.value]);
          Follow(x.p, ip, x.stack + runs, build, at, x.stack + r.value,
                Then(at + |rest.code|, x.stack, build, JoinedFrom(x, join, items, i + 1, vs + [v.value])));
        } else {
          NoJoin(x, join, items, i + 1, vs + [v.value]);
        }
      }
    }
  }

  /** An item's value joins the runs that wait. */
  lemma ItemJoins(p: Program, join: BinaryOp, ip: nat, code: Code, base: seq<Value>, runs: seq<Value>, vs: seq<Value>, v: Value,
                  build: seq<Sequence>)
    requires Associative(p.ops, join) && Chunked(p.ops, join, runs, Lens(|vs|), vs)
    requires Yields(p, ip, code, base + runs, build, Some(v))
    requires Holds(p.code, ip + |code|, Repeat(Encode(Operate2(join)), TrailingZeros(|vs| + 1)))
    ensures |Repeat(Encode(Operate2(join)), TrailingZeros(|vs| + 1))| == TrailingZeros(|vs| + 1) < |runs + [v]|
    ensures var r := JoinTop(p.ops, join, runs + [v], TrailingZeros(|vs| + 1));
            && Goes(p, ip, base + runs, build,
                    if r.None? then Failed else Running(ip + |code| + TrailingZeros(|vs| + 1), base + r.value, build))
            && if r.Some? then Chunked(p.ops, join, r.value, Lens(|vs| + 1), vs + [v]) else JoinAll(p.ops, join, vs + [v]) == None
  {
    hide Goes, Holds, Encode, Chunked, JoinAll, JoinTop, Repeat, Lens, Associative;
    var k := TrailingZeros(|vs| + 1);
    NextRuns(p.ops, join, runs, vs, v);
    JoinsRun(p, join, ip + |code|, base, runs + [v], k, build);
    assert base + runs + [v] == base + (runs + [v]);
    var r := JoinTop(p.ops, join, runs + [v], k);
    Follow(p, ip, base + runs, build, ip + |code|, base + (runs + [v]),
           if r.None? then Failed else Running(ip + |code| + k, base + r.value, build));
  }

  lemma ItemsSplit(join: BinaryOp, items: seq<Expr>, i: nat, scope: Scope, t: Tables)
    requires i < |items| && EmitItems(join, items, i, scope, t).Emitted?
    ensures var a := Emit(items[i], Waiting(scope, CountOnes(i)), t);
            && a.Emitted?
            && var rest := EmitItems(join, items, i + 1, scope, a.tables);
               && rest.Emitted? && EmitItems(join, items, i, scope, t).tables == rest.tables
               && EmitItems(join, items, i, scope, t).code == a.code + Repeat(Encode(Operate2(join)), TrailingZeros(i + 1)) + rest.code
  {
    hide Emit, Encode, Repeat, Waiting;
  }

  lemma NoItem(x: Place, join: BinaryOp, items: seq<Expr>, i: nat, vs: seq<Value>)
    requires i < |items| && |vs| == i
    ensures Eval(items[i], x.env, x.p.ops).None? ==> JoinedFrom(x, join, items, i, vs).None?
  {
    hide Eval, JoinAll;
  }

  /** The joins at the end. */
  lemma LastItems(join: BinaryOp, items: seq<Expr>, x: Place, t: Tables, ip: nat, build: seq<Sequence>, runs: seq<Value>, vs: seq<Value>)
    requires items != [] && Associative(x.p.ops, join) && |vs| == |items| && Chunked(x.p.ops, join, runs, Lens(|vs|), vs)
    requires Holds(x.p.code, ip, EmitItems(join, items, |items|, x.scope, t).code)
    ensures Goes(x.p, ip, x.stack + runs, build,
                 Then(ip + |EmitItems(join, items, |items|, x.scope, t).code|, x.stack, build, JoinedFrom(x, join, items, |items|, vs)))
  {
    hide Goes, Holds, Encode, Chunked, JoinAll, JoinTop, Repeat, Lens, Associative;
    LastRuns(x.p.ops, join, runs, vs);
    JoinsRun(x.p, join, ip, x.stack, runs, |runs| - 1, build);
    assert vs + [] == vs;
    var r := JoinTop(x.p.ops, join, runs, |runs| - 1);
    if r.Some? {
      assert r.value == [r.value[0]];
    }
  }

  lemma ItemValue(x: Place, join: BinaryOp, items: seq<Expr>, i: nat, vs: seq<Value>, v: Value)
    requires i < |items| && |vs| == i && Eval(items[i], x.env, x.p.ops) == Some(v)
    ensures JoinedFrom(x, join, items, i, vs) == JoinedFrom(x, join, items, i + 1, vs + [v])
  {
    hide JoinAll, Eval;
    var rest := EvalAll(items, i + 1, x.env, x.p.ops);
    if rest.Some? {
      assert vs + ([v] + rest.value) == vs + [v] + rest.value;
    }
  }

  /** Values that cannot be joined cannot be joined with more. */
  lemma NoJoin(x: Place, join: BinaryOp, items: seq<Expr>, i: nat, vs: seq<Value>)
    requires 0 < i <= |items| && |vs| == i && Associative(x.p.ops, join) && JoinAll(x.p.ops, join, vs) == None
    ensures JoinedFrom(x, join, items, i, vs) == None
  {
    hide JoinAll, Eval, Associative;
    var rest := EvalAll(items, i, x.env, x.p.ops);
    if rest.Some? {
      if rest.value == [] {
        assert vs + rest.value == vs;
      } else {
        JoinAllSplits(x.p.ops, join, vs, rest.value);
        NoneJoins(x.p.ops, join, JoinAll(x.p.ops, join, rest.value));
      }
    }
  }

  lemma NoneJoins(ops: Ops, join: BinaryOp, b: Option<Value>)
    ensures Join(ops, join, None, b) == None
  {
  }

  lemma {:induction false} JoinedIsRun(e: Expr, x: Place, t: Tables, ip: nat, build: seq<Sequence>)
    requires e.Joined? && e.items != [] && Ready(e, x, t, ip)
    ensures Yields(x.p, ip, Emit(e, x.scope, t).code, x.stack, build, Eval(e, x.env, x.p.ops))
    decreases e, 0, 0
  {
    hide Goes, Holds, Serves, Settled, Encode, EmitItems, JoinAll, EvalAll;
    assert x.stack + [] == x.stack;
    ItemsRun(e.join, e.items, 0, x, t, ip, build, [], []);
    var vs := EvalAll(e.items, 0, x.env, x.p.ops);
    if vs.Some? {
      assert [] + vs.value == vs.value;
    }
  }

  // ----- whole functions -----

  /** The arguments by the names of the parameters. */
  function ParamEnv(params: seq<Name>, arguments: seq<Value>, captured: map<Name, Value>): Env
    requires |params| == |arguments|
  {
    if params == [] then Env(map[], captured)
    else
      var n := |params| - 1;
      Bind(ParamEnv(params[..n], arguments[..n], captured), params[n], arguments[n])
  }

  lemma {:induction false} ParamsSettle(p: Program, params: seq<Name>, outer: seq<seq<Name>>, arguments: seq<Value>, captured: map<Name, Value>)
    requires |params| == |arguments| && Lawful(p.ops) && WAITING !in params
    ensures Settled(Place(p, Scope(params, outer), arguments, ParamEnv(params, arguments, captured)))
    ensures ParamEnv(params, arguments, captured).captured == captured
    decreases |params|
  {
    hide Lawful;
    if params != [] {
      var n := |params| - 1;
      ParamsSettle(p, params[..n], outer, arguments[..n], captured);
      var x := Place(p, Scope(params[..n], outer), arguments[..n], ParamEnv(params[..n], arguments[..n], captured));
      Settles(x, params[n], arguments[n]);
      assert params[..n] + [params[n]] == params && arguments[..n] + [arguments[n]] == arguments;
    }
  }

  lemma ParamEnvMore(params: seq<Name>, arguments: seq<Value>, captured: map<Name, Value>, name: Name, v: Value)
    requires |params| == |arguments|
    ensures ParamEnv(params + [name], arguments + [v], captured) == Bind(ParamEnv(params, arguments, captured), name, v)
  {
    assert (params + [name])[..|params|] == params && (arguments + [v])[..|params|] == arguments;
  }

  /** A call of a compiled function returns the body's value, or ends with an error exactly when the body has none. It never
      goes where the machine has no behaviour, and no other end can be reached. */
  lemma FunctionRuns(params: seq<Name>, body: Expr, outer: seq<seq<Name>>, ops: Ops, arguments: seq<Value>,
                     captured: map<Name, Value>, closureVars: seq<Value>, build: seq<Sequence>)
    requires WellFormed(body) && Lawful(ops) && WAITING !in params && |params| == |arguments|
    requires var e := EmitFunction(params, body, outer);
             && e.Emitted? && |e.tables.closures| == |closureVars|
             && forall i :: 0 <= i < |closureVars| ==> e.tables.closures[i] in captured && closureVars[i] == captured[e.tables.closures[i]]
    ensures var e := EmitFunction(params, body, outer);
            var v := Eval(body, ParamEnv(params, arguments, captured), ops);
            Reaches(Program(e.code, e.tables.constants, closureVars, ops), Running(0, arguments, build),
                    if v.None? then Failed else Returned(v.value))
  {
    hide Reaches, Emit, Eval, Lawful, WellFormed, Encode, Settled;
    var e := EmitFunction(params, body, outer);
    var c := Emit(body, Scope(params, outer), Tables([], []));
    var p := Program(e.code, e.tables.constants, closureVars, ops);
    var x := Place(p, Scope(params, outer), arguments, ParamEnv(params, arguments, captured));
    ParamsSettle(p, params, outer, arguments, captured);
    assert Holds(p.code, 0, c.code + Encode(Return));
    HoldsParts(p.code, 0, c.code, Encode(Return));
    EmitRuns(body, x, Tables([], []), 0, build);
    var v := Eval(body, x.env, ops);
    if v.Some? {
      GoesOn(p, 0, arguments, build, Running(|c.code|, arguments + [v.value], build), Return);
      OneTop(arguments, v.value);
    }
  }
}
