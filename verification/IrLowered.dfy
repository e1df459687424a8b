/** What is lowered means what it was lowered from. */
module IrLowered {
  import opened Options
  import opened IrCode
  import opened IrMachine
  import opened IrExpr
  import opened XPathCore
  import opened IrLowering

  // ----- names stay apart -----

  /** The variables' names differ, the focus's differ from them and from each other, and all were made up already. */
  ghost predicate NamesApart(v: Vars) {
    && (forall x :: x in v.names ==> Older(v.names[x], v.counter))
    && (forall x, y :: x in v.names && y in v.names && x != y ==> v.names[x] != v.names[y])
    && (forall i :: 0 <= i < |v.contexts| && v.contexts[i].Some? ==> ContextApart(v, v.contexts[i].value))
  }

  ghost predicate ContextApart(v: Vars, n: ContextNames) {
    && Older(n.item, v.counter) && Older(n.position, v.counter) && Older(n.last, v.counter)
    && n.item != n.position && n.item != n.last && n.position != n.last
    && forall x :: x in v.names ==> v.names[x] != n.item && v.names[x] != n.position && v.names[x] != n.last
  }

  /** Names only become more. */
  ghost predicate Grown(v: Vars, w: Vars) {
    && v.counter <= w.counter && v.contexts == w.contexts
    && forall x :: x in v.names ==> x in w.names && w.names[x] == v.names[x]
  }

  lemma OlderStill(name: Name, n: nat, m: nat)
    requires Older(name, n) && n <= m
    ensures Older(name, m)
  {
  }

  lemma CounterUp(v: Vars, n: nat)
    requires NamesApart(v) && v.counter <= n
    ensures NamesApart(v.(counter := n)) && Grown(v, v.(counter := n))
  {
    var w := v.(counter := n);
    forall x | x in v.names ensures Older(v.names[x], n) {
      OlderStill(v.names[x], v.counter, n);
    }
    forall i | 0 <= i < |v.contexts| && v.contexts[i].Some? ensures ContextApart(w, v.contexts[i].value) {
      var names := v.contexts[i].value;
      OlderStill(names.item, v.counter, n);
      OlderStill(names.position, v.counter, n);
      OlderStill(names.last, v.counter, n);
    }
  }

  lemma VarNameApart(v: Vars, x: string)
    requires NamesApart(v)
    ensures var (name, w) := NewVarName(v, x);
            NamesApart(w) && Grown(v, w) && x in w.names && w.names[x] == name && Older(name, w.counter)
  {
    hide NameOf;
    if x !in v.names {
      var name := NameOf(v.counter);
      var up := v.(counter := v.counter + 1);
      CounterUp(v, v.counter + 1);
      NewIsNotOld(v.counter, v.counter);
      NewIsNotOld(v.counter, v.counter + 1);
      var w := Vars(v.counter + 1, v.names[x := name], v.contexts);
      forall i | 0 <= i < |v.contexts| && v.contexts[i].Some? ensures ContextApart(w, v.contexts[i].value) {
        assert ContextApart(v, v.contexts[i].value);
        assert ContextApart(up, v.contexts[i].value);
      }
    }
  }

  lemma PushApart(v: Vars)
    requires NamesApart(v)
    ensures var (names, w) := PushContext(v); NamesApart(w) && ContextApart(w, names) && CurrentContext(w) == Some(names)
  {
    hide NameOf;
    var (names, w) := PushContext(v);
    CounterUp(v, v.counter + 3);
    var up := v.(counter := v.counter + 3);
    NewIsNotOld(v.counter, v.counter);
    NewIsNotOld(v.counter + 1, v.counter);
    NewIsNotOld(v.counter + 2, v.counter);
    NewIsNotOld(v.counter, v.counter + 3);
    NewIsNotOld(v.counter + 1, v.counter + 3);
    NewIsNotOld(v.counter + 2, v.counter + 3);
    NewIsNotOld(v.counter, v.counter + 1);
    NewIsNotOld(v.counter + 1, v.counter + 1);
    NewIsNotOld(v.counter + 2, v.counter + 1);
    NewIsNotOld(v.counter + 1, v.counter + 2);
    NewIsNotOld(v.counter + 2, v.counter + 2);
    forall x | x in v.names ensures v.names[x] != names.item && v.names[x] != names.position && v.names[x] != names.last {
      assert Older(v.names[x], v.counter);
    }
    forall i | 0 <= i < |w.contexts| && w.contexts[i].Some? ensures ContextApart(w, w.contexts[i].value) {
      if i < |v.contexts| {
        assert ContextApart(up, v.contexts[i].value);
      }
    }
  }

  /** After a body the focus around it is back. */
  lemma PopApart(v: Vars, w: Vars)
    requires NamesApart(v) && NamesApart(w) && Grown(PushContext(v).1, w)
    ensures NamesApart(PopContext(w)) && Grown(v, PopContext(w)) && PopContext(w).counter == w.counter >= v.counter + 3
  {
    hide NameOf;
    var p := PushContext(v).1;
    assert p.contexts[..|p.contexts| - 1] == v.contexts;
    var u := PopContext(w);
    forall i | 0 <= i < |u.contexts| && u.contexts[i].Some? ensures ContextApart(u, u.contexts[i].value) {
      assert ContextApart(w, w.contexts[i].value);
    }
  }

  lemma GrownOn(u: Vars, v: Vars, w: Vars)
    requires Grown(u, v) && Grown(v, w)
    ensures Grown(u, w)
  {
  }

  // ----- environments -----

  /** The environment has the context's values under their names. */
  ghost predicate Agrees(v: Vars, c: Context, env: Env) {
    && (forall x :: x in c.vars ==> x in v.names && HasValue(env, v.names[x], c.vars[x]))
    && (c.focus.Some? ==> CurrentContext(v).Some? && FocusAgrees(CurrentContext(v).value, c.focus.value, env))
  }

  ghost predicate HasValue(env: Env, name: Name, s: Sequence) {
    name in env.locals && env.locals[name] == Items(s)
  }

  ghost predicate FocusAgrees(n: ContextNames, f: Focus, env: Env) {
    HasValue(env, n.item, f.item) && HasValue(env, n.position, [Integer(f.position)]) && HasValue(env, n.last, [Integer(f.size)])
  }

  /** Nothing is captured, and older names keep their values, or have none still. */
  ghost predicate KeepsOlder(env: Env, to: Env, n: nat) {
    && to.captured == env.captured == map[]
    && (forall name :: Older(name, n) && name in env.locals ==> name in to.locals && to.locals[name] == env.locals[name])
    && (forall name :: Older(name, n) && name in to.locals ==> name in env.locals)
  }

  lemma StillAgrees(v: Vars, w: Vars, c: Context, env: Env, to: Env)
    requires NamesApart(v) && Grown(v, w) && Agrees(v, c, env) && KeepsOlder(env, to, v.counter)
    ensures Agrees(w, c, to)
  {
    forall x | x in c.vars ensures x in w.names && HasValue(to, w.names[x], c.vars[x]) {
      assert Older(v.names[x], v.counter) && HasValue(env, v.names[x], c.vars[x]);
    }
    if c.focus.Some? {
      assert v.contexts[|v.contexts| - 1].Some?;
      assert ContextApart(v, CurrentContext(v).value);
    }
  }

  lemma KeepsOn(env: Env, mid: Env, to: Env, n: nat, m: nat)
    requires KeepsOlder(env, mid, n) && KeepsOlder(mid, to, m) && n <= m
    ensures KeepsOlder(env, to, n)
  {
    forall name | Older(name, n) ensures Older(name, m) {
      OlderStill(name, n, m);
    }
  }

  // ----- bindings in order -----

  /** The environment after the bindings, each evaluated in that of those before it. */
  function RunAll(bs: seq<Binding>, env: Env, ops: Ops): Option<Env> {
    if bs == [] then Some(env)
    else
      var n := |bs| - 1;
      var before := RunAll(bs[..n], env, ops);
      if before.None? then None
      else
        var v := Eval(bs[n].expr, before.value, ops);
        if v.None? then None else Some(Bind(before.value, bs[n].name, v.value))
  }

  lemma {:induction false} RunJoin(a: seq<Binding>, b: seq<Binding>, env: Env, ops: Ops)
    ensures var mid := RunAll(a, env, ops); RunAll(a + b, env, ops) == if mid.None? then None else RunAll(b, mid.value, ops)
    decreases |b|
  {
    hide Eval;
    if b == [] {
      assert a + b == a;
    } else {
      var n := |b| - 1;
      assert (a + b)[..|a| + n] == a + b[..n];
      RunJoin(a, b[..n], env, ops);
    }
  }

  lemma RunOne(b: Binding, env: Env, ops: Ops)
    ensures var v := Eval(b.expr, env, ops); RunAll([b], env, ops) == if v.None? then None else Some(Bind(env, b.name, v.value))
  {
    hide Eval;
    assert [b][..0] == [];
  }

  /** The last binding's name has the value; none if some binding has none. */
  ghost predicate Gives(bs: seq<Binding>, env: Env, ops: Ops, s: Option<Sequence>) {
    bs != [] &&
    match RunAll(bs, env, ops)
    case None => s.None?
    case Some(to) => s.Some? && HasValue(to, bs[|bs| - 1].name, s.value)
  }

  /** The bindings as one expression have the last one's value. */
  lemma {:induction false} ExprMeans(bs: seq<Binding>, env: Env, ops: Ops, s: Option<Sequence>)
    requires Gives(bs, env, ops, s)
    ensures Eval(ExprOf(bs), env, ops) == Result(s)
    decreases |bs|
  {
    var b, rest := bs[0], bs[1..];
    assert bs == [b] + rest;
    RunJoin([b], rest, env, ops);
    RunOne(b, env, ops);
    if |bs| > 1 {
      var v := Eval(b.expr, env, ops);
      if v.Some? {
        ExprMeans(rest, Bind(env, b.name, v.value), ops, s);
        UseResult(s);
      }
    } else {
      assert rest == [];
    }
  }

  /** Names bound are new, or are bound to themselves; and they were made up before the `m`-th. */
  ghost predicate NewNames(bs: seq<Binding>, n: nat, m: nat) {
    forall i :: 0 <= i < |bs| ==>
      Older(bs[i].name, m) && (!Older(bs[i].name, n) || bs[i].expr == AtomExpr(Variable(bs[i].name)))
  }

  /** So older names keep their values. */
  lemma {:induction false} RunKeeps(bs: seq<Binding>, env: Env, ops: Ops, n: nat, m: nat)
    requires NewNames(bs, n, m) && RunAll(bs, env, ops).Some? && env.captured == map[]
    ensures KeepsOlder(env, RunAll(bs, env, ops).value, n)
    decreases |bs|
  {
    hide Eval;
    if bs != [] {
      var k := |bs| - 1;
      RunKeeps(bs[..k], env, ops, n, m);
      var mid := RunAll(bs[..k], env, ops).value;
      assert NewNames([bs[k]], n, m);
      OneKeeps(bs[k], mid, ops, n);
    }
  }

  lemma OneKeeps(b: Binding, env: Env, ops: Ops, n: nat)
    requires !Older(b.name, n) || b.expr == AtomExpr(Variable(b.name))
    requires Eval(b.expr, env, ops).Some? && env.captured == map[]
    ensures KeepsOlder(env, Bind(env, b.name, Eval(b.expr, env, ops).value), n)
  {
  }

  /** An operand and the bindings before it. */
  ghost predicate AtomGives(a: Atom, bs: seq<Binding>, env: Env, ops: Ops, s: Option<Sequence>, m: nat) {
    && (a.Variable? ==> Older(a.name, m))
    && match RunAll(bs, env, ops)
       case None => s.None?
       case Some(to) => EvalAtom(a, to) == Result(s)
  }

  lemma TakenGives(bs: seq<Binding>, env: Env, ops: Ops, s: Option<Sequence>, n: nat, m: nat)
    requires Gives(bs, env, ops, s) && NewNames(bs, n, m) && AtomsOlder(bs, m)
    ensures var (a, rest) := TakeAtom(bs); AtomGives(a, rest, env, ops, s, m) && NewNames(rest, n, m)
  {
    var k := |bs| - 1;
    assert bs == bs[..k] + [bs[k]];
    RunJoin(bs[..k], [bs[k]], env, ops);
    var mid := RunAll(bs[..k], env, ops);
    if mid.Some? {
      RunOne(bs[k], mid.value, ops);
    }
  }

  /** Operands that are names were made up before. */
  ghost predicate AtomsOlder(bs: seq<Binding>, m: nat) {
    bs != [] &&
    var last := bs[|bs| - 1].expr;
    last.AtomExpr? && last.atom.Variable? ==> Older(last.atom.name, m)
  }

  lemma NewNamesOn(bs: seq<Binding>, n: nat, m: nat, m2: nat)
    requires NewNames(bs, n, m) && m <= m2
    ensures NewNames(bs, n, m2)
  {
    forall i | 0 <= i < |bs| ensures Older(bs[i].name, m2) {
      OlderStill(bs[i].name, m, m2);
    }
  }

  lemma NewNamesLater(bs: seq<Binding>, n: nat, n2: nat, m: nat)
    requires NewNames(bs, n2, m) && n <= n2
    ensures NewNames(bs, n, m)
  {
    forall i | 0 <= i < |bs| && Older(bs[i].name, n) ensures Older(bs[i].name, n2) {
      OlderStill(bs[i].name, n, n2);
    }
  }

  /** An operand that was evaluated keeps its value. */
  lemma AtomKeeps(a: Atom, env: Env, to: Env, n: nat)
    requires KeepsOlder(env, to, n) && (a.Variable? ==> Older(a.name, n))
    ensures EvalAtom(a, to) == EvalAtom(a, env)
  {
  }

  // ----- what is lowered is well formed -----

  ghost predicate AllWell(bs: seq<Binding>) {
    forall i :: 0 <= i < |bs| ==> bs[i].name != WAITING && WellFormed(bs[i].expr)
  }

  /** What lowering promises of names. */
  ghost predicate Shaped(l: Lowered, v: Vars) {
    && l.Lowered? && NamesApart(l.vars) && Grown(v, l.vars) && l.bindings != [] && AllWell(l.bindings)
    && NewNames(l.bindings, v.counter, l.vars.counter) && AtomsOlder(l.bindings, l.vars.counter)
  }

  /** The expression's variables are declared and have names. */
  ghost predicate Ready(a: Ast, v: Vars, vars: set<string>, focus: bool) {
    NamesApart(v) && Scoped(a, vars, focus) && vars <= v.names.Keys && (focus ==> CurrentContext(v).Some?)
  }

  lemma OldIsNamed(name: Name, n: nat)
    requires Older(name, n)
    ensures name != WAITING
  {
  }

  lemma {:induction false} ExprWell(bs: seq<Binding>)
    requires bs != [] && AllWell(bs)
    ensures WellFormed(ExprOf(bs))
    decreases |bs|
  {
    if |bs| > 1 {
      ExprWell(bs[1..]);
    }
  }

  /** An operand and the bindings before it. */
  ghost predicate Operand(a: Atom, bs: seq<Binding>, n: nat, m: nat) {
    (a.Variable? ==> Older(a.name, m)) && Named(a) && NewNames(bs, n, m) && AllWell(bs)
  }

  lemma TakenShaped(l: Lowered, v: Vars)
    requires Shaped(l, v)
    ensures var (a, bs) := TakeAtom(l.bindings); Operand(a, bs, v.counter, l.vars.counter)
  {
    var (a, bs) := TakeAtom(l.bindings);
    if a.Variable? {
      OldIsNamed(a.name, l.vars.counter);
    }
  }

  lemma BindShaped(bs: seq<Binding>, e: Expr, v: Vars, w: Vars)
    requires NamesApart(w) && Grown(v, w) && NewNames(bs, v.counter, w.counter) && AllWell(bs)
    requires WellFormed(e) && (e.AtomExpr? ==> e.atom.Constant?)
    ensures Shaped(BindNew(bs, e, w), v)
  {
    hide WellFormed, NameOf;
    CounterUp(w, w.counter + 1);
    GrownOn(v, w, w.(counter := w.counter + 1));
    NewIsNotOld(w.counter, v.counter);
    NewIsNotOld(w.counter, w.counter + 1);
    OldIsNamed(NameOf(w.counter), w.counter + 1);
    NewNamesOn(bs, v.counter, w.counter, w.counter + 1);
  }

  /** A reference to a name that is there. */
  lemma ReferenceShaped(name: Name, v: Vars)
    requires NamesApart(v) && Older(name, v.counter)
    ensures Shaped(Reference(name, v), v)
  {
    OldIsNamed(name, v.counter);
  }

  /** One operand, then a new name for what is done with it. */
  lemma OneShaped(l: Lowered, v: Vars, w: Vars, e: Expr)
    requires Shaped(l, v) && NamesApart(w) && Grown(l.vars, w) && WellFormed(e) && (e.AtomExpr? ==> e.atom.Constant?)
    ensures Shaped(BindNew(TakeAtom(l.bindings).1, e, w), v)
  {
    hide WellFormed;
    TakenShaped(l, v);
    NewNamesOn(TakeAtom(l.bindings).1, v.counter, l.vars.counter, w.counter);
    GrownOn(v, l.vars, w);
    BindShaped(TakeAtom(l.bindings).1, e, v, w);
  }

  lemma TwoShaped(l: Lowered, r: Lowered, v: Vars, op: BinaryOp)
    requires Shaped(l, v) && Shaped(r, l.vars)
    ensures var (x, ls) := TakeAtom(l.bindings);
            var (y, rs) := TakeAtom(r.bindings);
            Shaped(BindNew(ls + rs, Binary(op, x, y), r.vars), v)
  {
    var (x, ls) := TakeAtom(l.bindings);
    var (y, rs) := TakeAtom(r.bindings);
    TakenShaped(l, v);
    TakenShaped(r, l.vars);
    NewNamesOn(ls, v.counter, l.vars.counter, r.vars.counter);
    NewNamesLater(rs, v.counter, l.vars.counter, r.vars.counter);
    GrownOn(v, l.vars, r.vars);
    BindShaped(ls + rs, Binary(op, x, y), v, r.vars);
  }

  lemma TruthShaped(r: Lowered, v: Vars)
    requires Shaped(r, v)
    ensures Shaped(LowerTruth(r), v) && WellFormed(ExprOf(LowerTruth(r).bindings)) && Grown(r.vars, LowerTruth(r).vars)
  {
    var (a, bs) := TakeAtom(r.bindings);
    TakenShaped(r, v);
    OneShaped(r, v, r.vars, If(a, BooleanAtom(true), BooleanAtom(false)));
    ExprWell(LowerTruth(r).bindings);
    CounterUp(r.vars, r.vars.counter + 1);
  }

  /** The names of a loop over an operand that was there before them. */
  lemma LoopIsNamed(names: ContextNames, a: Atom, n: nat, m: nat)
    requires Named(a) && (a.Variable? ==> Older(a.name, n)) && Older(names.item, m)
    requires names.position == NameOf(n) && names.last == NameOf(n + 1)
    ensures LoopNamed(names, a)
  {
    hide NameOf;
    NewIsNotOld(n, n);
    NewIsNotOld(n + 1, n);
    NewIsNotOld(n, n + 1);
    NewIsNotOld(n + 1, n + 1);
    NewIsNotOld(n + 1, n + 2);
    OldIsNamed(names.item, m);
    OldIsNamed(NameOf(n), n + 1);
    OldIsNamed(NameOf(n + 1), n + 2);
  }

  lemma FocusIsNamed(a: Atom, n: nat)
    requires Named(a) && (a.Variable? ==> Older(a.name, n))
    ensures LoopNamed(ContextNames(NameOf(n), NameOf(n + 1), NameOf(n + 2)), a)
  {
    hide NameOf;
    if a.Variable? {
      OlderStill(a.name, n, n + 1);
    }
    NewIsNotOld(n, n + 1);
    LoopIsNamed(ContextNames(NameOf(n), NameOf(n + 1), NameOf(n + 2)), a, n + 1, n + 1);
  }

  lemma ReadyPart(a: Ast, b: Ast, v: Vars, w: Vars, vars: set<string>, focus: bool)
    requires Ready(a, v, vars, focus) && NamesApart(w) && Grown(v, w) && Scoped(b, vars, focus)
    ensures Ready(b, w, vars, focus)
  {
    hide Scoped;
  }

  lemma {:induction false} LowerShapes(a: Ast, v: Vars, vars: set<string>, focus: bool)
    requires Ready(a, v, vars, focus)
    ensures Shaped(Lower(a, v), v)
    decreases a, 1
  {
    hide NamesApart, Grown, Shaped, NewVarName, PushContext, PopContext, ExplicitContext, WellFormed, LowerTruth, LowerJoined, ExprOf,
         TakeAtom, Named;
    GrownSelf(v);
    match a
    case Literal(items) =>
      LiteralWell(items);
      NothingNew(v.counter);
      BindShaped([], AtomExpr(Constant(items)), v, v);
    case VarRef(x) => VarOlder(v, x);
      ReferenceShaped(v.names[x], v);
    case ContextItem => FocusShaped(a, v);
    case Position => FocusShaped(a, v);
    case Last => FocusShaped(a, v);
    case Operation(_, _, _) => OperationShapes(a, v, vars, focus);
    case Conjunction(left, right) => LogicShapes(a, left, right, v, vars, focus);
    case Disjunction(left, right) => LogicShapes(a, left, right, v, vars, focus);
    case Negation(_, _) => NegationShapes(a, v, vars, focus);
    case Conditional(condition, whenTrue, whenFalse) => ConditionalShapes(a, v, vars, focus);
    case LetIn(x, value, body) => LetShapes(a, v, vars, focus);
    case ForIn(x, over, body) => VariableLoopShapes(a, x, over, body, v, vars, focus);
    case ExistsIn(every, x, over, body) => VariableLoopShapes(a, x, over, body, v, vars, focus);
    case SimpleMap(over, body) => FocusLoopShapes(a, over, body, v, vars, focus);
    case PathStep(over, body) => FocusLoopShapes(a, over, body, v, vars, focus);
    case Predicate(over, body) => FocusLoopShapes(a, over, body, v, vars, focus);
    case SequenceOf(_) => ListShapes(a, v, vars, focus);
    case SetJoin(_, _) => ListShapes(a, v, vars, focus);
  }

  lemma {:induction false} OperationShapes(a: Ast, v: Vars, vars: set<string>, focus: bool)
    requires Ready(a, v, vars, focus) && a.Operation?
    ensures Shaped(Lower(a, v), v)
    decreases a, 0
  {
    hide NamesApart, Grown, Shaped, ExprOf, WellFormed, TakeAtom, Named;
    LowerShapes(a.left, v, vars, focus);
    var l := Lower(a.left, v);
    ShapedParts(l, v);
    ReadyPart(a, a.right, v, l.vars, vars, focus);
    LowerShapes(a.right, l.vars, vars, focus);
    var r := Lower(a.right, l.vars);
    ShapedParts(r, l.vars);
    TwoShaped(l, r, v, a.op2);
  }

  lemma {:induction false} NegationShapes(a: Ast, v: Vars, vars: set<string>, focus: bool)
    requires Ready(a, v, vars, focus) && a.Negation?
    ensures Shaped(Lower(a, v), v)
    decreases a, 0
  {
    hide NamesApart, Grown, Shaped, ExprOf, WellFormed, TakeAtom, Named;
    LowerShapes(a.operand, v, vars, focus);
    var l := Lower(a.operand, v);
    ShapedParts(l, v);
    TakenNamed(l, v);
    GrownSelf(l.vars);
    UnaryWell(a.op1, TakeAtom(l.bindings).0);
    OneShaped(l, v, l.vars, Unary(a.op1, TakeAtom(l.bindings).0));
  }

  lemma {:induction false} ListShapes(a: Ast, v: Vars, vars: set<string>, focus: bool)
    requires Ready(a, v, vars, focus) && (a.SequenceOf? || a.SetJoin?)
    ensures Shaped(Lower(a, v), v)
    decreases a, 0
  {
    hide NamesApart, Grown, Shaped, ExprOf, WellFormed, TakeAtom, Named, LowerJoined;
    GrownSelf(v);
    if a.operands == [] {
      LiteralWell([]);
      NothingNew(v.counter);
      BindShaped([], AtomExpr(Constant([])), v, v);
    } else if |a.operands| == 1 {
      LowerShapes(a.operands[0], v, vars, focus);
    } else if a.SequenceOf? {
      JoinedShapes(a, Comma, a.operands, v, vars, focus);
    } else {
      JoinedShapes(a, a.join, a.operands, v, vars, focus);
    }
  }

  lemma GrownSelf(v: Vars)
    ensures Grown(v, v)
  {
  }

  lemma LiteralWell(items: Sequence)
    ensures WellFormed(AtomExpr(Constant(items)))
  {
  }

  lemma UnaryWell(op: UnaryOp, a: Atom)
    requires Named(a)
    ensures WellFormed(Unary(op, a))
  {
  }

  lemma IfWell(a: Atom, x: Expr, y: Expr)
    requires Named(a) && WellFormed(x) && WellFormed(y)
    ensures WellFormed(If(a, x, y))
  {
  }

  lemma LoopWell(every: bool, names: ContextNames, a: Atom, e: Expr)
    requires LoopNamed(names, a) && WellFormed(e)
    ensures WellFormed(Mapped(names, a, e)) && WellFormed(Filter(names, a, e)) && WellFormed(Quantified(every, names, a, e))
    ensures WellFormed(Distinct(Mapped(names, a, e)))
  {
  }

  lemma TakenNamed(l: Lowered, v: Vars)
    requires Shaped(l, v)
    ensures var a := TakeAtom(l.bindings).0; Named(a) && (a.Variable? ==> Older(a.name, l.vars.counter))
  {
    hide WellFormed;
    TakenShaped(l, v);
  }

  lemma NothingNew(n: nat)
    ensures NewNames([], n, n) && AllWell([])
  {
  }

  lemma VarOlder(v: Vars, x: string)
    requires NamesApart(v) && x in v.names
    ensures Older(v.names[x], v.counter)
  {
  }

  lemma FocusShaped(a: Ast, v: Vars)
    requires NamesApart(v) && CurrentContext(v).Some?
    ensures Shaped(Reference(FocusName(a, CurrentContext(v).value), v), v)
  {
    hide Shaped;
    assert v.contexts[|v.contexts| - 1].Some?;
    assert ContextApart(v, CurrentContext(v).value);
    ReferenceShaped(FocusName(a, CurrentContext(v).value), v);
  }

  lemma ShapedParts(l: Lowered, v: Vars)
    requires Shaped(l, v)
    ensures l.Lowered? && NamesApart(l.vars) && Grown(v, l.vars) && l.bindings != [] && AllWell(l.bindings)
    ensures WellFormed(ExprOf(l.bindings))
  {
    hide WellFormed;
    ExprWell(l.bindings);
  }

  lemma {:induction false} LogicShapes(a: Ast, left: Ast, right: Ast, v: Vars, vars: set<string>, focus: bool)
    requires Ready(a, v, vars, focus) && (a == Conjunction(left, right) || a == Disjunction(left, right))
    ensures Shaped(Lower(a, v), v)
    decreases a, 0
  {
    hide NamesApart, Grown, Shaped, LowerTruth, ExprOf, WellFormed, TakeAtom, Named;
    LowerShapes(left, v, vars, focus);
    var l := Lower(left, v);
    ShapedParts(l, v);
    ReadyPart(a, right, v, l.vars, vars, focus);
    LowerShapes(right, l.vars, vars, focus);
    var r := Lower(right, l.vars);
    ShapedParts(r, l.vars);
    TruthShaped(r, l.vars);
    var truth := LowerTruth(r);
    ShapedParts(truth, l.vars);
    GrownOn(l.vars, r.vars, truth.vars);
    TakenNamed(l, v);
    var x, e := TakeAtom(l.bindings).0, ExprOf(truth.bindings);
    LiteralWell([Boolean(true)]);
    LiteralWell([Boolean(false)]);
    if a.Conjunction? {
      IfWell(x, e, BooleanAtom(false));
      OneShaped(l, v, truth.vars, If(x, e, BooleanAtom(false)));
    } else {
      IfWell(x, BooleanAtom(true), e);
      OneShaped(l, v, truth.vars, If(x, BooleanAtom(true), e));
    }
  }

  lemma {:induction false} ConditionalShapes(a: Ast, v: Vars, vars: set<string>, focus: bool)
    requires Ready(a, v, vars, focus) && a.Conditional?
    ensures Shaped(Lower(a, v), v)
    decreases a, 0
  {
    hide NamesApart, Grown, Shaped, ExprOf, WellFormed, TakeAtom, Named;
    LowerShapes(a.condition, v, vars, focus);
    var c := Lower(a.condition, v);
    ShapedParts(c, v);
    ReadyPart(a, a.whenTrue, v, c.vars, vars, focus);
    LowerShapes(a.whenTrue, c.vars, vars, focus);
    var t := Lower(a.whenTrue, c.vars);
    ShapedParts(t, c.vars);
    GrownOn(v, c.vars, t.vars);
    ReadyPart(a, a.whenFalse, v, t.vars, vars, focus);
    LowerShapes(a.whenFalse, t.vars, vars, focus);
    var f := Lower(a.whenFalse, t.vars);
    ShapedParts(f, t.vars);
    GrownOn(c.vars, t.vars, f.vars);
    TakenNamed(c, v);
    IfWell(TakeAtom(c.bindings).0, ExprOf(t.bindings), ExprOf(f.bindings));
    OneShaped(c, v, f.vars, If(TakeAtom(c.bindings).0, ExprOf(t.bindings), ExprOf(f.bindings)));
  }

  lemma {:induction false} LetShapes(a: Ast, v: Vars, vars: set<string>, focus: bool)
    requires Ready(a, v, vars, focus) && a.LetIn?
    ensures Shaped(Lower(a, v), v)
    decreases a, 0
  {
    hide NamesApart, Grown, Shaped, ExprOf, NewVarName;
    VarNameApart(v, a.x);
    var (name, v1) := NewVarName(v, a.x);
    ReadyVar(a, a.value, v, v1, vars, vars, focus);
    LowerShapes(a.value, v1, vars, focus);
    var l := Lower(a.value, v1);
    ShapedParts(l, v1);
    GrownOn(v, v1, l.vars);
    HasName(a.x, v1, l.vars);
    ReadyVar(a, a.body, v, l.vars, vars, vars + {a.x}, focus);
    LowerShapes(a.body, l.vars, vars + {a.x}, focus);
    var r := Lower(a.body, l.vars);
    ShapedParts(r, l.vars);
    GrownOn(v, l.vars, r.vars);
    OldIsNamed(name, v1.counter);
    NothingNew(v.counter);
    NewNamesOn([], v.counter, v.counter, r.vars.counter);
    BindShaped([], Let(name, ExprOf(l.bindings), ExprOf(r.bindings)), v, r.vars);
  }

  lemma HasName(x: string, v: Vars, w: Vars)
    requires x in v.names && Grown(v, w)
    ensures x in w.names && w.names[x] == v.names[x]
  {
  }

  lemma ReadyVar(a: Ast, b: Ast, v: Vars, w: Vars, vars: set<string>, vars2: set<string>, focus: bool)
    requires Ready(a, v, vars, focus) && NamesApart(w) && Grown(v, w) && Scoped(b, vars2, focus)
    requires forall x :: x in vars2 ==> x in vars || x in w.names
    ensures Ready(b, w, vars2, focus)
  {
    hide Scoped;
    forall x | x in vars2 ensures x in w.names {
      if x in vars {
        assert x in v.names;
      }
    }
  }

  lemma {:induction false} VariableLoopShapes(a: Ast, x: string, over: Ast, body: Ast, v: Vars, vars: set<string>, focus: bool)
    requires Ready(a, v, vars, focus) && (a == ForIn(x, over, body) || (a.ExistsIn? && a == ExistsIn(a.every, x, over, body)))
    ensures Shaped(Lower(a, v), v)
    decreases a, 0
  {
    hide NamesApart, Grown, Shaped, ExprOf, NewVarName, WellFormed, TakeAtom, Named, LoopNamed, NameOf;
    VarNameApart(v, x);
    var (name, v1) := NewVarName(v, x);
    ReadyVar(a, over, v, v1, vars, vars, focus);
    LowerShapes(over, v1, vars, focus);
    var l := Lower(over, v1);
    ShapedParts(l, v1);
    var (names, v2) := ExplicitContext(l.vars, name);
    CounterUp(l.vars, l.vars.counter + 2);
    GrownOn(v1, l.vars, v2);
    GrownOn(v, v1, v2);
    HasName(x, v1, v2);
    ReadyVar(a, body, v, v2, vars, vars + {x}, focus);
    LowerShapes(body, v2, vars + {x}, focus);
    VariableLoopShaped(a.ExistsIn? && a.every, name, l, Lower(body, v2), v, v1);
  }

  /** Everything about the names of a loop over a variable, once its parts are lowered. */
  lemma VariableLoopShaped(every: bool, name: Name, l: Lowered, r: Lowered, v: Vars, v1: Vars)
    requires NamesApart(v) && Grown(v, v1) && Shaped(l, v1) && Older(name, v1.counter)
    requires Shaped(r, ExplicitContext(l.vars, name).1)
    ensures l.Lowered? && r.Lowered?
    ensures var names, (y, ls), e := ExplicitContext(l.vars, name).0, TakeAtom(l.bindings), ExprOf(r.bindings);
            Shaped(BindNew(ls, Mapped(names, y, e), r.vars), v) && Shaped(BindNew(ls, Quantified(every, names, y, e), r.vars), v)
  {
    hide NamesApart, Grown, Shaped, ExprOf, WellFormed, TakeAtom, Named, LoopNamed, NameOf, BindNew;
    ShapedParts(l, v1);
    var (names, v2) := ExplicitContext(l.vars, name);
    CounterUp(l.vars, l.vars.counter + 2);
    ShapedParts(r, v2);
    TakenNamed(l, v1);
    var y := TakeAtom(l.bindings).0;
    LoopIsNamed(names, y, l.vars.counter, v1.counter);
    LoopWell(every, names, y, ExprOf(r.bindings));
    GrownOn(l.vars, v2, r.vars);
    LaterShaped(l, v, v1);
    OneShaped(l, v, r.vars, Mapped(names, y, ExprOf(r.bindings)));
    OneShaped(l, v, r.vars, Quantified(every, names, y, ExprOf(r.bindings)));
  }

  /** Names new after `v1` are new after `v`. */
  lemma LaterShaped(l: Lowered, v: Vars, v1: Vars)
    requires Shaped(l, v1) && Grown(v, v1)
    ensures Shaped(l, v)
  {
    hide WellFormed;
    GrownOn(v, v1, l.vars);
    NewNamesLater(l.bindings, v.counter, v1.counter, l.vars.counter);
  }

  lemma {:induction false} FocusLoopShapes(a: Ast, over: Ast, body: Ast, v: Vars, vars: set<string>, focus: bool)
    requires Ready(a, v, vars, focus) && (a == SimpleMap(over, body) || a == PathStep(over, body) || a == Predicate(over, body))
    ensures Shaped(Lower(a, v), v)
    decreases a, 0
  {
    hide NamesApart, Grown, Shaped, ExprOf, PopContext, WellFormed, TakeAtom, Named, LoopNamed, NameOf;
    LowerShapes(over, v, vars, focus);
    var l := Lower(over, v);
    ShapedParts(l, v);
    var (names, v2) := PushContext(l.vars);
    PushApart(l.vars);
    PushKeeps(v, l.vars, vars);
    ReadyFocus(body, v2, vars);
    LowerShapes(body, v2, vars, true);
    FocusLoopShaped(l, Lower(body, v2), v);
  }

  /** Everything about the names of a loop over the focus, once its parts are lowered. */
  lemma FocusLoopShaped(l: Lowered, r: Lowered, v: Vars)
    requires Shaped(l, v) && Shaped(r, PushContext(l.vars).1)
    ensures l.Lowered? && r.Lowered?
    ensures var names, (y, ls), e, w := PushContext(l.vars).0, TakeAtom(l.bindings), ExprOf(r.bindings), PopContext(r.vars);
            && Shaped(BindNew(ls, Mapped(names, y, e), w), v) && Shaped(BindNew(ls, Filter(names, y, e), w), v)
            && Shaped(BindNew(ls, Distinct(Mapped(names, y, e)), w), v)
  {
    hide NamesApart, Grown, Shaped, ExprOf, PopContext, WellFormed, TakeAtom, Named, LoopNamed, NameOf, BindNew;
    ShapedParts(l, v);
    var (names, v2) := PushContext(l.vars);
    ShapedParts(r, v2);
    PopApart(l.vars, r.vars);
    TakenNamed(l, v);
    var y, e := TakeAtom(l.bindings).0, ExprOf(r.bindings);
    FocusIsNamed(y, l.vars.counter);
    LoopWell(false, names, y, e);
    OneShaped(l, v, PopContext(r.vars), Mapped(names, y, e));
    OneShaped(l, v, PopContext(r.vars), Filter(names, y, e));
    OneShaped(l, v, PopContext(r.vars), Distinct(Mapped(names, y, e)));
  }

  lemma PushKeeps(v: Vars, w: Vars, vars: set<string>)
    requires Grown(v, w) && vars <= v.names.Keys
    ensures vars <= PushContext(w).1.names.Keys
  {
  }

  lemma ReadyFocus(b: Ast, w: Vars, vars: set<string>)
    requires NamesApart(w) && CurrentContext(w).Some? && vars <= w.names.Keys && Scoped(b, vars, true)
    ensures Ready(b, w, vars, true)
  {
  }

  lemma {:induction false} JoinedShapes(a: Ast, join: BinaryOp, operands: seq<Ast>, v: Vars, vars: set<string>, focus: bool)
    requires Ready(a, v, vars, focus) && |operands| > 1 && (join == Comma || join == IrCode.Union || join == IrCode.Intersect)
    requires forall i :: 0 <= i < |operands| ==> Scoped(operands[i], vars, focus)
    ensures Shaped(LowerJoined(join, operands, v), v)
    decreases operands, |operands| + 1
  {
    hide NamesApart, Grown, Shaped, Scoped;
    GrownSelf(v);
    AllShapes(a, operands, 0, v, v, vars, focus);
    var all := LowerAll(operands, 0, v).value;
    JoinWell(join, all.0);
    NothingNew(v.counter);
    CountersGrow(v, all.1);
    NewNamesOn([], v.counter, v.counter, all.1.counter);
    BindShaped([], Joined(join, all.0), v, all.1);
  }

  lemma CountersGrow(v: Vars, w: Vars)
    requires Grown(v, w)
    ensures v.counter <= w.counter
  {
  }

  lemma JoinWell(join: BinaryOp, es: seq<Expr>)
    requires es != [] && (join == Comma || join == IrCode.Union || join == IrCode.Intersect)
    requires forall i :: 0 <= i < |es| ==> WellFormed(es[i])
    ensures WellFormed(Joined(join, es))
  {
  }

  lemma {:induction false} AllShapes(a: Ast, operands: seq<Ast>, i: nat, v: Vars, w: Vars, vars: set<string>, focus: bool)
    requires i <= |operands| && Ready(a, v, vars, focus) && NamesApart(w) && Grown(v, w)
    requires forall j :: 0 <= j < |operands| ==> Scoped(operands[j], vars, focus)
    ensures var all := LowerAll(operands, i, w);
            && all.Some? && |all.value.0| == |operands| - i && (forall j :: 0 <= j < |all.value.0| ==> WellFormed(all.value.0[j]))
            && NamesApart(all.value.1) && Grown(v, all.value.1) && Grown(w, all.value.1)
    decreases operands, |operands| - i
  {
    hide NamesApart, Grown, Shaped, Scoped, Lower, ExprOf, WellFormed;
    GrownSelf(w);
    if i < |operands| {
      ReadyPart(a, operands[i], v, w, vars, focus);
      LowerShapes(operands[i], w, vars, focus);
      var l := Lower(operands[i], w);
      ShapedParts(l, w);
      GrownOn(v, w, l.vars);
      AllShapes(a, operands, i + 1, v, l.vars, vars, focus);
      GrownOn(w, l.vars, LowerAll(operands, i + 1, l.vars).value.1);
    }
  }
}
