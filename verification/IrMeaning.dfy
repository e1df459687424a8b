/** A lowered expression has the meaning of the expression it was lowered from, and so has its bytecode. */
module IrMeaning {
  import opened Options
  import opened IrCode
  import opened IrMachine
  import opened IrExpr
  import opened XPathCore
  import opened IrLowering
  import opened IrLowered
  import Emission = IrEmission
  import Correct = IrCorrect

  // ----- operands -----

  /** After an operand's bindings it has its value, and everything older is as it was. */
  lemma OperandMeans(l: Lowered, v: Vars, c: Context, env: Env, ops: Ops, s: Option<Sequence>)
    requires NamesApart(v) && Shaped(l, v) && Gives(l.bindings, env, ops, s) && Agrees(v, c, env) && env.captured == map[]
    ensures var (x, ls) := TakeAtom(l.bindings);
            match RunAll(ls, env, ops)
            case None => s.None?
            case Some(to) => EvalAtom(x, to) == Result(s) && to.captured == map[] && Agrees(l.vars, c, to) && KeepsOlder(env, to, v.counter)
  {
    hide NamesApart, WellFormed;
    ShapedParts(l, v);
    TakenGives(l.bindings, env, ops, s, v.counter, l.vars.counter);
    var (x, ls) := TakeAtom(l.bindings);
    if RunAll(ls, env, ops).Some? {
      RunKeeps(ls, env, ops, v.counter, l.vars.counter);
      StillAgrees(v, l.vars, c, env, RunAll(ls, env, ops).value);
    }
  }

  lemma BindGives(bs: seq<Binding>, e: Expr, w: Vars, env: Env, ops: Ops, s: Option<Sequence>)
    requires match RunAll(bs, env, ops)
             case None => s.None?
             case Some(to) => Eval(e, to, ops) == Result(s)
    ensures Gives(BindNew(bs, e, w).bindings, env, ops, s)
  {
    hide Eval, NameOf;
    var b := Binding(NameOf(w.counter), e);
    RunJoin(bs, [b], env, ops);
    if RunAll(bs, env, ops).Some? {
      RunOne(b, RunAll(bs, env, ops).value, ops);
    }
  }

  lemma ReferenceGives(name: Name, v: Vars, env: Env, ops: Ops, s: Sequence)
    requires HasValue(env, name, s)
    ensures Gives(Reference(name, v).bindings, env, ops, Some(s))
  {
    RunOne(Binding(name, AtomExpr(Variable(name))), env, ops);
  }

  lemma NothingRun(env: Env, ops: Ops)
    ensures RunAll([], env, ops) == Some(env)
  {
  }

  lemma TruthIs(ops: Ops, s: Option<Sequence>)
    ensures Truth(ops, Result(s)) == Ebv(ops, s)
  {
  }

  lemma OperandsApply(ops: Ops, op: BinaryOp, a: Option<Sequence>, b: Option<Sequence>)
    ensures Apply2(ops, op, Result(a), Result(b)) == Result(Both(ops, op, a, b))
  {
  }

  lemma OperandApplies(ops: Ops, op: UnaryOp, s: Option<Sequence>)
    ensures Apply1(ops, op, Result(s)) == Result(UnaryOf(ops, op, s))
  {
  }

  // ----- environments of bodies -----

  /** A variable bound to a value. */
  lemma VariableAgrees(v: Vars, c: Context, env: Env, x: string, s: Sequence)
    requires NamesApart(v) && Agrees(v, c, env) && x in v.names
    ensures Agrees(v, c.(vars := c.vars[x := s]), Bind(env, v.names[x], Items(s)))
  {
    var to := Bind(env, v.names[x], Items(s));
    forall y | y in c.vars && y != x ensures HasValue(to, v.names[y], c.vars[y]) {
      assert HasValue(env, v.names[y], c.vars[y]);
    }
    if c.focus.Some? {
      assert v.contexts[|v.contexts| - 1].Some?;
      assert ContextApart(v, CurrentContext(v).value);
    }
  }

  /** New names leave older ones as they were. */
  lemma NewKeeps(env: Env, name: Name, value: Value, n: nat)
    requires !Older(name, n) && env.captured == map[]
    ensures KeepsOlder(env, Bind(env, name, value), n)
  {
  }

  lemma LoopAgrees(v: Vars, c: Context, env: Env, x: string, w: Vars, items: Sequence, k: nat)
    requires NamesApart(v) && Agrees(v, c, env) && env.captured == map[] && x in v.names && k < |items|
    requires w == ExplicitContext(v, v.names[x]).1
    ensures var names := ExplicitContext(v, v.names[x]).0;
            NamesApart(w) && Agrees(w, Inside(c, ByVariable(x), items, k), LoopEnv(env, names, items, k))
  {
    hide NameOf;
    var names := ExplicitContext(v, v.names[x]).0;
    CounterUp(v, v.counter + 2);
    NewIsNotOld(v.counter, v.counter);
    NewIsNotOld(v.counter + 1, v.counter);
    var e1 := Bind(env, names.last, Items([Integer(|items|)]));
    var e2 := Bind(e1, names.position, Items([Integer(k + 1)]));
    NewKeeps(env, names.last, Items([Integer(|items|)]), v.counter);
    NewKeeps(e1, names.position, Items([Integer(k + 1)]), v.counter);
    KeepsOn(env, e1, e2, v.counter, v.counter);
    StillAgrees(v, w, c, env, e2);
    VariableAgrees(w, c, e2, x, [items[k]]);
  }

  lemma FocusAgreesInside(v: Vars, c: Context, env: Env, items: Sequence, k: nat)
    requires NamesApart(v) && Agrees(v, c, env) && env.captured == map[] && k < |items|
    ensures var (names, w) := PushContext(v);
            NamesApart(w) && CurrentContext(w).Some? && Agrees(w, Inside(c, ByFocus, items, k), LoopEnv(env, names, items, k))
  {
    hide NameOf;
    var (names, w) := PushContext(v);
    PushApart(v);
    var to := LoopEnv(env, names, items, k);
    forall y | y in c.vars ensures HasValue(to, v.names[y], c.vars[y]) {
      assert HasValue(env, v.names[y], c.vars[y]);
      assert ContextApart(w, names);
    }
  }

  /** A body's expression has the body's meaning at every item. */
  ghost predicate BodyMeans(e: Expr, names: ContextNames, body: Ast, b: Binder, items: Sequence, env: Env, c: Context, ops: Ops) {
    forall k :: 0 <= k < |items| ==> BodyMeansAt(e, names, body, b, items, k, env, c, ops)
  }

  ghost predicate BodyMeansAt(e: Expr, names: ContextNames, body: Ast, b: Binder, items: Sequence, k: nat, env: Env, c: Context, ops: Ops)
    requires k < |items|
  {
    Eval(e, LoopEnv(env, names, items, k), ops) == Result(Meaning(body, Inside(c, b, items, k), ops))
  }

  lemma {:induction false} MapMeans(e: Expr, names: ContextNames, body: Ast, b: Binder, items: Sequence, k: nat, env: Env, c: Context, ops: Ops)
    requires k <= |items| && BodyMeans(e, names, body, b, items, env, c, ops)
    ensures EvalMap(names, e, items, k, env, ops) == MapMeaning(b, body, items, k, c, ops)
    decreases |items| - k
  {
    hide Eval, Meaning;
    if k < |items| {
      assert BodyMeansAt(e, names, body, b, items, k, env, c, ops);
      UseResult(Meaning(body, Inside(c, b, items, k), ops));
      MapMeans(e, names, body, b, items, k + 1, env, c, ops);
    }
  }

  lemma KeepsIs(ops: Ops, s: Option<Sequence>, position: int)
    ensures Keeps(ops, Result(s), position) == Selects(ops, s, position)
  {
    if s.Some? {
      UseResult(ops.binary(Eq, s.value, [Integer(position)]));
    }
  }

  lemma {:induction false} FilterMeans(e: Expr, names: ContextNames, body: Ast, items: Sequence, k: nat, env: Env, c: Context, ops: Ops)
    requires k <= |items| && BodyMeans(e, names, body, ByFocus, items, env, c, ops)
    ensures EvalFilter(names, e, items, k, env, ops) == FilterMeaning(body, items, k, c, ops)
    decreases |items| - k
  {
    hide Eval, Meaning, Keeps, Selects;
    if k < |items| {
      assert BodyMeansAt(e, names, body, ByFocus, items, k, env, c, ops);
      KeepsIs(ops, Meaning(body, Inside(c, ByFocus, items, k), ops), k + 1);
      FilterMeans(e, names, body, items, k + 1, env, c, ops);
    }
  }

  lemma {:induction false} QuantifiedMeans(every: bool, e: Expr, names: ContextNames, body: Ast, x: string, items: Sequence, k: nat, env: Env,
                                           c: Context, ops: Ops)
    requires k <= |items| && BodyMeans(e, names, body, ByVariable(x), items, env, c, ops)
    ensures EvalQuantified(every, names, e, items, k, env, ops) == QuantifiedMeaning(every, x, body, items, k, c, ops)
    decreases |items| - k
  {
    hide Eval, Meaning, Truth, Ebv;
    if k < |items| {
      assert BodyMeansAt(e, names, body, ByVariable(x), items, k, env, c, ops);
      TruthIs(ops, Meaning(body, Inside(c, ByVariable(x), items, k), ops));
      QuantifiedMeans(every, e, names, body, x, items, k + 1, env, c, ops);
    }
  }

  // ----- expressions -----

  /** The variables are declared, their names hold their values, and nothing is captured. */
  ghost predicate At(a: Ast, v: Vars, c: Context, env: Env) {
    Ready(a, v, c.vars.Keys, c.focus.Some?) && Agrees(v, c, env) && env.captured == map[]
  }

  /** What is lowered gives the meaning. */
  lemma {:induction false} LowerMeans(a: Ast, v: Vars, c: Context, env: Env, ops: Ops)
    requires At(a, v, c, env)
    ensures Lower(a, v).Lowered? && Gives(Lower(a, v).bindings, env, ops, Meaning(a, c, ops))
    decreases a, 1
  {
    hide NamesApart, Shaped, Gives, Agrees, NewVarName, ExplicitContext, PushContext, PopContext, LowerTruth, LowerJoined, MapMeaning,
         FilterMeaning, QuantifiedMeaning, AllMeanings, JoinSequences, Ebv, BindNew, RunAll;
    LowerShapes(a, v, c.vars.Keys, c.focus.Some?);
    LoweredIs(a, v);
    match a
    case Literal(items) =>
      NothingRun(env, ops);
      BindGives([], AtomExpr(Constant(items)), v, env, ops, Some(items));
    case VarRef(x) => VarMeans(x, v, c, env, ops);
    case ContextItem => FocusMeans(a, v, c, env, ops);
    case Position => FocusMeans(a, v, c, env, ops);
    case Last => FocusMeans(a, v, c, env, ops);
    case Operation(_, _, _) => OperationMeans(a, v, c, env, ops);
    case Conjunction(left, right) => LogicMeans(a, left, right, v, c, env, ops);
    case Disjunction(left, right) => LogicMeans(a, left, right, v, c, env, ops);
    case Negation(_, _) => NegationMeans(a, v, c, env, ops);
    case Conditional(_, _, _) => ConditionalMeans(a, v, c, env, ops);
    case LetIn(_, _, _) => LetMeans(a, v, c, env, ops);
    case ForIn(x, over, body) => VariableLoopMeans(a, x, over, body, v, c, env, ops);
    case ExistsIn(_, x, over, body) => VariableLoopMeans(a, x, over, body, v, c, env, ops);
    case SimpleMap(over, body) => FocusLoopMeans(a, over, body, v, c, env, ops);
    case PathStep(over, body) => FocusLoopMeans(a, over, body, v, c, env, ops);
    case Predicate(over, body) => FocusLoopMeans(a, over, body, v, c, env, ops);
    case SequenceOf(operands) =>
      if operands == [] {
        NothingRun(env, ops);
        NoMeanings(c, ops);
        BindGives([], AtomExpr(Constant([])), v, env, ops, Some([]));
      } else if |operands| == 1 {
        LowerMeans(operands[0], v, c, env, ops);
        OneMeaning(operands, Comma, c, ops);
      } else {
        JoinedMeans(a, Comma, operands, v, c, env, ops);
      }
    case SetJoin(join, operands) =>
      if |operands| == 1 {
        LowerMeans(operands[0], v, c, env, ops);
        OneMeaning(operands, join, c, ops);
      } else {
        JoinedMeans(a, join, operands, v, c, env, ops);
      }
  }

  lemma LoweredIs(a: Ast, v: Vars)
    requires Shaped(Lower(a, v), v)
    ensures Lower(a, v).Lowered?
  {
  }

  lemma NoMeanings(c: Context, ops: Ops)
    ensures AllMeanings([], 0, c, ops) == Some([])
  {
  }

  lemma OneMeaning(operands: seq<Ast>, join: BinaryOp, c: Context, ops: Ops)
    requires |operands| == 1
    ensures var ss, s := AllMeanings(operands, 0, c, ops), Meaning(operands[0], c, ops);
            if s.None? then ss.None? else ss == Some([s.value]) && JoinSequences(ops, join, [s.value]) == s
  {
    hide Meaning;
    assert AllMeanings(operands, 1, c, ops) == Some([]);
    var s := Meaning(operands[0], c, ops);
    if s.Some? {
      assert [s.value] + [] == [s.value];
    }
  }

  lemma VarMeans(x: string, v: Vars, c: Context, env: Env, ops: Ops)
    requires Agrees(v, c, env) && x in c.vars
    ensures x in v.names && Gives(Reference(v.names[x], v).bindings, env, ops, Some(c.vars[x]))
  {
    ReferenceGives(v.names[x], v, env, ops, c.vars[x]);
  }

  lemma FocusMeans(a: Ast, v: Vars, c: Context, env: Env, ops: Ops)
    requires Agrees(v, c, env) && c.focus.Some? && (a.ContextItem? || a.Position? || a.Last?)
    ensures CurrentContext(v).Some?
    ensures Gives(Reference(FocusName(a, CurrentContext(v).value), v).bindings, env, ops, Meaning(a, c, ops))
  {
    hide Gives;
    ReferenceGives(FocusName(a, CurrentContext(v).value), v, env, ops, Meaning(a, c, ops).value);
  }

  lemma AtPart(a: Ast, b: Ast, v: Vars, w: Vars, c: Context, env: Env, to: Env)
    requires At(a, v, c, env) && NamesApart(w) && Grown(v, w) && Scoped(b, c.vars.Keys, c.focus.Some?)
    requires Agrees(w, c, to) && to.captured == map[]
    ensures At(b, w, c, to)
  {
    ReadyPart(a, b, v, w, c.vars.Keys, c.focus.Some?);
  }

  /** An operand at its place: its shape, and its value after its bindings. */
  lemma {:induction false} PartMeans(b: Ast, v: Vars, c: Context, env: Env, ops: Ops)
    requires At(b, v, c, env)
    ensures var l := Lower(b, v);
            && l.Lowered? && l.bindings != [] && Shaped(l, v) && NamesApart(l.vars) && Grown(v, l.vars)
            && var (x, ls) := TakeAtom(l.bindings);
               match RunAll(ls, env, ops)
               case None => Meaning(b, c, ops).None?
               case Some(to) =>
                 && EvalAtom(x, to) == Result(Meaning(b, c, ops)) && to.captured == map[] && Agrees(l.vars, c, to)
                 && KeepsOlder(env, to, v.counter)
    decreases b, 2
  {
    hide NamesApart, Agrees, Lower, Meaning, Shaped, Gives, Grown, RunAll, KeepsOlder;
    ReadyIs(b, v, c, env);
    LowerShapes(b, v, c.vars.Keys, c.focus.Some?);
    ShapedParts(Lower(b, v), v);
    LowerMeans(b, v, c, env, ops);
    OperandMeans(Lower(b, v), v, c, env, ops, Meaning(b, c, ops));
  }

  /** An expression of its own, at its place. */
  lemma {:induction false} WholeMeans(b: Ast, v: Vars, c: Context, env: Env, ops: Ops)
    requires At(b, v, c, env)
    ensures var l := Lower(b, v);
            && l.Lowered? && l.bindings != [] && Shaped(l, v) && NamesApart(l.vars) && Grown(v, l.vars)
            && Eval(ExprOf(l.bindings), env, ops) == Result(Meaning(b, c, ops))
    decreases b, 2
  {
    hide NamesApart, Agrees, Lower, Meaning, Shaped, Gives, Grown, Eval, ExprOf;
    LowerShapes(b, v, c.vars.Keys, c.focus.Some?);
    ShapedParts(Lower(b, v), v);
    LowerMeans(b, v, c, env, ops);
    ExprMeans(Lower(b, v).bindings, env, ops, Meaning(b, c, ops));
  }

  lemma ReadyIs(a: Ast, v: Vars, c: Context, env: Env)
    requires At(a, v, c, env)
    ensures NamesApart(v) && Agrees(v, c, env) && env.captured == map[] && Scoped(a, c.vars.Keys, c.focus.Some?)
    ensures c.vars.Keys <= v.names.Keys
  {
  }

  /** The first part of an expression is where the expression is. */
  lemma AtFirst(a: Ast, b: Ast, v: Vars, c: Context, env: Env)
    requires At(a, v, c, env) && Scoped(b, c.vars.Keys, c.focus.Some?)
    ensures At(b, v, c, env)
  {
    hide NamesApart, Agrees, Scoped;
    GrownSelf(v);
    AtPart(a, b, v, v, c, env, env);
  }

  /** A later part of an expression, in the environment it was entered with. */
  lemma AtLater(a: Ast, b: Ast, v: Vars, w: Vars, c: Context, env: Env)
    requires At(a, v, c, env) && NamesApart(w) && Grown(v, w) && Scoped(b, c.vars.Keys, c.focus.Some?)
    ensures At(b, w, c, env)
  {
    hide NamesApart, Scoped;
    StillAgrees(v, w, c, env, env);
    AtPart(a, b, v, w, c, env, env);
  }

  lemma {:induction false} OperationMeans(a: Ast, v: Vars, c: Context, env: Env, ops: Ops)
    requires At(a, v, c, env) && a.Operation? && Lower(a, v).Lowered?
    ensures Gives(Lower(a, v).bindings, env, ops, Meaning(a, c, ops))
    decreases a, 0
  {
    hide NamesApart, Agrees, Shaped, Gives, Grown, BindNew, EvalAtom, Both, RunAll, At, KeepsOlder, TakeAtom, Named, AllWell, NewNames;
    ReadyIs(a, v, c, env);
    AtFirst(a, a.left, v, c, env);
    PartMeans(a.left, v, c, env, ops);
    var l := Lower(a.left, v);
    var (x, ls) := TakeAtom(l.bindings);
    var r := Lower(a.right, l.vars);
    var (y, rs) := TakeAtom(r.bindings);
    RunJoin(ls, rs, env, ops);
    TakenShaped(l, v);
    var to := RunAll(ls, env, ops);
    if to.Some? {
      AtPart(a, a.right, v, l.vars, c, env, to.value);
      PartMeans(a.right, l.vars, c, to.value, ops);
      var end := RunAll(rs, to.value, ops);
      if end.Some? {
        AtomKeeps(x, to.value, end.value, l.vars.counter);
        OperandsApply(ops, a.op2, Meaning(a.left, c, ops), Meaning(a.right, c, ops));
      } else {
        NoBoth(ops, a.op2, Meaning(a.left, c, ops), Meaning(a.right, c, ops));
      }
    } else {
      NoBoth(ops, a.op2, Meaning(a.left, c, ops), Meaning(a.right, c, ops));
    }
    BindGives(ls + rs, Binary(a.op2, x, y), r.vars, env, ops, Meaning(a, c, ops));
  }

  lemma NoBoth(ops: Ops, op: BinaryOp, a: Option<Sequence>, b: Option<Sequence>)
    ensures a.None? || b.None? ==> Both(ops, op, a, b).None?
  {
  }

  /** An operand's truth value, as an expression. */
  lemma TruthGives(r: Lowered, env: Env, ops: Ops, s: Option<Sequence>)
    requires r.Lowered? && r.bindings != []
    requires var (y, rs) := TakeAtom(r.bindings);
             match RunAll(rs, env, ops)
             case None => s.None?
             case Some(to) => EvalAtom(y, to) == Result(s)
    ensures Eval(ExprOf(LowerTruth(r).bindings), env, ops) == Result(BooleanOf(Ebv(ops, s)))
  {
    hide Gives, ExprOf, EvalAtom, RunAll, Truth, Ebv, BindNew;
    var (y, rs) := TakeAtom(r.bindings);
    TruthIs(ops, s);
    NoTruth(ops, s);
    if RunAll(rs, env, ops).Some? {
      Constants(RunAll(rs, env, ops).value, ops);
    }
    BindGives(rs, If(y, BooleanAtom(true), BooleanAtom(false)), r.vars, env, ops, BooleanOf(Ebv(ops, s)));
    ExprMeans(LowerTruth(r).bindings, env, ops, BooleanOf(Ebv(ops, s)));
  }

  lemma NoTruth(ops: Ops, s: Option<Sequence>)
    ensures s.None? ==> Ebv(ops, s).None?
  {
  }

  lemma Constants(env: Env, ops: Ops)
    ensures forall b :: Eval(BooleanAtom(b), env, ops) == Some(Items([Boolean(b)]))
  {
  }

  lemma {:induction false} LogicMeans(a: Ast, left: Ast, right: Ast, v: Vars, c: Context, env: Env, ops: Ops)
    requires At(a, v, c, env) && (a == Conjunction(left, right) || a == Disjunction(left, right)) && Lower(a, v).Lowered?
    ensures Gives(Lower(a, v).bindings, env, ops, Meaning(a, c, ops))
    decreases a, 0
  {
    hide NamesApart, Agrees, Shaped, Gives, Grown, BindNew, EvalAtom, RunAll, At, KeepsOlder, TakeAtom, Ebv, Truth, LowerTruth, ExprOf, BooleanAtom;
    ReadyIs(a, v, c, env);
    AtFirst(a, left, v, c, env);
    PartMeans(left, v, c, env, ops);
    var l := Lower(left, v);
    var (x, ls) := TakeAtom(l.bindings);
    var r := Lower(right, l.vars);
    var truth := LowerTruth(r);
    TruthIs(ops, Meaning(left, c, ops));
    NoTruth(ops, Meaning(left, c, ops));
    var to := RunAll(ls, env, ops);
    if to.Some? {
      AtPart(a, right, v, l.vars, c, env, to.value);
      PartMeans(right, l.vars, c, to.value, ops);
      TruthGives(r, to.value, ops, Meaning(right, c, ops));
      Constants(to.value, ops);
    }
    var e := ExprOf(truth.bindings);
    if a.Conjunction? {
      BindGives(ls, If(x, e, BooleanAtom(false)), truth.vars, env, ops, Meaning(a, c, ops));
    } else {
      BindGives(ls, If(x, BooleanAtom(true), e), truth.vars, env, ops, Meaning(a, c, ops));
    }
  }

  lemma {:induction false} NegationMeans(a: Ast, v: Vars, c: Context, env: Env, ops: Ops)
    requires At(a, v, c, env) && a.Negation? && Lower(a, v).Lowered?
    ensures Gives(Lower(a, v).bindings, env, ops, Meaning(a, c, ops))
    decreases a, 0
  {
    hide NamesApart, Agrees, Shaped, Gives, Grown, BindNew, EvalAtom, RunAll, At, KeepsOlder, TakeAtom;
    ReadyIs(a, v, c, env);
    AtFirst(a, a.operand, v, c, env);
    PartMeans(a.operand, v, c, env, ops);
    var l := Lower(a.operand, v);
    var (x, ls) := TakeAtom(l.bindings);
    OperandApplies(ops, a.op1, Meaning(a.operand, c, ops));
    BindGives(ls, Unary(a.op1, x), l.vars, env, ops, Meaning(a, c, ops));
  }

  lemma {:induction false} ConditionalMeans(a: Ast, v: Vars, c: Context, env: Env, ops: Ops)
    requires At(a, v, c, env) && a.Conditional? && Lower(a, v).Lowered?
    ensures Gives(Lower(a, v).bindings, env, ops, Meaning(a, c, ops))
    decreases a, 0
  {
    hide NamesApart, Agrees, Shaped, Gives, Grown, BindNew, EvalAtom, RunAll, At, KeepsOlder, TakeAtom, ExprOf, Truth, Ebv;
    ReadyIs(a, v, c, env);
    AtFirst(a, a.condition, v, c, env);
    PartMeans(a.condition, v, c, env, ops);
    var l := Lower(a.condition, v);
    var (x, ls) := TakeAtom(l.bindings);
    var t := Lower(a.whenTrue, l.vars);
    var f := Lower(a.whenFalse, VarsAfter(t, l.vars));
    TruthIs(ops, Meaning(a.condition, c, ops));
    NoTruth(ops, Meaning(a.condition, c, ops));
    var to := RunAll(ls, env, ops);
    if to.Some? {
      AtPart(a, a.whenTrue, v, l.vars, c, env, to.value);
      WholeMeans(a.whenTrue, l.vars, c, to.value, ops);
      AtSibling(a.whenTrue, a.whenFalse, l.vars, t.vars, c, to.value);
      WholeMeans(a.whenFalse, t.vars, c, to.value, ops);
    }
    BindGives(ls, If(x, ExprOf(t.bindings), ExprOf(f.bindings)), f.vars, env, ops, Meaning(a, c, ops));
  }

  /** A part after another, in the same environment. */
  lemma AtSibling(b: Ast, d: Ast, v: Vars, w: Vars, c: Context, env: Env)
    requires At(b, v, c, env) && NamesApart(w) && Grown(v, w) && Scoped(d, c.vars.Keys, c.focus.Some?)
    ensures At(d, w, c, env)
  {
    hide Scoped;
    AtLater(b, d, v, w, c, env);
  }

  lemma {:induction false} LetMeans(a: Ast, v: Vars, c: Context, env: Env, ops: Ops)
    requires At(a, v, c, env) && a.LetIn? && Lower(a, v).Lowered?
    ensures Gives(Lower(a, v).bindings, env, ops, Meaning(a, c, ops))
    decreases a, 0
  {
    hide NamesApart, Agrees, Shaped, Gives, Grown, BindNew, RunAll, KeepsOlder, ExprOf, NewVarName, Scoped;
    VarNameApart(v, a.x);
    var (name, v1) := NewVarName(v, a.x);
    ReadyIs(a, v, c, env);
    ScopedLet(a, c.vars.Keys, c.focus.Some?);
    AtLater(a, a.value, v, v1, c, env);
    WholeMeans(a.value, v1, c, env, ops);
    var l := Lower(a.value, v1);
    var r := Lower(a.body, l.vars);
    var s := Meaning(a.value, c, ops);
    NothingRun(env, ops);
    if s.Some? {
      HasName(a.x, v1, l.vars);
      StillAgrees(v1, l.vars, c, env, env);
      VariableAgrees(l.vars, c, env, a.x, s.value);
      var c2, env2 := c.(vars := c.vars[a.x := s.value]), Bind(env, name, Items(s.value));
      AtBody(a.body, l.vars, c, c2, a.x, env2);
      WholeMeans(a.body, l.vars, c2, env2, ops);
      UseResult(Meaning(a.body, c2, ops));
    }
    BindGives([], Let(name, ExprOf(l.bindings), ExprOf(r.bindings)), r.vars, env, ops, Meaning(a, c, ops));
  }

  lemma ScopedLet(a: Ast, vars: set<string>, focus: bool)
    requires a.LetIn? && Scoped(a, vars, focus)
    ensures Scoped(a.value, vars, focus) && Scoped(a.body, vars + {a.x}, focus)
  {
  }

  /** A body with one more variable. */
  lemma AtBody(b: Ast, w: Vars, c: Context, c2: Context, x: string, env: Env)
    requires NamesApart(w) && Agrees(w, c2, env) && env.captured == map[] && x in w.names
    requires c2.vars.Keys == c.vars.Keys + {x} && c2.focus.Some? == c.focus.Some? && Scoped(b, c.vars.Keys + {x}, c.focus.Some?)
    ensures At(b, w, c2, env)
  {
    hide Scoped;
    forall y | y in c2.vars.Keys ensures y in w.names.Keys {
    }
  }

  lemma {:induction false} VariableLoopMeans(a: Ast, x: string, over: Ast, body: Ast, v: Vars, c: Context, env: Env, ops: Ops)
    requires At(a, v, c, env) && (a == ForIn(x, over, body) || (a.ExistsIn? && a == ExistsIn(a.every, x, over, body)))
    requires Lower(a, v).Lowered?
    ensures Gives(Lower(a, v).bindings, env, ops, Meaning(a, c, ops))
    decreases a, 0
  {
    hide NamesApart, Agrees, Shaped, Gives, Grown, BindNew, RunAll, KeepsOlder, ExprOf, NewVarName, EvalAtom, TakeAtom, MapMeaning,
         QuantifiedMeaning, ExplicitContext;
    VarNameApart(v, x);
    ReadyIs(a, v, c, env);
    var (name, v1) := NewVarName(v, x);
    AtLater(a, over, v, v1, c, env);
    PartMeans(over, v1, c, env, ops);
    var l := Lower(over, v1);
    HasName(x, v1, l.vars);
    var (names, v2) := ExplicitContext(l.vars, name);
    var r := Lower(body, v2);
    var to, s := RunAll(TakeAtom(l.bindings).1, env, ops), Meaning(over, c, ops);
    if to.Some? && s.Some? {
      VariableBodyMeans(x, body, l.vars, v2, names, s.value, to.value, c, ops);
    }
    if a.ForIn? {
      ForGives(x, body, l, r, names, env, c, ops, s);
    } else {
      ExistsGives(a.every, x, body, l, r, names, env, c, ops, s);
    }
  }

  /** A loop over a variable, once its sequence and its body mean what they should. */
  ghost predicate LoopReady(b: Binder, body: Ast, l: Lowered, r: Lowered, names: ContextNames, env: Env, c: Context, ops: Ops, s: Option<Sequence>) {
    && l.Lowered? && r.Lowered? && l.bindings != [] && r.bindings != []
    && var (y, ls) := TakeAtom(l.bindings);
       match RunAll(ls, env, ops)
       case None => s.None?
       case Some(to) =>
         EvalAtom(y, to) == Result(s) && (s.Some? ==> BodyMeans(ExprOf(r.bindings), names, body, b, s.value, to, c, ops))
  }

  lemma ForGives(x: string, body: Ast, l: Lowered, r: Lowered, names: ContextNames, env: Env, c: Context, ops: Ops, s: Option<Sequence>)
    requires LoopReady(ByVariable(x), body, l, r, names, env, c, ops, s)
    ensures var (y, ls) := TakeAtom(l.bindings);
            Gives(BindNew(ls, Mapped(names, y, ExprOf(r.bindings)), r.vars).bindings, env, ops,
                  if s.None? then None else MapMeaning(ByVariable(x), body, s.value, 0, c, ops))
  {
    MapGives(ByVariable(x), body, l, r, names, r.vars, env, c, ops, s);
  }

  lemma MapGives(b: Binder, body: Ast, l: Lowered, r: Lowered, names: ContextNames, w: Vars, env: Env, c: Context, ops: Ops, s: Option<Sequence>)
    requires LoopReady(b, body, l, r, names, env, c, ops, s)
    ensures var (y, ls) := TakeAtom(l.bindings);
            Gives(BindNew(ls, Mapped(names, y, ExprOf(r.bindings)), w).bindings, env, ops,
                  if s.None? then None else MapMeaning(b, body, s.value, 0, c, ops))
    ensures var (y, ls) := TakeAtom(l.bindings);
            Gives(BindNew(ls, Distinct(Mapped(names, y, ExprOf(r.bindings))), w).bindings, env, ops,
                  if s.None? then None else UnaryOf(ops, Deduplicate, MapMeaning(b, body, s.value, 0, c, ops)))
  {
    hide Gives, BindNew, RunAll, ExprOf, EvalAtom, TakeAtom, MapMeaning, EvalMap, BodyMeans;
    var (y, ls) := TakeAtom(l.bindings);
    var e, to := ExprOf(r.bindings), RunAll(ls, env, ops);
    UseResult(s);
    if to.Some? && s.Some? {
      MapMeans(e, names, body, b, s.value, 0, to.value, c, ops);
      OperandApplies(ops, Deduplicate, MapMeaning(b, body, s.value, 0, c, ops));
    }
    BindGives(ls, Mapped(names, y, e), w, env, ops, if s.None? then None else MapMeaning(b, body, s.value, 0, c, ops));
    BindGives(ls, Distinct(Mapped(names, y, e)), w, env, ops,
              if s.None? then None else UnaryOf(ops, Deduplicate, MapMeaning(b, body, s.value, 0, c, ops)));
  }

  lemma FilterGives(body: Ast, l: Lowered, r: Lowered, names: ContextNames, w: Vars, env: Env, c: Context, ops: Ops, s: Option<Sequence>)
    requires LoopReady(ByFocus, body, l, r, names, env, c, ops, s)
    ensures var (y, ls) := TakeAtom(l.bindings);
            Gives(BindNew(ls, Filter(names, y, ExprOf(r.bindings)), w).bindings, env, ops,
                  if s.None? then None else FilterMeaning(body, s.value, 0, c, ops))
  {
    hide Gives, BindNew, RunAll, ExprOf, EvalAtom, TakeAtom, FilterMeaning, EvalFilter, BodyMeans;
    var (y, ls) := TakeAtom(l.bindings);
    var e, to := ExprOf(r.bindings), RunAll(ls, env, ops);
    UseResult(s);
    if to.Some? && s.Some? {
      FilterMeans(e, names, body, s.value, 0, to.value, c, ops);
    }
    BindGives(ls, Filter(names, y, e), w, env, ops, if s.None? then None else FilterMeaning(body, s.value, 0, c, ops));
  }

  lemma ExistsGives(every: bool, x: string, body: Ast, l: Lowered, r: Lowered, names: ContextNames, env: Env, c: Context, ops: Ops,
                    s: Option<Sequence>)
    requires LoopReady(ByVariable(x), body, l, r, names, env, c, ops, s)
    ensures var (y, ls) := TakeAtom(l.bindings);
            Gives(BindNew(ls, Quantified(every, names, y, ExprOf(r.bindings)), r.vars).bindings, env, ops,
                  if s.None? then None else BooleanOf(QuantifiedMeaning(every, x, body, s.value, 0, c, ops)))
  {
    hide Gives, BindNew, RunAll, ExprOf, EvalAtom, TakeAtom, QuantifiedMeaning, EvalQuantified, BodyMeans;
    var (y, ls) := TakeAtom(l.bindings);
    var e, to := ExprOf(r.bindings), RunAll(ls, env, ops);
    UseResult(s);
    if to.Some? && s.Some? {
      QuantifiedMeans(every, e, names, body, x, s.value, 0, to.value, c, ops);
      BooleanIs(ops, QuantifiedMeaning(every, x, body, s.value, 0, c, ops));
    }
    BindGives(ls, Quantified(every, names, y, e), r.vars, env, ops,
              if s.None? then None else BooleanOf(QuantifiedMeaning(every, x, body, s.value, 0, c, ops)));
  }

  lemma BooleanIs(ops: Ops, b: Option<bool>)
    ensures TruthValue(b) == Result(BooleanOf(b))
  {
  }

  /** The body of a loop over a variable, at every item. */
  lemma {:induction false} VariableBodyMeans(x: string, body: Ast, v: Vars, w: Vars, names: ContextNames, items: Sequence, env: Env, c: Context, ops: Ops)
    requires NamesApart(v) && Agrees(v, c, env) && env.captured == map[] && x in v.names
    requires (names, w) == ExplicitContext(v, v.names[x]) && Scoped(body, c.vars.Keys + {x}, c.focus.Some?)
    requires Lower(body, w).Lowered?
    ensures BodyMeans(ExprOf(Lower(body, w).bindings), names, body, ByVariable(x), items, env, c, ops)
    decreases body, 3
  {
    hide NamesApart, Agrees, Scoped, ExprOf, Lower, Meaning, Eval, LoopEnv;
    forall k | 0 <= k < |items|
      ensures BodyMeansAt(ExprOf(Lower(body, w).bindings), names, body, ByVariable(x), items, k, env, c, ops)
    {
      LoopAgrees(v, c, env, x, w, items, k);
      NothingCaptured(env, names, items, k);
      AtBody(body, w, c, Inside(c, ByVariable(x), items, k), x, LoopEnv(env, names, items, k));
      WholeMeans(body, w, Inside(c, ByVariable(x), items, k), LoopEnv(env, names, items, k), ops);
    }
  }

  lemma NothingCaptured(env: Env, names: ContextNames, items: Sequence, k: nat)
    requires k < |items|
    ensures LoopEnv(env, names, items, k).captured == env.captured
  {
  }

  /** The body of a loop over the focus, at every item. */
  lemma {:induction false} FocusBodyMeans(body: Ast, v: Vars, w: Vars, names: ContextNames, items: Sequence, env: Env, c: Context, ops: Ops)
    requires NamesApart(v) && Agrees(v, c, env) && env.captured == map[] && c.vars.Keys <= v.names.Keys
    requires (names, w) == PushContext(v) && Scoped(body, c.vars.Keys, true) && Lower(body, w).Lowered?
    ensures BodyMeans(ExprOf(Lower(body, w).bindings), names, body, ByFocus, items, env, c, ops)
    decreases body, 3
  {
    hide NamesApart, Agrees, Scoped, ExprOf, Lower, Meaning, Eval, LoopEnv;
    forall k | 0 <= k < |items|
      ensures BodyMeansAt(ExprOf(Lower(body, w).bindings), names, body, ByFocus, items, k, env, c, ops)
    {
      FocusAgreesInside(v, c, env, items, k);
      NothingCaptured(env, names, items, k);
      ReadyFocus(body, w, c.vars.Keys);
      WholeMeans(body, w, Inside(c, ByFocus, items, k), LoopEnv(env, names, items, k), ops);
    }
  }

  lemma {:induction false} FocusLoopMeans(a: Ast, over: Ast, body: Ast, v: Vars, c: Context, env: Env, ops: Ops)
    requires At(a, v, c, env) && (a == SimpleMap(over, body) || a == PathStep(over, body) || a == Predicate(over, body))
    requires Lower(a, v).Lowered?
    ensures Gives(Lower(a, v).bindings, env, ops, Meaning(a, c, ops))
    decreases a, 0
  {
    hide NamesApart, Agrees, Shaped, Gives, BindNew, RunAll, KeepsOlder, ExprOf, EvalAtom, TakeAtom, MapMeaning, FilterMeaning, PushContext,
         PopContext, UnaryOf;
    ReadyIs(a, v, c, env);
    AtFirst(a, over, v, c, env);
    PartMeans(over, v, c, env, ops);
    var l := Lower(over, v);
    var (names, v2) := PushContext(l.vars);
    var r := Lower(body, v2);
    var to, s := RunAll(TakeAtom(l.bindings).1, env, ops), Meaning(over, c, ops);
    if to.Some? && s.Some? {
      FocusBodyMeans(body, l.vars, v2, names, s.value, to.value, c, ops);
    }
    if a.Predicate? {
      FilterGives(body, l, r, names, PopContext(r.vars), env, c, ops, s);
    } else {
      MapGives(ByFocus, body, l, r, names, PopContext(r.vars), env, c, ops, s);
    }
  }

  // ----- joins -----

  function AsValues(ss: seq<Sequence>): seq<Value> {
    seq(|ss|, i requires 0 <= i < |ss| => Items(ss[i]))
  }

  lemma {:induction false} JoinMeans(ops: Ops, op: BinaryOp, ss: seq<Sequence>)
    requires ss != []
    ensures JoinAll(ops, op, AsValues(ss)) == Result(JoinSequences(ops, op, ss))
    decreases |ss|
  {
    hide Both;
    var n := |ss| - 1;
    assert AsValues(ss)[..n] == AsValues(ss[..n]);
    if n > 0 {
      JoinMeans(ops, op, ss[..n]);
      OperandsApply(ops, op, JoinSequences(ops, op, ss[..n]), Some(ss[n]));
    }
  }

  /** The operands' expressions have their meanings. */
  lemma {:induction false} AllMean(a: Ast, operands: seq<Ast>, i: nat, v: Vars, w: Vars, c: Context, env: Env, ops: Ops)
    requires i <= |operands| && At(a, v, c, env) && NamesApart(w) && Grown(v, w)
    requires forall j :: 0 <= j < |operands| ==> Scoped(operands[j], c.vars.Keys, c.focus.Some?)
    ensures var all, ss := LowerAll(operands, i, w), AllMeanings(operands, i, c, ops);
            && all.Some? && |all.value.0| == |operands| - i
            && forall es: seq<Expr> :: |es| == |operands| && es[i..] == all.value.0 ==>
                 EvalAll(es, i, env, ops) == if ss.None? then None else Some(AsValues(ss.value))
    decreases operands, |operands| - i
  {
    hide NamesApart, Grown, Shaped, Scoped, Lower, ExprOf, Agrees, At, Meaning, Eval;
    assert AsValues([]) == [];
    if i < |operands| {
      AtLater(a, operands[i], v, w, c, env);
      WholeMeans(operands[i], w, c, env, ops);
      var l := Lower(operands[i], w);
      GrownOn(v, w, l.vars);
      AllMean(a, operands, i + 1, v, l.vars, c, env, ops);
      var all, ss, rest := LowerAll(operands, i, w), AllMeanings(operands, i, c, ops), LowerAll(operands, i + 1, l.vars);
      forall es: seq<Expr> | |es| == |operands| && es[i..] == all.value.0
        ensures EvalAll(es, i, env, ops) == if ss.None? then None else Some(AsValues(ss.value))
      {
        assert es[i + 1..] == es[i..][1..] == rest.value.0;
        assert es[i] == es[i..][0] == ExprOf(l.bindings);
        ValuesMore(Meaning(operands[i], c, ops), AllMeanings(operands, i + 1, c, ops));
      }
    }
  }

  lemma ValuesMore(s: Option<Sequence>, rest: Option<seq<Sequence>>)
    ensures s.Some? && rest.Some? ==> AsValues([s.value] + rest.value) == [Items(s.value)] + AsValues(rest.value)
  {
  }

  lemma {:induction false} JoinedMeans(a: Ast, join: BinaryOp, operands: seq<Ast>, v: Vars, c: Context, env: Env, ops: Ops)
    requires At(a, v, c, env) && |operands| > 1 && LowerJoined(join, operands, v).Lowered?
    requires forall j :: 0 <= j < |operands| ==> Scoped(operands[j], c.vars.Keys, c.focus.Some?)
    ensures var ss := AllMeanings(operands, 0, c, ops);
            Gives(LowerJoined(join, operands, v).bindings, env, ops,
                  if ss.None? then None else if ss.value == [] then Some([]) else JoinSequences(ops, join, ss.value))
    decreases operands, |operands| + 1
  {
    hide NamesApart, Grown, Scoped, Agrees, Gives, BindNew, JoinAll, JoinSequences, RunAll;
    GrownSelf(v);
    ReadyIs(a, v, c, env);
    AllMean(a, operands, 0, v, v, c, env, ops);
    var all, ss := LowerAll(operands, 0, v), AllMeanings(operands, 0, c, ops);
    assert all.value.0[0..] == all.value.0;
    NothingRun(env, ops);
    if ss.Some? {
      JoinMeans(ops, join, ss.value);
    }
    BindGives([], Joined(join, all.value.0), all.value.1, env, ops,
              if ss.None? then None else if ss.value == [] then Some([]) else JoinSequences(ops, join, ss.value));
  }

  // ----- whole expressions -----

  /** The names of the focus and of the declared variables, made up before the expression is lowered. */
  function StartVars(declared: seq<string>): Vars
    decreases |declared|
  {
    if declared == [] then PushContext(Vars(0, map[], [])).1
    else NewVarName(StartVars(declared[..|declared| - 1]), declared[|declared| - 1]).1
  }

  /** The parameters of the compiled function: the item, the position, the size and the declared variables. */
  function Params(declared: seq<string>): seq<Name>
    decreases |declared|
  {
    if declared == [] then
      var names := PushContext(Vars(0, map[], [])).0;
      [names.item, names.position, names.last]
    else
      var n := |declared| - 1;
      Params(declared[..n]) + [NewVarName(StartVars(declared[..n]), declared[n]).0]
  }

  /** The arguments of a call: the focus, and the variables' values in the order they are declared. */
  function Arguments(declared: seq<string>, c: Context): seq<Value>
    requires c.focus.Some? && forall i :: 0 <= i < |declared| ==> declared[i] in c.vars
    decreases |declared|
  {
    if declared == [] then
      [Items(c.focus.value.item), Items([Integer(c.focus.value.position)]), Items([Integer(c.focus.value.size)])]
    else
      var n := |declared| - 1;
      Arguments(declared[..n], c) + [Items(c.vars[declared[n]])]
  }

  predicate AllDifferent(declared: seq<string>) {
    forall i, j :: 0 <= i < j < |declared| ==> declared[i] != declared[j]
  }

  /** The context with these variables only. */
  function Only(c: Context, declared: seq<string>): Context
    requires forall i :: 0 <= i < |declared| ==> declared[i] in c.vars
  {
    c.(vars := map x | x in declared :: c.vars[x])
  }

  function StartEnv(declared: seq<string>, c: Context): Env
    requires c.focus.Some? && (forall i :: 0 <= i < |declared| ==> declared[i] in c.vars)
    requires |Params(declared)| == |Arguments(declared, c)|
  {
    Correct.ParamEnv(Params(declared), Arguments(declared, c), map[])
  }

  /** The parameters' names stand for the context. */
  ghost predicate Started(declared: seq<string>, c: Context)
    requires c.focus.Some? && forall i :: 0 <= i < |declared| ==> declared[i] in c.vars
  {
    var v := StartVars(declared);
    && |Params(declared)| == |Arguments(declared, c)| && NamesApart(v) && CurrentContext(v).Some?
    && v.names.Keys == Only(c, declared).vars.Keys
    && Agrees(v, Only(c, declared), StartEnv(declared, c)) && StartEnv(declared, c).captured == map[] && WAITING !in Params(declared)
  }

  /** Called with its arguments, the function starts in the context's environment. */
  lemma {:induction false} StartAgrees(declared: seq<string>, c: Context)
    requires c.focus.Some? && AllDifferent(declared) && forall i :: 0 <= i < |declared| ==> declared[i] in c.vars
    ensures Started(declared, c)
    decreases |declared|
  {
    hide Started;
    if declared == [] {
      NothingDeclared(c);
    } else {
      StartAgrees(declared[..|declared| - 1], c);
      MoreDeclared(declared, c);
    }
  }

  lemma NothingDeclared(c: Context)
    requires c.focus.Some?
    ensures Started([], c)
  {
    hide NameOf;
    var start := Vars(0, map[], []);
    PushApart(start);
    var (names, v) := PushContext(start);
    var f := c.focus.value;
    var item, position, size := Items(f.item), Items([Integer(f.position)]), Items([Integer(f.size)]);
    Correct.ParamEnvMore([], [], map[], names.item, item);
    Correct.ParamEnvMore([] + [names.item], [] + [item], map[], names.position, position);
    Correct.ParamEnvMore([] + [names.item] + [names.position], [] + [item] + [position], map[], names.last, size);
    assert [] + [names.item] + [names.position] + [names.last] == Params([]);
    assert [] + [item] + [position] + [size] == Arguments([], c);
    assert ContextApart(v, names);
    OldIsNamed(names.item, v.counter);
    OldIsNamed(names.position, v.counter);
    OldIsNamed(names.last, v.counter);
  }

  lemma OneMore(c: Context, before: seq<string>, declared: seq<string>, x: string)
    requires declared == before + [x] && forall i :: 0 <= i < |declared| ==> declared[i] in c.vars
    ensures forall i :: 0 <= i < |before| ==> before[i] in c.vars
    ensures x in c.vars && Only(c, declared) == Only(c, before).(vars := Only(c, before).vars[x := c.vars[x]])
  {
    assert forall i :: 0 <= i < |before| ==> before[i] == declared[i];
    assert declared[|before|] == x;
    assert Only(c, declared).vars == Only(c, before).vars[x := c.vars[x]];
  }

  lemma MoreDeclared(declared: seq<string>, c: Context)
    requires declared != [] && c.focus.Some? && forall i :: 0 <= i < |declared| ==> declared[i] in c.vars
    requires Started(declared[..|declared| - 1], c)
    ensures Started(declared, c)
  {
    hide NamesApart, Agrees, NewVarName, Only, NameOf, Grown;
    var n := |declared| - 1;
    var before, x := declared[..n], declared[n];
    var v := StartVars(before);
    OneMore(c, before, declared, x);
    VarNameApart(v, x);
    var (name, w) := NewVarName(v, x);
    VarNamed(v, x);
    StillStarted(v, w, Only(c, before), StartEnv(before, c));
    VariableAgrees(w, Only(c, before), StartEnv(before, c), x, c.vars[x]);
    Correct.ParamEnvMore(Params(before), Arguments(before, c), map[], name, Items(c.vars[x]));
    OldIsNamed(name, w.counter);
  }

  lemma VarNamed(v: Vars, x: string)
    ensures var (name, w) := NewVarName(v, x); w.names.Keys == v.names.Keys + {x} && w.contexts == v.contexts && w.names[x] == name
  {
  }

  lemma StillStarted(v: Vars, w: Vars, c: Context, env: Env)
    requires NamesApart(v) && Grown(v, w) && Agrees(v, c, env) && env.captured == map[]
    ensures Agrees(w, c, env)
  {
    hide NamesApart, Grown, Agrees;
    KeepsItself(env, v.counter);
    StillAgrees(v, w, c, env, env);
  }

  lemma KeepsItself(env: Env, n: nat)
    requires env.captured == map[]
    ensures KeepsOlder(env, env, n)
  {
  }

  /** Compiling an expression: its code, or a limit that was passed. */
  function Compiled(a: Ast, declared: seq<string>): Emission.Emitted {
    var l := Lower(a, StartVars(declared));
    if l.Invalid? then Emission.Refused else Emission.EmitFunction(Params(declared), ExprOf(l.bindings), [])
  }

  /** A context whose variables are those declared. */
  ghost predicate Declares(declared: seq<string>, c: Context) {
    && c.focus.Some? && AllDifferent(declared)
    && (forall i :: 0 <= i < |declared| ==> declared[i] in c.vars) && (forall x :: x in c.vars ==> x in declared)
  }

  lemma OnlyAll(declared: seq<string>, c: Context)
    requires Declares(declared, c)
    ensures Only(c, declared) == c
  {
    assert Only(c, declared).vars == c.vars;
  }

  /** Where an expression starts to be evaluated. */
  lemma StartsAt(a: Ast, declared: seq<string>, c: Context)
    requires Declares(declared, c) && Scoped(a, c.vars.Keys, true)
    ensures |Params(declared)| == |Arguments(declared, c)| && WAITING !in Params(declared)
    ensures At(a, StartVars(declared), c, StartEnv(declared, c))
  {
    hide Scoped, Agrees, NamesApart, Only, AllDifferent;
    StartAgrees(declared, c);
    OnlyAll(declared, c);
  }

  /** From the expression to its bytecode: whatever its code is called with, the machine returns the expression's value, or ends
      with an error exactly where the expression has none. */
  lemma ExpressionRuns(a: Ast, declared: seq<string>, c: Context, ops: Ops)
    requires Lawful(ops) && Declares(declared, c) && Scoped(a, c.vars.Keys, true) && Compiled(a, declared).Emitted?
    ensures var e, s := Compiled(a, declared), Meaning(a, c, ops);
            Reaches(Program(e.code, e.tables.constants, [], ops), Running(0, Arguments(declared, c), []),
                    if s.None? then Failed else Returned(Items(s.value)))
  {
    hide Lower, Meaning, Lawful, Reaches, WellFormed, Scoped, Emission.EmitFunction, ExprOf, At, StartVars, Params, Arguments, AllDifferent,
         Shaped, NamesApart, Grown, Eval, Correct.ParamEnv;
    StartsAt(a, declared, c);
    var v := StartVars(declared);
    WholeMeans(a, v, c, StartEnv(declared, c), ops);
    var l := Lower(a, v);
    ShapedParts(l, v);
    Correct.FunctionCloses(Params(declared), ExprOf(l.bindings));
    Correct.FunctionRuns(Params(declared), ExprOf(l.bindings), [], ops, Arguments(declared, c), map[], [], []);
  }
}
