/** What an expression costs once it is lowered, read off the expression; so which expressions compile. */
module IrPrices {
  import opened Options
  import opened IrCode
  import opened IrMachine
  import opened IrExpr
  import opened IrJoins
  import opened IrEmission
  import opened IrLimits
  import opened XPathCore
  import opened IrLowering
  import opened IrLowered
  import IrMeaning

  // ----- costs that do not depend on where an expression stands -----

  /** Whether the jumps are short enough, the bytes, the constants, and the names on the stack at once. */
  datatype Measure = Measure(jumps: bool, size: nat, constants: nat, depth: nat)

  function AtomConstants(a: Atom): nat {
    if a.Constant? then 1 else 0
  }

  function LetMeasure(v: Measure, b: Measure): Measure {
    Measure(v.jumps && b.jumps, v.size + b.size + 1, v.constants + b.constants, Deeper(v.depth, 1 + b.depth))
  }

  function IfMeasure(constants: nat, x: Measure, y: Measure): Measure {
    Measure(x.jumps && y.jumps && x.size + 3 <= 32767 && y.size <= 32767, x.size + y.size + 9,
            constants + x.constants + y.constants, Deeper(x.depth, y.depth))
  }

  /** A loop over an atom, which is looked at twice. */
  function LoopMeasure(constants: nat, body: Measure, bytes: nat, back: nat, more: nat): Measure {
    Measure(body.jumps && body.size + back <= 32767, body.size + bytes, 2 * constants + body.constants + 2 + more, 3 + body.depth)
  }

  function MapMeasure(constants: nat, body: Measure): Measure {
    LoopMeasure(constants, body, 43, 32, 0)
  }

  function FilterMeasure(constants: nat, body: Measure): Measure {
    LoopMeasure(constants, body, 58, 47, 0)
  }

  function QuantifiedMeasure(constants: nat, body: Measure): Measure {
    LoopMeasure(constants, body, 55, 34, 2)
  }

  /** One byte more. */
  function Longer(m: Measure): Measure {
    m.(size := m.size + 1)
  }

  function MeasureOf(e: Expr): Measure
    decreases e, 0
  {
    match e
    case AtomExpr(atom) => Measure(true, 3, AtomConstants(atom), 0)
    case Let(_, value, body) =>
      LetMeasure(MeasureOf(value), MeasureOf(body))
    case If(condition, whenTrue, whenFalse) => IfMeasure(AtomConstants(condition), MeasureOf(whenTrue), MeasureOf(whenFalse))
    case Binary(_, left, right) => Measure(true, 7, AtomConstants(left) + AtomConstants(right), 0)
    case And(left, right) => Measure(true, 22, AtomConstants(left) + AtomConstants(right) + 2, 0)
    case Or(left, right) => Measure(true, 22, AtomConstants(left) + AtomConstants(right) + 2, 0)
    case Unary(_, atom) => Measure(true, 4, AtomConstants(atom), 0)
    case Distinct(operand) => Longer(MeasureOf(operand))
    case Mapped(_, over, body) => MapMeasure(AtomConstants(over), MeasureOf(body))
    case Filter(_, over, body) => FilterMeasure(AtomConstants(over), MeasureOf(body))
    case Quantified(_, _, over, body) => QuantifiedMeasure(AtomConstants(over), MeasureOf(body))
    case Joined(_, items) =>
      if items == [] then Measure(true, 3, 1, 0)
      else var m := ItemsMeasure(items, 0); m.(size := m.size + |items| - 1)
  }

  function ItemsMeasure(items: seq<Expr>, i: nat): Measure
    requires i <= |items|
    decreases items, |items| - i
  {
    if i == |items| then Measure(true, 0, 0, 0)
    else ItemThen(CountOnes(i), MeasureOf(items[i]), ItemsMeasure(items, i + 1))
  }

  /** An item above `runs` runs that wait, and the items after it. */
  function ItemThen(runs: nat, m: Measure, rest: Measure): Measure {
    Measure(m.jumps && rest.jumps, m.size + rest.size, m.constants + rest.constants, Deeper(runs + m.depth, rest.depth))
  }

  /** The measure is the cost, wherever the expression stands. */
  ghost predicate Measures(m: Measure, c: Cost, depth: nat) {
    m.jumps == c.jumps && m.size == c.size && m.constants == c.constants && m.depth == depth
  }

  lemma AtomMeasures(a: Atom, scope: Scope)
    ensures AtomCost(a, scope).jumps && AtomCost(a, scope).size == 3 && AtomCost(a, scope).constants == AtomConstants(a)
  {
  }

  lemma LoopMeasures(names: ContextNames, over: Atom, scope: Scope)
    ensures LoopCost(names, over, scope).jumps && LoopCost(names, over, scope).size == 21
    ensures LoopCost(names, over, scope).constants == 2 * AtomConstants(over) + 1
    ensures NextCost(names, LoopScope(scope, names)).jumps && NextCost(names, LoopScope(scope, names)).size == 10
    ensures NextCost(names, LoopScope(scope, names)).constants == 1
    ensures KeepCost(names, LoopScope(scope, names)).jumps && KeepCost(names, LoopScope(scope, names)).size == 17
    ensures KeepCost(names, LoopScope(scope, names)).constants == 0
  {
    AtomMeasures(over, scope);
    AtomMeasures(over, LoopScope(scope, names));
  }

  lemma {:induction false} MeasureIsCost(e: Expr, scope: Scope)
    ensures Measures(MeasureOf(e), CostOf(e, scope), Depth(e))
    decreases e, 0
  {
    hide AtomCost, LoopCost, NextCost, KeepCost, AtomConstants, LoopScope, Bound, ItemsCost, ItemsMeasure, ItemsDepth, Deeper, LoopMeasure;
    match e
    case AtomExpr(atom) => AtomMeasures(atom, scope);
    case Let(name, value, body) =>
      MeasureIsCost(value, scope);
      MeasureIsCost(body, Bound(scope, name));
    case If(condition, whenTrue, whenFalse) =>
      AtomMeasures(condition, scope);
      MeasureIsCost(whenTrue, scope);
      MeasureIsCost(whenFalse, scope);
    case Binary(_, left, right) =>
      AtomMeasures(left, scope);
      AtomMeasures(right, scope);
    case And(left, right) =>
      AtomMeasures(left, scope);
      AtomMeasures(right, scope);
    case Or(left, right) =>
      AtomMeasures(left, scope);
      AtomMeasures(right, scope);
    case Unary(_, atom) => AtomMeasures(atom, scope);
    case Distinct(operand) => MeasureIsCost(operand, scope);
    case Mapped(names, over, body) => LoopIsCost(e, names, over, body, scope);
    case Filter(names, over, body) => LoopIsCost(e, names, over, body, scope);
    case Quantified(_, names, over, body) => LoopIsCost(e, names, over, body, scope);
    case Joined(_, items) =>
      NoDepth();
      ItemsAreCost(items, 0, scope);
  }

  lemma {:induction false} LoopIsCost(e: Expr, names: ContextNames, over: Atom, body: Expr, scope: Scope)
    requires e == Mapped(names, over, body) || e == Filter(names, over, body) || (e.Quantified? && e == Quantified(e.every, names, over, body))
    ensures Measures(MeasureOf(e), CostOf(e, scope), Depth(e))
    decreases body, 1
  {
    hide AtomCost, LoopCost, NextCost, KeepCost, AtomConstants, LoopScope, Bound;
    LoopMeasures(names, over, scope);
    MeasureIsCost(body, Bound(LoopScope(scope, names), names.item));
  }

  lemma NoDepth()
    ensures ItemsDepth([], 0) == 0
  {
  }

  lemma {:induction false} ItemsAreCost(items: seq<Expr>, i: nat, scope: Scope)
    requires i <= |items|
    ensures Measures(ItemsMeasure(items, i), ItemsCost(items, i, scope), ItemsDepth(items, i))
    decreases items, |items| - i
  {
    hide CostOf, MeasureOf, Depth, CountOnes, Waiting;
    if i < |items| {
      MeasureIsCost(items[i], Waiting(scope, CountOnes(i)));
      ItemsAreCost(items, i + 1, scope);
    }
  }

  // ----- bindings -----

  /** Bindings before an expression, each with the byte that ends it. */
  datatype Steps = Steps(jumps: bool, size: nat, constants: nat, steps: nat, depth: nat)

  const NO_STEPS: Steps := Steps(true, 0, 0, 0, 0)

  function StepOf(m: Measure): Steps {
    Steps(m.jumps, m.size + 1, m.constants, 1, Deeper(m.depth, 1))
  }

  function Chain(a: Steps, b: Steps): Steps {
    Steps(a.jumps && b.jumps, a.size + b.size, a.constants + b.constants, a.steps + b.steps, Deeper(a.depth, a.steps + b.depth))
  }

  function Finish(a: Steps, m: Measure): Measure {
    Measure(a.jumps && m.jumps, a.size + m.size, a.constants + m.constants, Deeper(a.depth, a.steps + m.depth))
  }

  function StepsOf(bs: seq<Binding>): Steps {
    if bs == [] then NO_STEPS else Chain(StepOf(MeasureOf(bs[0].expr)), StepsOf(bs[1..]))
  }

  lemma {:induction false} StepsJoin(a: seq<Binding>, b: seq<Binding>)
    ensures StepsOf(a + b) == Chain(StepsOf(a), StepsOf(b))
    decreases |a|
  {
    hide MeasureOf, Chain, StepOf;
    if a == [] {
      assert a + b == b;
      NoSteps(StepsOf(b));
    } else {
      assert (a + b)[1..] == a[1..] + b;
      StepsJoin(a[1..], b);
      ChainAssociates(StepOf(MeasureOf(a[0].expr)), StepsOf(a[1..]), StepsOf(b));
    }
  }

  lemma NoSteps(a: Steps)
    ensures Chain(NO_STEPS, a) == a
  {
  }

  lemma ChainAssociates(a: Steps, b: Steps, c: Steps)
    ensures Chain(Chain(a, b), c) == Chain(a, Chain(b, c))
  {
  }

  lemma StepsOfOne(b: Binding)
    ensures StepsOf([b]) == StepOf(MeasureOf(b.expr))
  {
    hide MeasureOf;
    assert [b][1..] == [];
  }

  lemma {:induction false} ExprMeasure(bs: seq<Binding>, b: Binding)
    ensures MeasureOf(ExprOf(bs + [b])) == Finish(StepsOf(bs), MeasureOf(b.expr))
    decreases |bs|
  {
    if bs == [] {
      assert bs + [b] == [b];
    } else {
      assert (bs + [b])[1..] == bs[1..] + [b];
      ExprMeasure(bs[1..], b);
    }
  }

  // ----- expressions -----

  /** A lowered expression: the bindings before the last, the last, and whether that is an atom and so the only one. */
  datatype Price = Price(before: Steps, last: Measure, atomic: bool)

  /** As a whole expression. */
  function Whole(p: Price): Measure {
    Finish(p.before, p.last)
  }

  /** As an operand: the bindings it leaves, and the constants of its atom. */
  function Operand(p: Price): Steps {
    if p.atomic then p.before else Chain(p.before, StepOf(p.last))
  }

  function Constants1(p: Price): nat {
    if p.atomic then p.last.constants else 0
  }

  function New(before: Steps, m: Measure): Price {
    Price(before, m, false)
  }

  /** An operand's truth value, and what is bound before it. */
  function TruthMeasure(p: Price): Measure {
    Finish(Operand(p), Measure(true, 15, Constants1(p) + 2, 0))
  }

  const BOOLEAN: Measure := Measure(true, 3, 1, 0)

  /** What an expression costs: read off the expression. */
  function PriceOf(a: Ast): Price
    decreases a, 0
  {
    match a
    case Literal(_) => Price(NO_STEPS, Measure(true, 3, 1, 0), true)
    case VarRef(_) => Price(NO_STEPS, Measure(true, 3, 0, 0), true)
    case ContextItem => Price(NO_STEPS, Measure(true, 3, 0, 0), true)
    case Position => Price(NO_STEPS, Measure(true, 3, 0, 0), true)
    case Last => Price(NO_STEPS, Measure(true, 3, 0, 0), true)
    case Operation(_, left, right) =>
      var l, r := PriceOf(left), PriceOf(right);
      New(Chain(Operand(l), Operand(r)), Measure(true, 7, Constants1(l) + Constants1(r), 0))
    case Conjunction(left, right) =>
      var l := PriceOf(left);
      New(Operand(l), IfMeasure(Constants1(l), TruthMeasure(PriceOf(right)), BOOLEAN))
    case Disjunction(left, right) =>
      var l := PriceOf(left);
      New(Operand(l), IfMeasure(Constants1(l), BOOLEAN, TruthMeasure(PriceOf(right))))
    case Negation(_, operand) =>
      var l := PriceOf(operand);
      New(Operand(l), Measure(true, 4, Constants1(l), 0))
    case Conditional(condition, whenTrue, whenFalse) =>
      var c := PriceOf(condition);
      New(Operand(c), IfMeasure(Constants1(c), Whole(PriceOf(whenTrue)), Whole(PriceOf(whenFalse))))
    case LetIn(_, value, body) => New(NO_STEPS, LetMeasure(Whole(PriceOf(value)), Whole(PriceOf(body))))
    case ForIn(_, over, body) =>
      var l := PriceOf(over);
      New(Operand(l), MapMeasure(Constants1(l), Whole(PriceOf(body))))
    case ExistsIn(_, _, over, body) =>
      var l := PriceOf(over);
      New(Operand(l), QuantifiedMeasure(Constants1(l), Whole(PriceOf(body))))
    case SimpleMap(over, body) =>
      var l := PriceOf(over);
      New(Operand(l), MapMeasure(Constants1(l), Whole(PriceOf(body))))
    case PathStep(over, body) =>
      var l := PriceOf(over);
      New(Operand(l), Longer(MapMeasure(Constants1(l), Whole(PriceOf(body)))))
    case Predicate(over, body) =>
      var l := PriceOf(over);
      New(Operand(l), FilterMeasure(Constants1(l), Whole(PriceOf(body))))
    case SequenceOf(operands) =>
      if operands == [] then Price(NO_STEPS, Measure(true, 3, 1, 0), true)
      else if |operands| == 1 then PriceOf(operands[0])
      else var m := OperandsMeasure(operands, 0); New(NO_STEPS, m.(size := m.size + |operands| - 1))
    case SetJoin(_, operands) =>
      if operands == [] then Price(NO_STEPS, Measure(true, 3, 1, 0), true)
      else if |operands| == 1 then PriceOf(operands[0])
      else var m := OperandsMeasure(operands, 0); New(NO_STEPS, m.(size := m.size + |operands| - 1))
  }

  function OperandsMeasure(operands: seq<Ast>, i: nat): Measure
    requires i <= |operands|
    decreases operands, |operands| - i
  {
    if i == |operands| then Measure(true, 0, 0, 0)
    else ItemThen(CountOnes(i), Whole(PriceOf(operands[i])), OperandsMeasure(operands, i + 1))
  }

  // ----- lowering costs what was read off -----

  /** Bindings have the price. */
  ghost predicate Priced(bs: seq<Binding>, p: Price) {
    && bs != []
    && var n := |bs| - 1;
       && StepsOf(bs[..n]) == p.before && MeasureOf(bs[n].expr) == p.last && bs[n].expr.AtomExpr? == p.atomic
       && (p.atomic ==> n == 0)
  }

  ghost predicate LowersAt(l: Lowered, p: Price) {
    l.Lowered? ==> Priced(l.bindings, p)
  }

  lemma WholePriced(bs: seq<Binding>, p: Price)
    requires Priced(bs, p)
    ensures MeasureOf(ExprOf(bs)) == Whole(p)
  {
    hide MeasureOf, StepsOf, ExprOf;
    var n := |bs| - 1;
    assert bs == bs[..n] + [bs[n]];
    ExprMeasure(bs[..n], bs[n]);
  }

  lemma OperandPriced(bs: seq<Binding>, p: Price)
    requires Priced(bs, p)
    ensures var (x, ls) := TakeAtom(bs); StepsOf(ls) == Operand(p) && AtomConstants(x) == Constants1(p)
  {
    hide StepsOf;
    var n := |bs| - 1;
    assert bs == bs[..n] + [bs[n]];
    if !p.atomic {
      StepsJoin(bs[..n], [bs[n]]);
      StepsOfOne(bs[n]);
    }
  }

  lemma NewPriced(bs: seq<Binding>, e: Expr, v: Vars, p: Steps, m: Measure)
    requires StepsOf(bs) == p && MeasureOf(e) == m && !e.AtomExpr?
    ensures Priced(BindNew(bs, e, v).bindings, New(p, m))
  {
    hide MeasureOf, StepsOf, NameOf;
    var more := BindNew(bs, e, v).bindings;
    assert more[..|more| - 1] == bs;
  }

  lemma AtomPriced(b: Binding)
    requires b.expr.AtomExpr?
    ensures Priced([b], Price(NO_STEPS, Measure(true, 3, AtomConstants(b.expr.atom), 0), true))
  {
    assert [b][..0] == [];
  }

  lemma TruthPriced(l: Lowered, p: Price)
    requires l.Lowered? && l.bindings != [] && Priced(l.bindings, p)
    ensures MeasureOf(ExprOf(LowerTruth(l).bindings)) == TruthMeasure(p)
  {
    hide ExprOf, StepsOf, TakeAtom, NameOf, Priced;
    OperandPriced(l.bindings, p);
    var (a, bs) := TakeAtom(l.bindings);
    var e := If(a, BooleanAtom(true), BooleanAtom(false));
    ExprMeasure(bs, Binding(NameOf(l.vars.counter), e));
  }

  lemma {:induction false} LowerPrices(a: Ast, v: Vars)
    ensures LowersAt(Lower(a, v), PriceOf(a))
    decreases a, 1
  {
    hide ExprOf, StepsOf, TakeAtom, NameOf, Priced, NewVarName, PushContext, PopContext, ExplicitContext, LowerTruth, LowerJoined,
         BindNew, MeasureOf, PriceOf, OperandsMeasure, Lower;
    match a
    case Operation(_, _, _) => OperationPrices(a, v);
    case Conjunction(_, _) => LogicPrices(a, v);
    case Disjunction(_, _) => LogicPrices(a, v);
    case Negation(_, _) => NegationPrices(a, v);
    case Conditional(_, _, _) => ConditionalPrices(a, v);
    case LetIn(_, _, _) => LetPrices(a, v);
    case ForIn(_, _, _) => VariableLoopPrices(a, v);
    case ExistsIn(_, _, _, _) => VariableLoopPrices(a, v);
    case SimpleMap(over, body) => FocusLoopPrices(a, over, body, v);
    case PathStep(over, body) => FocusLoopPrices(a, over, body, v);
    case Predicate(over, body) => FocusLoopPrices(a, over, body, v);
    case SequenceOf(operands) => ListPrices(a, operands, v);
    case SetJoin(_, operands) => ListPrices(a, operands, v);
    case Literal(_) => AtomPrices(a, v);
    case VarRef(_) => AtomPrices(a, v);
    case ContextItem => AtomPrices(a, v);
    case Position => AtomPrices(a, v);
    case Last => AtomPrices(a, v);
  }

  lemma AtomPrices(a: Ast, v: Vars)
    requires a.Literal? || a.VarRef? || a.ContextItem? || a.Position? || a.Last?
    ensures LowersAt(Lower(a, v), PriceOf(a))
  {
    hide NameOf, Priced;
    var l := Lower(a, v);
    if l.Lowered? {
      assert l.bindings == [l.bindings[0]];
      AtomPriced(l.bindings[0]);
    }
  }

  lemma {:induction false} OperationPrices(a: Ast, v: Vars)
    requires a.Operation?
    ensures LowersAt(Lower(a, v), PriceOf(a))
    decreases a, 0
  {
    hide TakeAtom, Priced, BindNew, Chain, Operand, Constants1;
    LowerPrices(a.left, v);
    var l := Lower(a.left, v);
    LowerPrices(a.right, VarsAfter(l, v));
    var r := Lower(a.right, VarsAfter(l, v));
    if l.Lowered? && r.Lowered? {
      OperationPriced(a.op2, l, r, PriceOf(a.left), PriceOf(a.right));
    }
  }

  lemma OperationPriced(op: BinaryOp, l: Lowered, r: Lowered, p: Price, q: Price)
    requires l.Lowered? && r.Lowered? && l.bindings != [] && r.bindings != [] && Priced(l.bindings, p) && Priced(r.bindings, q)
    ensures var (x, ls) := TakeAtom(l.bindings);
            var (y, rs) := TakeAtom(r.bindings);
            Priced(BindNew(ls + rs, Binary(op, x, y), r.vars).bindings,
                   New(Chain(Operand(p), Operand(q)), Measure(true, 7, Constants1(p) + Constants1(q), 0)))
  {
    hide StepsOf, TakeAtom, NameOf, Priced, BindNew, Chain, Operand, Constants1;
    OperandPriced(l.bindings, p);
    OperandPriced(r.bindings, q);
    var (x, ls) := TakeAtom(l.bindings);
    var (y, rs) := TakeAtom(r.bindings);
    StepsJoin(ls, rs);
    NewPriced(ls + rs, Binary(op, x, y), r.vars, Chain(Operand(p), Operand(q)), MeasureOf(Binary(op, x, y)));
  }

  lemma {:induction false} NegationPrices(a: Ast, v: Vars)
    requires a.Negation?
    ensures LowersAt(Lower(a, v), PriceOf(a))
    decreases a, 0
  {
    hide TakeAtom, Priced, BindNew, Operand, Constants1;
    LowerPrices(a.operand, v);
    var l := Lower(a.operand, v);
    if l.Lowered? {
      var x := TakeAtom(l.bindings).0;
      OneUsed(l, PriceOf(a.operand), Unary(a.op1, x), l.vars, Measure(true, 4, Constants1(PriceOf(a.operand)), 0));
    }
  }

  /** One operand, then a new name for what is done with it. */
  lemma OneUsed(l: Lowered, p: Price, e: Expr, w: Vars, m: Measure)
    requires l.Lowered? && l.bindings != [] && Priced(l.bindings, p) && !e.AtomExpr?
    requires AtomConstants(TakeAtom(l.bindings).0) == Constants1(p) ==> MeasureOf(e) == m
    ensures Priced(BindNew(TakeAtom(l.bindings).1, e, w).bindings, New(Operand(p), m))
  {
    hide StepsOf, TakeAtom, NameOf, Priced, BindNew, Operand, Constants1, MeasureOf;
    OperandPriced(l.bindings, p);
    NewPriced(TakeAtom(l.bindings).1, e, w, Operand(p), m);
  }

  lemma {:induction false} LogicPrices(a: Ast, v: Vars)
    requires a.Conjunction? || a.Disjunction?
    ensures LowersAt(Lower(a, v), PriceOf(a))
    decreases a, 0
  {
    hide ExprOf, TakeAtom, Priced, BindNew, LowerTruth, TruthMeasure, Operand, Constants1, IfMeasure, MeasureOf;
    LowerPrices(a.left, v);
    var l := Lower(a.left, v);
    LowerPrices(a.right, VarsAfter(l, v));
    var r := Lower(a.right, VarsAfter(l, v));
    if l.Lowered? && r.Lowered? {
      TruthPriced(r, PriceOf(a.right));
      var x, t, p := TakeAtom(l.bindings).0, ExprOf(LowerTruth(r).bindings), PriceOf(a.left);
      BooleanMeasure(true);
      BooleanMeasure(false);
      if a.Conjunction? {
        IfIs(x, t, BooleanAtom(false));
        OneUsed(l, p, If(x, t, BooleanAtom(false)), LowerTruth(r).vars, IfMeasure(Constants1(p), TruthMeasure(PriceOf(a.right)), BOOLEAN));
      } else {
        IfIs(x, BooleanAtom(true), t);
        OneUsed(l, p, If(x, BooleanAtom(true), t), LowerTruth(r).vars, IfMeasure(Constants1(p), BOOLEAN, TruthMeasure(PriceOf(a.right))));
      }
    }
  }

  lemma BooleanMeasure(b: bool)
    ensures MeasureOf(BooleanAtom(b)) == BOOLEAN
  {
  }

  lemma IfIs(x: Atom, t: Expr, f: Expr)
    ensures MeasureOf(If(x, t, f)) == IfMeasure(AtomConstants(x), MeasureOf(t), MeasureOf(f))
  {
  }

  lemma {:induction false} ConditionalPrices(a: Ast, v: Vars)
    requires a.Conditional?
    ensures LowersAt(Lower(a, v), PriceOf(a))
    decreases a, 0
  {
    hide ExprOf, TakeAtom, Priced, BindNew, Operand, Constants1, IfMeasure, MeasureOf, Finish;
    LowerPrices(a.condition, v);
    var c := Lower(a.condition, v);
    LowerPrices(a.whenTrue, VarsAfter(c, v));
    var t := Lower(a.whenTrue, VarsAfter(c, v));
    var f := Lower(a.whenFalse, VarsAfter(t, VarsAfter(c, v)));
    LowerPrices(a.whenFalse, VarsAfter(t, VarsAfter(c, v)));
    if c.Lowered? && t.Lowered? && f.Lowered? {
      WholePriced(t.bindings, PriceOf(a.whenTrue));
      WholePriced(f.bindings, PriceOf(a.whenFalse));
      var x, p := TakeAtom(c.bindings).0, PriceOf(a.condition);
      IfIs(x, ExprOf(t.bindings), ExprOf(f.bindings));
      OneUsed(c, p, If(x, ExprOf(t.bindings), ExprOf(f.bindings)), f.vars,
              IfMeasure(Constants1(p), Whole(PriceOf(a.whenTrue)), Whole(PriceOf(a.whenFalse))));
    }
  }

  lemma {:induction false} LetPrices(a: Ast, v: Vars)
    requires a.LetIn?
    ensures LowersAt(Lower(a, v), PriceOf(a))
    decreases a, 0
  {
    hide ExprOf, TakeAtom, Priced, BindNew, NewVarName, MeasureOf, Finish;
    var (name, v1) := NewVarName(v, a.x);
    LowerPrices(a.value, v1);
    var l := Lower(a.value, v1);
    LowerPrices(a.body, VarsAfter(l, v1));
    var r := Lower(a.body, VarsAfter(l, v1));
    if l.Lowered? && r.Lowered? {
      WholePriced(l.bindings, PriceOf(a.value));
      WholePriced(r.bindings, PriceOf(a.body));
      LetIs(name, ExprOf(l.bindings), ExprOf(r.bindings));
      StepsOfNone();
      NewPriced([], Let(name, ExprOf(l.bindings), ExprOf(r.bindings)), r.vars, NO_STEPS,
                LetMeasure(Whole(PriceOf(a.value)), Whole(PriceOf(a.body))));
    }
  }

  lemma LetIs(name: Name, value: Expr, body: Expr)
    ensures MeasureOf(Let(name, value, body)) == LetMeasure(MeasureOf(value), MeasureOf(body))
  {
  }

  lemma StepsOfNone()
    ensures StepsOf([]) == NO_STEPS
  {
  }

  lemma {:induction false} VariableLoopPrices(a: Ast, v: Vars)
    requires a.ForIn? || a.ExistsIn?
    ensures LowersAt(Lower(a, v), PriceOf(a))
    decreases a, 0
  {
    hide ExprOf, TakeAtom, Priced, BindNew, NewVarName, ExplicitContext, Operand, Constants1, MeasureOf, Finish, MapMeasure, QuantifiedMeasure;
    var (name, v1) := NewVarName(v, a.x);
    LowerPrices(a.over, v1);
    var l := Lower(a.over, v1);
    var (names, v2) := ExplicitContext(VarsAfter(l, v1), name);
    LowerPrices(a.body, v2);
    var r := Lower(a.body, v2);
    if l.Lowered? && r.Lowered? {
      WholePriced(r.bindings, PriceOf(a.body));
      var y, p, m := TakeAtom(l.bindings).0, PriceOf(a.over), Whole(PriceOf(a.body));
      LoopIs(names, y, ExprOf(r.bindings), a.ExistsIn? && a.every);
      if a.ForIn? {
        OneUsed(l, p, Mapped(names, y, ExprOf(r.bindings)), r.vars, MapMeasure(Constants1(p), m));
      } else {
        OneUsed(l, p, Quantified(a.every, names, y, ExprOf(r.bindings)), r.vars, QuantifiedMeasure(Constants1(p), m));
      }
    }
  }

  lemma LoopIs(names: ContextNames, y: Atom, body: Expr, every: bool)
    ensures MeasureOf(Mapped(names, y, body)) == MapMeasure(AtomConstants(y), MeasureOf(body))
    ensures MeasureOf(Filter(names, y, body)) == FilterMeasure(AtomConstants(y), MeasureOf(body))
    ensures MeasureOf(Quantified(every, names, y, body)) == QuantifiedMeasure(AtomConstants(y), MeasureOf(body))
    ensures MeasureOf(Distinct(Mapped(names, y, body))) == Longer(MapMeasure(AtomConstants(y), MeasureOf(body)))
  {
  }

  lemma {:induction false} FocusLoopPrices(a: Ast, over: Ast, body: Ast, v: Vars)
    requires a == SimpleMap(over, body) || a == PathStep(over, body) || a == Predicate(over, body)
    ensures LowersAt(Lower(a, v), PriceOf(a))
    decreases a, 0
  {
    hide ExprOf, TakeAtom, Priced, BindNew, PushContext, PopContext, Operand, Constants1, MeasureOf, Finish, MapMeasure, FilterMeasure, Longer;
    LowerPrices(over, v);
    var l := Lower(over, v);
    var (names, v2) := PushContext(VarsAfter(l, v));
    LowerPrices(body, v2);
    var r := Lower(body, v2);
    if l.Lowered? && r.Lowered? {
      WholePriced(r.bindings, PriceOf(body));
      var y, p, m, w := TakeAtom(l.bindings).0, PriceOf(over), Whole(PriceOf(body)), PopContext(r.vars);
      LoopIs(names, y, ExprOf(r.bindings), false);
      if a.SimpleMap? {
        OneUsed(l, p, Mapped(names, y, ExprOf(r.bindings)), w, MapMeasure(Constants1(p), m));
      } else if a.PathStep? {
        OneUsed(l, p, Distinct(Mapped(names, y, ExprOf(r.bindings))), w, Longer(MapMeasure(Constants1(p), m)));
      } else {
        OneUsed(l, p, Filter(names, y, ExprOf(r.bindings)), w, FilterMeasure(Constants1(p), m));
      }
    }
  }

  lemma {:induction false} ListPrices(a: Ast, operands: seq<Ast>, v: Vars)
    requires a == SequenceOf(operands) || (a.SetJoin? && a.operands == operands)
    ensures LowersAt(Lower(a, v), PriceOf(a))
    decreases a, 0
  {
    hide ExprOf, TakeAtom, NameOf, Priced, LowerAll, OperandsMeasure, BindNew;
    if operands == [] {
      AtomPriced(Binding(NameOf(v.counter), AtomExpr(Constant([]))));
      NothingBefore(AtomExpr(Constant([])), v);
    } else if |operands| == 1 {
      LowerPrices(operands[0], v);
    } else {
      AllPrices(operands, 0, v);
      var all := LowerAll(operands, 0, v);
      if all.Some? {
        var m := OperandsMeasure(operands, 0);
        var join := if a.SequenceOf? then Comma else a.join;
        FromStart(all.value.0);
        JoinedMeasure(join, all.value.0, m);
        StepsOfNone();
        NewPriced([], Joined(join, all.value.0), all.value.1, NO_STEPS, m.(size := m.size + |operands| - 1));
      }
    }
  }

  lemma NothingBefore(e: Expr, v: Vars)
    ensures BindNew([], e, v).bindings == [Binding(NameOf(v.counter), e)]
  {
  }

  lemma JoinedMeasure(join: BinaryOp, es: seq<Expr>, m: Measure)
    requires es != [] && ItemsMeasure(es, 0) == m
    ensures m.size + |es| - 1 >= 0 && MeasureOf(Joined(join, es)) == m.(size := m.size + |es| - 1)
  {
    hide ItemsMeasure;
  }

  /** The operands from the `i`-th on are lowered at their prices. */
  lemma {:induction false} AllPrices(operands: seq<Ast>, i: nat, v: Vars)
    requires i <= |operands|
    ensures var all := LowerAll(operands, i, v);
            all.Some? ==> |all.value.0| == |operands| - i && MeasureFrom(all.value.0, i) == OperandsMeasure(operands, i)
    decreases operands, |operands| - i
  {
    hide ExprOf, Lower, PriceOf, CountOnes, MeasureOf, Priced;
    if i < |operands| {
      LowerPrices(operands[i], v);
      var l := Lower(operands[i], v);
      AllPrices(operands, i + 1, VarsAfter(l, v));
      var all := LowerAll(operands, i, v);
      if all.Some? {
        WholePriced(l.bindings, PriceOf(operands[i]));
        assert all.value.0[1..] == LowerAll(operands, i + 1, l.vars).value.0;
      }
    }
  }

  /** The measure of items of which the first is the `i`-th. */
  function MeasureFrom(es: seq<Expr>, i: nat): Measure
    decreases |es|
  {
    if es == [] then Measure(true, 0, 0, 0) else ItemThen(CountOnes(i), MeasureOf(es[0]), MeasureFrom(es[1..], i + 1))
  }

  lemma FromStart(es: seq<Expr>)
    ensures MeasureFrom(es, 0) == ItemsMeasure(es, 0)
  {
    FromThere(es, 0);
    assert es[0..] == es;
  }

  lemma {:induction false} FromThere(es: seq<Expr>, i: nat)
    requires i <= |es|
    ensures MeasureFrom(es[i..], i) == ItemsMeasure(es, i)
    decreases |es| - i
  {
    hide MeasureOf, CountOnes;
    if i < |es| {
      assert es[i..][1..] == es[i + 1..];
      FromThere(es, i + 1);
    }
  }

  // ----- the names a lowered expression needs -----

  /** The names of the variables, and those of the focus if there is one. */
  ghost function Given(v: Vars, vars: set<string>, focus: bool): set<Name>
    requires vars <= v.names.Keys && (focus ==> CurrentContext(v).Some?)
  {
    (set x | x in vars :: v.names[x]) + if focus then LoopNames(CurrentContext(v).value) else {}
  }

  /** What bindings need from outside. */
  ghost function FreeOf(bs: seq<Binding>): set<Name> {
    if bs == [] then {} else Free(bs[0].expr) + (FreeOf(bs[1..]) - {bs[0].name})
  }

  ghost function NamesOf(bs: seq<Binding>): set<Name> {
    if bs == [] then {} else {bs[0].name} + NamesOf(bs[1..])
  }

  lemma {:induction false} FreeJoin(a: seq<Binding>, b: seq<Binding>)
    ensures FreeOf(a + b) == FreeOf(a) + (FreeOf(b) - NamesOf(a))
    decreases |a|
  {
    hide Free;
    if a == [] {
      assert a + b == b;
    } else {
      assert (a + b)[1..] == a[1..] + b;
      FreeJoin(a[1..], b);
    }
  }

  lemma {:induction false} NamesJoin(a: seq<Binding>, b: seq<Binding>)
    ensures NamesOf(a + b) == NamesOf(a) + NamesOf(b)
    decreases |a|
  {
    if a == [] {
      assert a + b == b;
    } else {
      assert (a + b)[1..] == a[1..] + b;
      NamesJoin(a[1..], b);
    }
  }

  lemma {:induction false} FreeExpr(bs: seq<Binding>)
    requires bs != []
    ensures Free(ExprOf(bs)) == FreeOf(bs)
    decreases |bs|
  {
    if |bs| == 1 {
      assert FreeOf(bs[1..]) == {};
      assert bs[1..] == [];
    } else {
      FreeExpr(bs[1..]);
    }
  }

  /** Bindings need no more than these names; a lone atom is all there is. */
  ghost predicate Needs(bs: seq<Binding>, names: set<Name>) {
    bs != [] && FreeOf(bs) <= names && (bs[|bs| - 1].expr.AtomExpr? ==> |bs| == 1)
  }

  lemma FreeOne(b: Binding)
    ensures FreeOf([b]) == Free(b.expr) && NamesOf([b]) == {b.name}
  {
    hide Free;
    assert [b][1..] == [];
    assert FreeOf([b][1..]) == {} && NamesOf([b][1..]) == {};
  }

  /** As an operand: its atom is one of the names, or bound before. */
  lemma OperandNeeds(bs: seq<Binding>, names: set<Name>)
    requires Needs(bs, names)
    ensures var (x, ls) := TakeAtom(bs); FreeOf(ls) <= names && FreeAtom(x) <= names + NamesOf(ls)
  {
    var n := |bs| - 1;
    assert bs == bs[..n] + [bs[n]];
    NamesJoin(bs[..n], [bs[n]]);
    FreeOne(bs[n]);
  }

  lemma NewNeeds(bs: seq<Binding>, e: Expr, v: Vars, names: set<Name>)
    requires FreeOf(bs) <= names && Free(e) <= names + NamesOf(bs) && (e.AtomExpr? ==> bs == [])
    ensures Needs(BindNew(bs, e, v).bindings, names)
  {
    hide NameOf, Free;
    var b := Binding(NameOf(v.counter), e);
    FreeJoin(bs, [b]);
    FreeOne(b);
  }

  lemma TwoNeed(l: seq<Binding>, r: seq<Binding>, op: BinaryOp, v: Vars, names: set<Name>)
    requires l != [] && r != [] && Needs(l, names) && Needs(r, names)
    ensures var (x, ls) := TakeAtom(l);
            var (y, rs) := TakeAtom(r);
            Needs(BindNew(ls + rs, Binary(op, x, y), v).bindings, names)
  {
    hide TakeAtom, Needs;
    OperandNeeds(l, names);
    OperandNeeds(r, names);
    var (x, ls) := TakeAtom(l);
    var (y, rs) := TakeAtom(r);
    FreeJoin(ls, rs);
    NamesJoin(ls, rs);
    NewNeeds(ls + rs, Binary(op, x, y), v, names);
  }

  /** One operand, then what is done with it. */
  lemma OneNeeds(l: seq<Binding>, e: Expr, v: Vars, names: set<Name>)
    requires l != [] && Needs(l, names) && !e.AtomExpr? && Free(e) <= names + FreeAtom(TakeAtom(l).0)
    ensures Needs(BindNew(TakeAtom(l).1, e, v).bindings, names)
  {
    hide TakeAtom, Needs, Free;
    OperandNeeds(l, names);
    NewNeeds(TakeAtom(l).1, e, v, names);
  }

  lemma ExprNeeds(bs: seq<Binding>, names: set<Name>)
    requires Needs(bs, names)
    ensures Free(ExprOf(bs)) <= names
  {
    FreeExpr(bs);
  }

  lemma TruthNeeds(l: Lowered, names: set<Name>)
    requires l.Lowered? && l.bindings != [] && Needs(l.bindings, names)
    ensures Free(ExprOf(LowerTruth(l).bindings)) <= names
  {
    hide TakeAtom, Needs, ExprOf;
    var x := TakeAtom(l.bindings).0;
    var e := If(x, BooleanAtom(true), BooleanAtom(false));
    OneNeeds(l.bindings, e, l.vars, names);
    ExprNeeds(LowerTruth(l).bindings, names);
  }

  lemma SameGiven(v: Vars, w: Vars, vars: set<string>, focus: bool)
    requires vars <= v.names.Keys && (focus ==> CurrentContext(v).Some?) && Grown(v, w)
    ensures vars <= w.names.Keys && (focus ==> CurrentContext(w).Some?) && Given(w, vars, focus) == Given(v, vars, focus)
  {
    assert forall x :: x in vars ==> x in w.names && w.names[x] == v.names[x];
  }

  lemma GivenMore(v: Vars, vars: set<string>, focus: bool, x: string)
    requires vars + {x} <= v.names.Keys && (focus ==> CurrentContext(v).Some?)
    ensures Given(v, vars + {x}, focus) <= Given(v, vars, focus) + {v.names[x]}
  {
  }

  lemma GivenInside(v: Vars, w: Vars, vars: set<string>, focus: bool, names: ContextNames)
    requires vars <= v.names.Keys && (focus ==> CurrentContext(v).Some?)
    requires w.names == v.names && CurrentContext(w) == Some(names)
    ensures Given(w, vars, true) - LoopNames(names) <= Given(v, vars, focus)
  {
  }

  ghost predicate LowersWith(l: Lowered, names: set<Name>) {
    l.Lowered? && Needs(l.bindings, names)
  }

  /** A lowered expression needs only the names of its variables and of the focus. */
  lemma {:induction false} LowerNeeds(a: Ast, v: Vars, vars: set<string>, focus: bool)
    requires Ready(a, v, vars, focus)
    ensures LowersWith(Lower(a, v), Given(v, vars, focus))
    decreases a, 1
  {
    hide NamesApart, Given, LowersWith, Lower, NewVarName, PushContext, PopContext, ExplicitContext;
    match a
    case Literal(_) => AtomNeeds(a, v, vars, focus);
    case VarRef(_) => AtomNeeds(a, v, vars, focus);
    case ContextItem => AtomNeeds(a, v, vars, focus);
    case Position => AtomNeeds(a, v, vars, focus);
    case Last => AtomNeeds(a, v, vars, focus);
    case Operation(_, left, right) => PairNeeds(a, left, right, v, vars, focus);
    case Conjunction(left, right) => PairNeeds(a, left, right, v, vars, focus);
    case Disjunction(left, right) => PairNeeds(a, left, right, v, vars, focus);
    case Negation(_, _) => NegationNeeds(a, v, vars, focus);
    case Conditional(_, _, _) => ConditionalNeeds(a, v, vars, focus);
    case LetIn(_, _, _) => LetNeeds(a, v, vars, focus);
    case ForIn(x, over, body) => VariableLoopNeeds(a, x, over, body, v, vars, focus);
    case ExistsIn(_, x, over, body) => VariableLoopNeeds(a, x, over, body, v, vars, focus);
    case SimpleMap(over, body) => FocusLoopNeeds(a, over, body, v, vars, focus);
    case PathStep(over, body) => FocusLoopNeeds(a, over, body, v, vars, focus);
    case Predicate(over, body) => FocusLoopNeeds(a, over, body, v, vars, focus);
    case SequenceOf(operands) => ListNeeds(a, operands, v, vars, focus);
    case SetJoin(_, operands) => ListNeeds(a, operands, v, vars, focus);
  }

  lemma AtomNeeds(a: Ast, v: Vars, vars: set<string>, focus: bool)
    requires Ready(a, v, vars, focus) && (a.Literal? || a.VarRef? || a.ContextItem? || a.Position? || a.Last?)
    ensures LowersWith(Lower(a, v), Given(v, vars, focus))
  {
    hide NamesApart, NameOf;
    FreeOne(Lower(a, v).bindings[0]);
    assert Lower(a, v).bindings == [Lower(a, v).bindings[0]];
  }

  /** A part of an expression, lowered after other parts. */
  lemma {:induction false} PartNeeds(a: Ast, b: Ast, v: Vars, w: Vars, vars: set<string>, focus: bool)
    requires Ready(a, v, vars, focus) && NamesApart(w) && Grown(v, w) && Scoped(b, vars, focus)
    ensures LowersWith(Lower(b, w), Given(v, vars, focus))
    ensures var l := Lower(b, w); l.Lowered? && l.bindings != [] && Needs(l.bindings, Given(v, vars, focus))
                                  && NamesApart(l.vars) && Grown(w, l.vars) && Grown(v, l.vars)
    decreases b, 2
  {
    hide Scoped, NamesApart, Grown, Given, Lower, Shaped, Needs;
    ReadyPart(a, b, v, w, vars, focus);
    SameGiven(v, w, vars, focus);
    LowerNeeds(b, w, vars, focus);
    LowerShapes(b, w, vars, focus);
    ShapedParts(Lower(b, w), w);
    GrownOn(v, w, Lower(b, w).vars);
  }

  lemma {:induction false} PairNeeds(a: Ast, left: Ast, right: Ast, v: Vars, vars: set<string>, focus: bool)
    requires Ready(a, v, vars, focus)
    requires (a.Operation? && a == Operation(a.op2, left, right)) || a == Conjunction(left, right) || a == Disjunction(left, right)
    ensures LowersWith(Lower(a, v), Given(v, vars, focus))
    decreases a, 0
  {
    hide NamesApart, Grown, Given, Needs, TakeAtom, BindNew, ExprOf, LowerTruth;
    var names := Given(v, vars, focus);
    GrownSelf(v);
    PartNeeds(a, left, v, v, vars, focus);
    var l := Lower(left, v);
    PartNeeds(a, right, v, l.vars, vars, focus);
    var r := Lower(right, l.vars);
    if a.Operation? {
      TwoNeed(l.bindings, r.bindings, a.op2, r.vars, names);
    } else {
      TruthNeeds(r, names);
      var x, t, w := TakeAtom(l.bindings).0, ExprOf(LowerTruth(r).bindings), LowerTruth(r).vars;
      OneNeeds(l.bindings, If(x, t, BooleanAtom(false)), w, names);
      OneNeeds(l.bindings, If(x, BooleanAtom(true), t), w, names);
    }
  }

  lemma {:induction false} NegationNeeds(a: Ast, v: Vars, vars: set<string>, focus: bool)
    requires Ready(a, v, vars, focus) && a.Negation?
    ensures LowersWith(Lower(a, v), Given(v, vars, focus))
    decreases a, 0
  {
    hide NamesApart, Grown, Given, Needs, TakeAtom, BindNew;
    GrownSelf(v);
    PartNeeds(a, a.operand, v, v, vars, focus);
    var l := Lower(a.operand, v);
    OneNeeds(l.bindings, Unary(a.op1, TakeAtom(l.bindings).0), l.vars, Given(v, vars, focus));
  }

  lemma {:induction false} ConditionalNeeds(a: Ast, v: Vars, vars: set<string>, focus: bool)
    requires Ready(a, v, vars, focus) && a.Conditional?
    ensures LowersWith(Lower(a, v), Given(v, vars, focus))
    decreases a, 0
  {
    hide NamesApart, Grown, Given, Needs, TakeAtom, BindNew, ExprOf;
    var names := Given(v, vars, focus);
    GrownSelf(v);
    PartNeeds(a, a.condition, v, v, vars, focus);
    var c := Lower(a.condition, v);
    PartNeeds(a, a.whenTrue, v, c.vars, vars, focus);
    var t := Lower(a.whenTrue, c.vars);
    PartNeeds(a, a.whenFalse, v, t.vars, vars, focus);
    var f := Lower(a.whenFalse, t.vars);
    ExprNeeds(t.bindings, names);
    ExprNeeds(f.bindings, names);
    OneNeeds(c.bindings, If(TakeAtom(c.bindings).0, ExprOf(t.bindings), ExprOf(f.bindings)), f.vars, names);
  }

  /** The body of a `let` or of a loop over a variable, whose name is one more. */
  lemma {:induction false} BodyNeeds(a: Ast, x: string, body: Ast, v: Vars, w: Vars, vars: set<string>, focus: bool)
    requires Ready(a, v, vars, focus) && NamesApart(w) && Grown(v, w) && x in w.names && Scoped(body, vars + {x}, focus)
    ensures var r := Lower(body, w);
            && r.Lowered? && r.bindings != [] && Needs(r.bindings, Given(v, vars, focus) + {w.names[x]})
            && NamesApart(r.vars) && Grown(w, r.vars)
    decreases body, 2
  {
    hide Scoped, NamesApart, Grown, Given, Lower, Shaped;
    ReadyVar(a, body, v, w, vars, vars + {x}, focus);
    SameGiven(v, w, vars, focus);
    GivenMore(w, vars, focus, x);
    LowerNeeds(body, w, vars + {x}, focus);
    LowerShapes(body, w, vars + {x}, focus);
    ShapedParts(Lower(body, w), w);
  }

  lemma {:induction false} LetNeeds(a: Ast, v: Vars, vars: set<string>, focus: bool)
    requires Ready(a, v, vars, focus) && a.LetIn?
    ensures LowersWith(Lower(a, v), Given(v, vars, focus))
    decreases a, 0
  {
    hide NamesApart, Grown, Given, Needs, BindNew, ExprOf, NewVarName;
    var names := Given(v, vars, focus);
    VarNameApart(v, a.x);
    var (name, v1) := NewVarName(v, a.x);
    PartNeeds(a, a.value, v, v1, vars, focus);
    var l := Lower(a.value, v1);
    HasName(a.x, v1, l.vars);
    BodyNeeds(a, a.x, a.body, v, l.vars, vars, focus);
    var r := Lower(a.body, l.vars);
    ExprNeeds(l.bindings, names);
    ExprNeeds(r.bindings, names + {name});
    NewNeeds([], Let(name, ExprOf(l.bindings), ExprOf(r.bindings)), r.vars, names);
  }

  /** A loop needs what it is over, and its body less the loop's names. */
  lemma LoopNeedsLess(names: ContextNames, y: Atom, body: Expr, given: set<Name>, every: bool)
    requires Free(body) <= given + LoopNames(names)
    ensures Free(Mapped(names, y, body)) <= given + FreeAtom(y)
    ensures Free(Distinct(Mapped(names, y, body))) <= given + FreeAtom(y)
    ensures Free(Filter(names, y, body)) <= given + FreeAtom(y)
    ensures Free(Quantified(every, names, y, body)) <= given + FreeAtom(y)
  {
  }

  lemma {:induction false} VariableLoopNeeds(a: Ast, x: string, over: Ast, body: Ast, v: Vars, vars: set<string>, focus: bool)
    requires Ready(a, v, vars, focus) && (a == ForIn(x, over, body) || (a.ExistsIn? && a == ExistsIn(a.every, x, over, body)))
    ensures LowersWith(Lower(a, v), Given(v, vars, focus))
    decreases a, 0
  {
    hide NamesApart, Grown, Given, Needs, BindNew, ExprOf, NewVarName, TakeAtom, NameOf, Free;
    var given := Given(v, vars, focus);
    VarNameApart(v, x);
    var (name, v1) := NewVarName(v, x);
    PartNeeds(a, over, v, v1, vars, focus);
    var l := Lower(over, v1);
    var (names, v2) := ExplicitContext(l.vars, name);
    CounterUp(l.vars, l.vars.counter + 2);
    GrownOn(v, l.vars, v2);
    GrownOn(v1, l.vars, v2);
    HasName(x, v1, v2);
    BodyNeeds(a, x, body, v, v2, vars, focus);
    var r := Lower(body, v2);
    ExprNeeds(r.bindings, given + {name});
    assert {name} <= LoopNames(names);
    var y, e := TakeAtom(l.bindings).0, ExprOf(r.bindings);
    LoopNeedsLess(names, y, e, given, a.ExistsIn? && a.every);
    OneNeeds(l.bindings, Mapped(names, y, e), r.vars, given);
    OneNeeds(l.bindings, Quantified(a.ExistsIn? && a.every, names, y, e), r.vars, given);
  }

  lemma {:induction false} FocusLoopNeeds(a: Ast, over: Ast, body: Ast, v: Vars, vars: set<string>, focus: bool)
    requires Ready(a, v, vars, focus) && (a == SimpleMap(over, body) || a == PathStep(over, body) || a == Predicate(over, body))
    ensures LowersWith(Lower(a, v), Given(v, vars, focus))
    decreases a, 0
  {
    hide NamesApart, Grown, Given, Needs, BindNew, ExprOf, TakeAtom, NameOf, PopContext, PushContext, Free, LoopNames;
    var given := Given(v, vars, focus);
    GrownSelf(v);
    PartNeeds(a, over, v, v, vars, focus);
    var l := Lower(over, v);
    var (names, v2) := PushContext(l.vars);
    FocusBodyNeeds(a, body, v, l.vars, vars, focus);
    var r := Lower(body, v2);
    ExprNeeds(r.bindings, given + LoopNames(names));
    var y, e, w := TakeAtom(l.bindings).0, ExprOf(r.bindings), PopContext(r.vars);
    LoopNeedsLess(names, y, e, given, false);
    OneNeeds(l.bindings, Mapped(names, y, e), w, given);
    OneNeeds(l.bindings, Distinct(Mapped(names, y, e)), w, given);
    OneNeeds(l.bindings, Filter(names, y, e), w, given);
  }

  /** The body of a loop over the focus, whose names are three more. */
  lemma {:induction false} FocusBodyNeeds(a: Ast, body: Ast, v: Vars, u: Vars, vars: set<string>, focus: bool)
    requires Ready(a, v, vars, focus) && NamesApart(u) && Grown(v, u) && Scoped(body, vars, true)
    ensures var (names, w) := PushContext(u);
            var r := Lower(body, w);
            r.Lowered? && r.bindings != [] && Needs(r.bindings, Given(v, vars, focus) + LoopNames(names))
    decreases body, 2
  {
    hide NamesApart, Grown, Given, Lower, NameOf, LoopNames, FreeOf;
    var (names, w) := PushContext(u);
    PushApart(u);
    PushKeeps(v, u, vars);
    ReadyFocus(body, w, vars);
    LowerNeeds(body, w, vars, true);
    SameGiven(v, u, vars, focus);
    GivenInside(u, w, vars, focus, names);
  }

  lemma {:induction false} ListNeeds(a: Ast, operands: seq<Ast>, v: Vars, vars: set<string>, focus: bool)
    requires Ready(a, v, vars, focus) && (a == SequenceOf(operands) || (a.SetJoin? && a.operands == operands))
    ensures LowersWith(Lower(a, v), Given(v, vars, focus))
    decreases a, 0
  {
    hide NamesApart, Grown, Given, Needs, BindNew, LowerAll;
    GrownSelf(v);
    if operands == [] {
      NewNeeds([], AtomExpr(Constant([])), v, Given(v, vars, focus));
    } else if |operands| == 1 {
      PartNeeds(a, operands[0], v, v, vars, focus);
    } else {
      AllNeed(a, operands, 0, v, v, vars, focus);
      var all := LowerAll(operands, 0, v).value;
      NewNeeds([], Joined(if a.SequenceOf? then Comma else a.join, all.0), all.1, Given(v, vars, focus));
    }
  }

  lemma {:induction false} AllNeed(a: Ast, operands: seq<Ast>, i: nat, v: Vars, w: Vars, vars: set<string>, focus: bool)
    requires i <= |operands| && Ready(a, v, vars, focus) && NamesApart(w) && Grown(v, w)
    requires forall j :: 0 <= j < |operands| ==> Scoped(operands[j], vars, focus)
    ensures var all := LowerAll(operands, i, w); all.Some? && FreeOfAll(all.value.0) <= Given(v, vars, focus)
    decreases operands, |operands| - i
  {
    hide NamesApart, Grown, Scoped, Lower, ExprOf, Given, Needs, Free;
    if i < |operands| {
      PartNeeds(a, operands[i], v, w, vars, focus);
      var l := Lower(operands[i], w);
      AllNeed(a, operands, i + 1, v, l.vars, vars, focus);
      ExprNeeds(l.bindings, Given(v, vars, focus));
      FreeOfMore(ExprOf(l.bindings), LowerAll(operands, i + 1, l.vars).value.0);
    }
  }

  lemma FreeOfMore(e: Expr, es: seq<Expr>)
    ensures FreeOfAll([e] + es) == Free(e) + FreeOfAll(es)
  {
    hide Free;
    var all := [e] + es;
    assert all[0] == e && forall i :: 0 <= i < |es| ==> all[i + 1] == es[i];
    forall x | x in FreeOfAll(es) ensures x in FreeOfAll(all) {
      var i :| 0 <= i < |es| && x in Free(es[i]);
      assert x in Free(all[i + 1]);
    }
  }

  // ----- which expressions compile -----

  ghost function NamesIn(declared: seq<string>): set<string> {
    set x | x in declared
  }

  /** The compiled function's parameters are the names its body is given. */
  lemma {:induction false} ParamsAreGiven(declared: seq<string>)
    ensures var v, ps := IrMeaning.StartVars(declared), IrMeaning.Params(declared);
            && |ps| == |declared| + 3 && CurrentContext(v).Some? && LoopNames(CurrentContext(v).value) <= Elements(ps)
            && v.names.Keys == NamesIn(declared) && forall x :: x in v.names ==> v.names[x] in ps
    decreases |declared|
  {
    hide NameOf;
    if declared == [] {
      assert PushContext(Vars(0, map[], [])).1.contexts == [Some(PushContext(Vars(0, map[], [])).0)];
    } else {
      var n := |declared| - 1;
      ParamsAreGiven(declared[..n]);
      assert declared == declared[..n] + [declared[n]];
      assert NamesIn(declared) == NamesIn(declared[..n]) + {declared[n]};
      var ps, more := IrMeaning.Params(declared[..n]), IrMeaning.Params(declared);
      assert forall x :: x in ps ==> x in more;
      assert more[|ps|] in more;
    }
  }

  lemma StartIsReady(a: Ast, declared: seq<string>)
    requires IrMeaning.AllDifferent(declared) && Scoped(a, NamesIn(declared), true)
    ensures Ready(a, IrMeaning.StartVars(declared), NamesIn(declared), true)
  {
    hide Scoped, IrMeaning.StartVars, NamesApart;
    var c := Context(map x | x in NamesIn(declared) :: [], Some(Focus([], 1, 1)));
    IrMeaning.StartAgrees(declared, c);
    ParamsAreGiven(declared);
  }

  /** What is compiled is the lowered expression, which needs only the parameters. */
  lemma CompiledNeeds(a: Ast, declared: seq<string>)
    requires IrMeaning.AllDifferent(declared) && Scoped(a, NamesIn(declared), true)
    ensures var l := Lower(a, IrMeaning.StartVars(declared));
            && l.Lowered? && l.bindings != [] && WellFormed(ExprOf(l.bindings)) && MeasureOf(ExprOf(l.bindings)) == Whole(PriceOf(a))
            && AllFound(Scope(IrMeaning.Params(declared), []), Free(ExprOf(l.bindings)))
  {
    hide Scoped, IrMeaning.StartVars, IrMeaning.Params, NamesApart, Lower, PriceOf, MeasureOf, WellFormed, ExprOf, Shaped, FreeOf, Priced;
    var v, ps := IrMeaning.StartVars(declared), IrMeaning.Params(declared);
    StartIsReady(a, declared);
    ParamsAreGiven(declared);
    LowerShapes(a, v, NamesIn(declared), true);
    LowerNeeds(a, v, NamesIn(declared), true);
    LowerPrices(a, v);
    var l := Lower(a, v);
    ShapedParts(l, v);
    WholePriced(l.bindings, PriceOf(a));
    ExprNeeds(l.bindings, Given(v, NamesIn(declared), true));
    assert Given(v, NamesIn(declared), true) <= Elements(ps);
  }

  /**
   * An expression whose variables are declared compiles if its longest jump is at most 32,767 bytes and it has at most 65,536
   * constants and names on the stack; a refusal means that one of these is passed. The code is as long as was read off.
   */
  lemma ExpressionCompiles(a: Ast, declared: seq<string>)
    requires IrMeaning.AllDifferent(declared) && Scoped(a, NamesIn(declared), true)
    ensures var m, r := Whole(PriceOf(a)), IrMeaning.Compiled(a, declared);
            && (m.jumps && m.constants <= 65536 && |declared| + 3 + m.depth <= 65536 ==> r.Emitted?)
            && (r.Emitted? ==> m.jumps && m.constants <= 65536 && |r.code| == m.size + 1 && |r.tables.constants| == m.constants)
  {
    hide Scoped, IrMeaning.StartVars, IrMeaning.Params, Lower, PriceOf, MeasureOf, WellFormed, ExprOf, CostOf, Emit, Free, AllFound, Depth;
    CompiledNeeds(a, declared);
    ParamsAreGiven(declared);
    var e, scope, t := ExprOf(Lower(a, IrMeaning.StartVars(declared)).bindings), Scope(IrMeaning.Params(declared), []), Tables([], []);
    MeasureIsCost(e, scope);
    EmitCounts(e, scope, t);
    EndCounted(Emit(e, scope, t), Encode(Return), t, CostOf(e, scope));
    if Whole(PriceOf(a)).depth + |declared| + 3 <= 65536 {
      NamesFound(e, scope);
      if CostOf(e, scope).names {
        NothingCaptured(e, scope);
      }
    }
  }

  lemma AtomCaptured(a: Atom, scope: Scope)
    requires scope.outer == [] && AtomCost(a, scope).names
    ensures AtomCost(a, scope).captured == {}
  {
  }

  lemma LoopCaptured(names: ContextNames, over: Atom, scope: Scope)
    requires scope.outer == []
    ensures LoopCost(names, over, scope).names ==> LoopCost(names, over, scope).captured == {}
    ensures NextCost(names, LoopScope(scope, names)).captured == {} == KeepCost(names, LoopScope(scope, names)).captured
  {
    hide AtomCost, NameCost;
    var inside := LoopScope(scope, names);
    LoopNamesStand(names, scope);
    OnStack(names.position, inside);
    OnStack(names.last, inside);
    if LoopCost(names, over, scope).names {
      AtomCaptured(over, scope);
      AtomCaptured(over, inside);
    }
  }

  lemma LoopNamesStand(names: ContextNames, scope: Scope)
    ensures names.position in LoopScope(scope, names).names && names.last in LoopScope(scope, names).names
    ensures LoopScope(scope, names).outer == scope.outer
  {
    var inside := LoopScope(scope, names);
    assert inside.names[|scope.names|] == names.last && inside.names[|scope.names| + 1] == names.position;
  }

  lemma OnStack(name: Name, scope: Scope)
    requires name in scope.names
    ensures NameCost(name, scope).captured == {}
  {
  }

  /** Inside no other function, names that are known are on the stack. */
  lemma {:induction false} NothingCaptured(e: Expr, scope: Scope)
    requires scope.outer == [] && CostOf(e, scope).names
    ensures CostOf(e, scope).captured == {}
    decreases e, 0
  {
    hide AtomCost, LoopCost, NextCost, KeepCost, LoopScope;
    match e
    case AtomExpr(atom) => AtomCaptured(atom, scope);
    case Let(name, value, body) =>
      NothingCaptured(value, scope);
      NothingCaptured(body, Bound(scope, name));
    case If(condition, whenTrue, whenFalse) =>
      AtomCaptured(condition, scope);
      NothingCaptured(whenTrue, scope);
      NothingCaptured(whenFalse, scope);
    case Binary(_, left, right) => AtomsCaptured(left, right, scope);
    case And(left, right) => AtomsCaptured(left, right, scope);
    case Or(left, right) => AtomsCaptured(left, right, scope);
    case Unary(_, atom) => AtomCaptured(atom, scope);
    case Distinct(operand) => NothingCaptured(operand, scope);
    case Mapped(names, over, body) => BodyCaptured(names, over, body, scope);
    case Filter(names, over, body) => BodyCaptured(names, over, body, scope);
    case Quantified(_, names, over, body) => BodyCaptured(names, over, body, scope);
    case Joined(_, items) =>
      if items != [] {
        NoneCaptured(items, 0, scope);
      }
  }

  lemma AtomsCaptured(left: Atom, right: Atom, scope: Scope)
    requires scope.outer == [] && AtomCost(left, scope).names && AtomCost(right, scope).names
    ensures AtomCost(left, scope).captured == {} == AtomCost(right, scope).captured
  {
    AtomCaptured(left, scope);
    AtomCaptured(right, scope);
  }

  lemma {:induction false} BodyCaptured(names: ContextNames, over: Atom, body: Expr, scope: Scope)
    requires scope.outer == [] && LoopCost(names, over, scope).names
    requires CostOf(body, Bound(LoopScope(scope, names), names.item)).names
    ensures LoopCost(names, over, scope).captured == {} == CostOf(body, Bound(LoopScope(scope, names), names.item)).captured
    ensures NextCost(names, LoopScope(scope, names)).captured == {} == KeepCost(names, LoopScope(scope, names)).captured
    decreases body, 1
  {
    hide LoopCost, NextCost, KeepCost, CostOf;
    LoopCaptured(names, over, scope);
    NothingCaptured(body, Bound(LoopScope(scope, names), names.item));
  }

  lemma {:induction false} NoneCaptured(items: seq<Expr>, i: nat, scope: Scope)
    requires i <= |items| && scope.outer == [] && ItemsCost(items, i, scope).names
    ensures ItemsCost(items, i, scope).captured == {}
    decreases items, |items| - i
  {
    hide CostOf, CountOnes, Waiting;
    if i < |items| {
      WaitingNames(scope, CountOnes(i));
      NothingCaptured(items[i], Waiting(scope, CountOnes(i)));
      NoneCaptured(items, i + 1, scope);
    }
  }

  /** Within the limits, every expression is compiled, and its code gives its value. */
  lemma WithinLimitsRuns(a: Ast, declared: seq<string>, c: Context, ops: Ops)
    requires Lawful(ops) && IrMeaning.Declares(declared, c) && Scoped(a, c.vars.Keys, true)
    requires var m := Whole(PriceOf(a)); m.jumps && m.constants <= 65536 && |declared| + 3 + m.depth <= 65536
    ensures var e, s := IrMeaning.Compiled(a, declared), Meaning(a, c, ops);
            && e.Emitted?
            && Reaches(Program(e.code, e.tables.constants, [], ops), Running(0, IrMeaning.Arguments(declared, c), []),
                       if s.None? then Failed else Returned(Items(s.value)))
  {
    hide Lawful, Scoped, Meaning, Reaches, PriceOf, IrMeaning.Compiled, IrMeaning.Arguments, IrMeaning.AllDifferent;
    assert NamesIn(declared) == c.vars.Keys;
    ExpressionCompiles(a, declared);
    IrMeaning.ExpressionRuns(a, declared, c, ops);
  }
}
