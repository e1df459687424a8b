/** Lowering an expression to the intermediate representation: names are made up, and operands become atoms. */
module IrLowering {
  import opened Options
  import opened IrCode
  import opened IrMachine
  import opened IrExpr
  import opened XPathCore
  import opened Decimals

  // ----- names -----

  function NameOf(k: nat): Name {
    ['v'] + Decimal(k)
  }

  lemma NamesDiffer(a: nat, b: nat)
    requires NameOf(a) == NameOf(b)
    ensures a == b
  {
    assert NameOf(a)[1..] == Decimal(a) && NameOf(b)[1..] == Decimal(b);
    DecimalsDiffer(a, b);
  }

  /** A name made up before the `n`-th. */
  ghost predicate Older(name: Name, n: nat) {
    exists k: nat :: k < n && name == NameOf(k)
  }

  lemma NewIsNotOld(k: nat, n: nat)
    ensures Older(NameOf(k), n) <==> k < n
  {
    if j: nat :| j < n && NameOf(k) == NameOf(j) {
      NamesDiffer(k, j);
    }
  }

  // ----- variables -----

  /** The names made up so far, those of variables, and those of the focuses around. */
  datatype Vars = Vars(counter: nat, names: map<string, Name>, contexts: seq<Option<ContextNames>>)

  function NewName(v: Vars): (Name, Vars) {
    (NameOf(v.counter), v.(counter := v.counter + 1))
  }

  function NewVarName(v: Vars, x: string): (Name, Vars) {
    if x in v.names then (v.names[x], v)
    else (NameOf(v.counter), Vars(v.counter + 1, v.names[x := NameOf(v.counter)], v.contexts))
  }

  function PushContext(v: Vars): (ContextNames, Vars) {
    var names := ContextNames(NameOf(v.counter), NameOf(v.counter + 1), NameOf(v.counter + 2));
    (names, Vars(v.counter + 3, v.names, v.contexts + [Some(names)]))
  }

  function PopContext(v: Vars): Vars {
    if v.contexts == [] then v else v.(contexts := v.contexts[..|v.contexts| - 1])
  }

  function ExplicitContext(v: Vars, item: Name): (ContextNames, Vars) {
    (ContextNames(item, NameOf(v.counter), NameOf(v.counter + 1)), v.(counter := v.counter + 2))
  }

  function CurrentContext(v: Vars): Option<ContextNames> {
    if v.contexts == [] then None else v.contexts[|v.contexts| - 1]
  }

  class Variables {
    var counter: nat
    var names: map<string, Name>
    var contexts: seq<Option<ContextNames>>

    constructor ()
      ensures At() == Vars(0, map[], [])
    {
      counter := 0;
      names := map[];
      contexts := [];
    }

    function At(): Vars
      reads this
    {
      Vars(counter, names, contexts)
    }

    method New() returns (name: Name)
      modifies this
      ensures (name, At()) == NewName(old(At()))
    {
      name := NameOf(counter);
      counter := counter + 1;
    }

    method NewFor(x: string) returns (name: Name)
      modifies this
      ensures (name, At()) == NewVarName(old(At()), x)
    {
      if x in names {
        return names[x];
      }
      name := New();
      names := names[x := name];
    }

    method Push() returns (cn: ContextNames)
      modifies this
      ensures (cn, At()) == PushContext(old(At()))
    {
      var item := New();
      var position := New();
      var last := New();
      cn := ContextNames(item, position, last);
      contexts := contexts + [Some(cn)];
    }

    method Pop()
      modifies this
      ensures At() == PopContext(old(At()))
    {
      if contexts != [] {
        contexts := contexts[..|contexts| - 1];
      }
    }

    method Explicit(item: Name) returns (cn: ContextNames)
      modifies this
      ensures (cn, At()) == ExplicitContext(old(At()), item)
    {
      var position := New();
      var last := New();
      cn := ContextNames(item, position, last);
    }
  }

  // ----- bindings -----

  datatype Binding = Binding(name: Name, expr: Expr)

  /** The bindings around the last one's expression, the first outermost. */
  function ExprOf(bs: seq<Binding>): Expr
    requires bs != []
  {
    if |bs| == 1 then bs[0].expr else Let(bs[0].name, bs[0].expr, ExprOf(bs[1..]))
  }

  /** The fold that consumes the bindings, the last first. */
  method FoldBindings(bs: seq<Binding>) returns (e: Expr)
    requires bs != []
    ensures e == ExprOf(bs)
  {
    var n := |bs| - 1;
    e := bs[n].expr;
    assert bs[n..] == [bs[n]];
    while n > 0
      invariant n < |bs| && e == ExprOf(bs[n..])
    {
      assert bs[n - 1..][1..] == bs[n..];
      n := n - 1;
      e := Let(bs[n].name, bs[n].expr, e);
    }
    assert bs[0..] == bs;
  }

  /** The last binding as an operand: its atom, with the binding dropped, or its name. */
  function TakeAtom(bs: seq<Binding>): (Atom, seq<Binding>)
    requires bs != []
  {
    var last := bs[|bs| - 1];
    if last.expr.AtomExpr? then (last.expr.atom, bs[..|bs| - 1]) else (Variable(last.name), bs)
  }

  // ----- lowering -----

  datatype Lowered = Lowered(bindings: seq<Binding>, vars: Vars) | Invalid

  function VarsAfter(l: Lowered, v: Vars): Vars {
    if l.Invalid? then v else l.vars
  }

  function BooleanAtom(b: bool): Expr {
    AtomExpr(Constant([Boolean(b)]))
  }

  /** One more binding, with a new name. */
  function BindNew(bs: seq<Binding>, e: Expr, v: Vars): (l: Lowered)
    ensures l.Lowered? && l.bindings != []
  {
    Lowered(bs + [Binding(NameOf(v.counter), e)], v.(counter := v.counter + 1))
  }

  /** A name that is there already. */
  function Reference(name: Name, v: Vars): Lowered {
    Lowered([Binding(name, AtomExpr(Variable(name)))], v)
  }

  function FocusName(a: Ast, names: ContextNames): Name {
    if a.ContextItem? then names.item else if a.Position? then names.position else names.last
  }

  /** The right operand's value as a truth value, with all its bindings inside. */
  function LowerTruth(l: Lowered): (truth: Lowered)
    requires l.Lowered? && l.bindings != []
    ensures truth.Lowered? && truth.bindings != []
  {
    var (a, bs) := TakeAtom(l.bindings);
    BindNew(bs, If(a, BooleanAtom(true), BooleanAtom(false)), l.vars)
  }

  function Lower(a: Ast, v: Vars): (l: Lowered)
    ensures l.Lowered? ==> l.bindings != []
    decreases a, 0
  {
    match a
    case Literal(items) => BindNew([], AtomExpr(Constant(items)), v)
    case VarRef(x) => if x in v.names then Reference(v.names[x], v) else Invalid
    case ContextItem => if CurrentContext(v).Some? then Reference(FocusName(a, CurrentContext(v).value), v) else Invalid
    case Position => if CurrentContext(v).Some? then Reference(FocusName(a, CurrentContext(v).value), v) else Invalid
    case Last => if CurrentContext(v).Some? then Reference(FocusName(a, CurrentContext(v).value), v) else Invalid
    case Operation(op, left, right) =>
      var l := Lower(left, v);
      var r := Lower(right, VarsAfter(l, v));
      if l.Invalid? || r.Invalid? then Invalid
      else
        var (x, ls) := TakeAtom(l.bindings);
        var (y, rs) := TakeAtom(r.bindings);
        BindNew(ls + rs, Binary(op, x, y), r.vars)
    case Conjunction(left, right) =>
      var l := Lower(left, v);
      var r := Lower(right, VarsAfter(l, v));
      if l.Invalid? || r.Invalid? then Invalid
      else
        var truth := LowerTruth(r);
        var (x, ls) := TakeAtom(l.bindings);
        BindNew(ls, If(x, ExprOf(truth.bindings), BooleanAtom(false)), truth.vars)
    case Disjunction(left, right) =>
      var l := Lower(left, v);
      var r := Lower(right, VarsAfter(l, v));
      if l.Invalid? || r.Invalid? then Invalid
      else
        var truth := LowerTruth(r);
        var (x, ls) := TakeAtom(l.bindings);
        BindNew(ls, If(x, BooleanAtom(true), ExprOf(truth.bindings)), truth.vars)
    case Negation(op, operand) =>
      var l := Lower(operand, v);
      if l.Invalid? then Invalid
      else
        var (x, ls) := TakeAtom(l.bindings);
        BindNew(ls, Unary(op, x), l.vars)
    case Conditional(condition, whenTrue, whenFalse) =>
      var c := Lower(condition, v);
      var t := Lower(whenTrue, VarsAfter(c, v));
      var f := Lower(whenFalse, VarsAfter(t, v));
      if c.Invalid? || t.Invalid? || f.Invalid? then Invalid
      else
        var (x, cs) := TakeAtom(c.bindings);
        BindNew(cs, If(x, ExprOf(t.bindings), ExprOf(f.bindings)), f.vars)
    case LetIn(x, value, body) =>
      var (name, v1) := NewVarName(v, x);
      var l := Lower(value, v1);
      var r := Lower(body, VarsAfter(l, v1));
      if l.Invalid? || r.Invalid? then Invalid
      else BindNew([], Let(name, ExprOf(l.bindings), ExprOf(r.bindings)), r.vars)
    case ForIn(x, over, body) =>
      var (name, v1) := NewVarName(v, x);
      var l := Lower(over, v1);
      var (names, v2) := ExplicitContext(VarsAfter(l, v1), name);
      var r := Lower(body, v2);
      if l.Invalid? || r.Invalid? then Invalid
      else
        var (y, ls) := TakeAtom(l.bindings);
        BindNew(ls, Mapped(names, y, ExprOf(r.bindings)), r.vars)
    case ExistsIn(every, x, over, body) =>
      var (name, v1) := NewVarName(v, x);
      var l := Lower(over, v1);
      var (names, v2) := ExplicitContext(VarsAfter(l, v1), name);
      var r := Lower(body, v2);
      if l.Invalid? || r.Invalid? then Invalid
      else
        var (y, ls) := TakeAtom(l.bindings);
        BindNew(ls, Quantified(every, names, y, ExprOf(r.bindings)), r.vars)
    case SimpleMap(over, body) =>
      var l := Lower(over, v);
      var (names, v2) := PushContext(VarsAfter(l, v));
      var r := Lower(body, v2);
      if l.Invalid? || r.Invalid? then Invalid
      else
        var (y, ls) := TakeAtom(l.bindings);
        BindNew(ls, Mapped(names, y, ExprOf(r.bindings)), PopContext(r.vars))
    case PathStep(over, body) =>
      var l := Lower(over, v);
      var (names, v2) := PushContext(VarsAfter(l, v));
      var r := Lower(body, v2);
      if l.Invalid? || r.Invalid? then Invalid
      else
        var (y, ls) := TakeAtom(l.bindings);
        BindNew(ls, Distinct(Mapped(names, y, ExprOf(r.bindings))), PopContext(r.vars))
    case Predicate(over, body) =>
      var l := Lower(over, v);
      var (names, v2) := PushContext(VarsAfter(l, v));
      var r := Lower(body, v2);
      if l.Invalid? || r.Invalid? then Invalid
      else
        var (y, ls) := TakeAtom(l.bindings);
        BindNew(ls, Filter(names, y, ExprOf(r.bindings)), PopContext(r.vars))
    case SequenceOf(operands) =>
      if operands == [] then BindNew([], AtomExpr(Constant([])), v)
      else if |operands| == 1 then Lower(operands[0], v)
      else LowerJoined(Comma, operands, v)
    case SetJoin(join, operands) =>
      if operands == [] then Invalid
      else if |operands| == 1 then Lower(operands[0], v)
      else LowerJoined(join, operands, v)
  }

  function LowerJoined(join: BinaryOp, operands: seq<Ast>, v: Vars): (l: Lowered)
    ensures l.Lowered? ==> l.bindings != []
    decreases operands, |operands| + 1
  {
    var all := LowerAll(operands, 0, v);
    if all.None? then Invalid else BindNew([], Joined(join, all.value.0), all.value.1)
  }

  /** The operands from the `i`-th on, each an expression of its own. */
  function LowerAll(operands: seq<Ast>, i: nat, v: Vars): Option<(seq<Expr>, Vars)>
    requires i <= |operands|
    decreases operands, |operands| - i
  {
    if i == |operands| then Some(([], v))
    else
      var l := Lower(operands[i], v);
      var rest := LowerAll(operands, i + 1, VarsAfter(l, v));
      if l.Invalid? || rest.None? then None else Some(([ExprOf(l.bindings)] + rest.value.0, rest.value.1))
  }

  // ----- the converter -----

  class Converter {
    const variables: Variables

    constructor (variables: Variables)
      ensures this.variables == variables
    {
      this.variables := variables;
    }

    /** What lowering gives, and where it leaves the names. */
    ghost predicate Did(l: Lowered, bs: Option<seq<Binding>>)
      reads variables
    {
      match l
      case Lowered(bindings, vars) => bs == Some(bindings) && variables.At() == vars
      case Invalid => bs == None
    }

    method Bind(bs: seq<Binding>, e: Expr) returns (r: Option<seq<Binding>>)
      modifies variables
      ensures Did(BindNew(bs, e, old(variables.At())), r)
    {
      var name := variables.New();
      r := Some(bs + [Binding(name, e)]);
    }

    method Focused(a: Ast) returns (r: Option<seq<Binding>>)
      requires a.ContextItem? || a.Position? || a.Last?
      modifies variables
      ensures Did(Lower(a, old(variables.At())), r)
    {
      var n := |variables.contexts|;
      if n == 0 || variables.contexts[n - 1].None? {
        return None;
      }
      var names := variables.contexts[n - 1].value;
      var name := FocusName(a, names);
      r := Some([Binding(name, AtomExpr(Variable(name)))]);
    }

    /** The right operand is lowered before the conditional around it is bound. */
    method Logic(a: Ast, left: Ast, right: Ast) returns (r: Option<seq<Binding>>)
      requires a == Conjunction(left, right) || a == Disjunction(left, right)
      modifies variables
      ensures Did(Lower(a, old(variables.At())), r)
      decreases a, 0
    {
      hide ExprOf, TakeAtom, NameOf;
      var l := Convert(left);
      if l.None? {
        return None;
      }
      r := Convert(right);
      if r.None? {
        return None;
      }
      var (y, rs) := TakeAtom(r.value);
      r := Bind(rs, If(y, BooleanAtom(true), BooleanAtom(false)));
      var e := FoldBindings(r.value);
      var (x, ls) := TakeAtom(l.value);
      r := Bind(ls, if a.Conjunction? then If(x, e, BooleanAtom(false)) else If(x, BooleanAtom(true), e));
    }

    /** A loop over a variable. */
    method VariableLoop(a: Ast, x: string, over: Ast, body: Ast) returns (r: Option<seq<Binding>>)
      requires a == ForIn(x, over, body) || (a.ExistsIn? && a == ExistsIn(a.every, x, over, body))
      modifies variables
      ensures Did(Lower(a, old(variables.At())), r)
      decreases a, 0
    {
      hide ExprOf, TakeAtom, NameOf, NewVarName;
      var name := variables.NewFor(x);
      var l := Convert(over);
      if l.None? {
        return None;
      }
      var (y, ls) := TakeAtom(l.value);
      var names := variables.Explicit(name);
      r := Convert(body);
      if r.None? {
        return None;
      }
      var e := FoldBindings(r.value);
      r := Bind(ls, if a.ForIn? then Mapped(names, y, e) else Quantified(a.every, names, y, e));
    }

    /** A loop over the focus. */
    method FocusLoop(a: Ast, over: Ast, body: Ast) returns (r: Option<seq<Binding>>)
      requires a == SimpleMap(over, body) || a == PathStep(over, body) || a == Predicate(over, body)
      modifies variables
      ensures Did(Lower(a, old(variables.At())), r)
      decreases a, 0
    {
      hide ExprOf, TakeAtom, NameOf, PushContext, PopContext, NewVarName, ExplicitContext, LowerTruth, LowerJoined;
      var l := Convert(over);
      if l.None? {
        return None;
      }
      var (y, ls) := TakeAtom(l.value);
      var names := variables.Push();
      r := Convert(body);
      if r.None? {
        return None;
      }
      variables.Pop();
      var e := FoldBindings(r.value);
      if a.Predicate? {
        r := Bind(ls, Filter(names, y, e));
      } else if a.PathStep? {
        r := Bind(ls, Distinct(Mapped(names, y, e)));
      } else {
        r := Bind(ls, Mapped(names, y, e));
      }
    }

    method Branches(a: Ast) returns (r: Option<seq<Binding>>)
      requires a.Conditional?
      modifies variables
      ensures Did(Lower(a, old(variables.At())), r)
      decreases a, 0
    {
      hide ExprOf, TakeAtom, NameOf;
      var c := Convert(a.condition);
      if c.None? {
        return None;
      }
      var t := Convert(a.whenTrue);
      if t.None? {
        return None;
      }
      r := Convert(a.whenFalse);
      if r.None? {
        return None;
      }
      var (x, cs) := TakeAtom(c.value);
      var then_ := FoldBindings(t.value);
      var else_ := FoldBindings(r.value);
      r := Bind(cs, If(x, then_, else_));
    }

    method Declared(a: Ast) returns (r: Option<seq<Binding>>)
      requires a.LetIn?
      modifies variables
      ensures Did(Lower(a, old(variables.At())), r)
      decreases a, 0
    {
      hide ExprOf, NameOf, NewVarName;
      var name := variables.NewFor(a.x);
      var l := Convert(a.value);
      if l.None? {
        return None;
      }
      r := Convert(a.body);
      if r.None? {
        return None;
      }
      var value := FoldBindings(l.value);
      var body := FoldBindings(r.value);
      r := Bind([], Let(name, value, body));
    }

    method Operands(a: Ast) returns (r: Option<seq<Binding>>)
      requires a.Operation?
      modifies variables
      ensures Did(Lower(a, old(variables.At())), r)
      decreases a, 0
    {
      hide TakeAtom, NameOf;
      var l := Convert(a.left);
      if l.None? {
        return None;
      }
      r := Convert(a.right);
      if r.None? {
        return None;
      }
      var (x, ls) := TakeAtom(l.value);
      var (y, rs) := TakeAtom(r.value);
      r := Bind(ls + rs, Binary(a.op2, x, y));
    }

    /** Each operand is an expression of its own, and one is built of all. */
    method JoinAll(join: BinaryOp, operands: seq<Ast>) returns (r: Option<seq<Binding>>)
      modifies variables
      ensures Did(LowerJoined(join, operands, old(variables.At())), r)
      decreases operands, 1
    {
      hide ExprOf, NameOf, Lower, Preceded;
      PrecededNone(LowerAll(operands, 0, variables.At()));
      ghost var all := LowerAll(operands, 0, variables.At());
      var es: seq<Expr> := [];
      for i := 0 to |operands|
        invariant all == Preceded(es, LowerAll(operands, i, variables.At()))
      {
        PrecededNext(es, operands, i, variables.At());
        var l := Convert(operands[i]);
        if l.None? {
          return None;
        }
        var e := FoldBindings(l.value);
        es := es + [e];
      }
      PrecededLast(es, operands, variables.At());
      r := Bind([], Joined(join, es));
    }

    method Convert(a: Ast) returns (r: Option<seq<Binding>>)
      modifies variables
      ensures Did(Lower(a, old(variables.At())), r) && (r.Some? ==> r.value != [])
      decreases a, 1
    {
      hide TakeAtom, NameOf, LowerJoined;
      match a
      case Literal(items) => r := Bind([], AtomExpr(Constant(items)));
      case VarRef(x) =>
        if x in variables.names {
          r := Some([Binding(variables.names[x], AtomExpr(Variable(variables.names[x])))]);
        } else {
          r := None;
        }
      case ContextItem => r := Focused(a);
      case Position => r := Focused(a);
      case Last => r := Focused(a);
      case Operation(_, _, _) => r := Operands(a);
      case Conjunction(left, right) => r := Logic(a, left, right);
      case Disjunction(left, right) => r := Logic(a, left, right);
      case Negation(op, operand) =>
        r := Convert(operand);
        if r.Some? {
          var (x, bs) := TakeAtom(r.value);
          r := Bind(bs, Unary(op, x));
        }
      case Conditional(_, _, _) => r := Branches(a);
      case LetIn(_, _, _) => r := Declared(a);
      case ForIn(x, over, body) => r := VariableLoop(a, x, over, body);
      case ExistsIn(_, x, over, body) => r := VariableLoop(a, x, over, body);
      case SimpleMap(over, body) => r := FocusLoop(a, over, body);
      case PathStep(over, body) => r := FocusLoop(a, over, body);
      case Predicate(over, body) => r := FocusLoop(a, over, body);
      case SequenceOf(operands) =>
        if operands == [] {
          r := Bind([], AtomExpr(Constant([])));
        } else if |operands| == 1 {
          r := Convert(operands[0]);
        } else {
          r := JoinAll(Comma, operands);
        }
      case SetJoin(join, operands) =>
        if operands == [] {
          r := None;
        } else if |operands| == 1 {
          r := Convert(operands[0]);
        } else {
          r := JoinAll(join, operands);
        }
    }
  }

  function Preceded(es: seq<Expr>, all: Option<(seq<Expr>, Vars)>): Option<(seq<Expr>, Vars)> {
    if all.None? then None else Some((es + all.value.0, all.value.1))
  }

  lemma PrecededNone(all: Option<(seq<Expr>, Vars)>)
    ensures Preceded([], all) == all
  {
    if all.Some? {
      assert [] + all.value.0 == all.value.0;
    }
  }

  lemma PrecededNext(es: seq<Expr>, operands: seq<Ast>, i: nat, v: Vars)
    requires i < |operands|
    ensures var l := Lower(operands[i], v);
            Preceded(es, LowerAll(operands, i, v))
            == if l.Invalid? then None else Preceded(es + [ExprOf(l.bindings)], LowerAll(operands, i + 1, l.vars))
  {
    hide Lower, ExprOf;
    var l := Lower(operands[i], v);
    if l.Lowered? && LowerAll(operands, i + 1, l.vars).Some? {
      var rest := LowerAll(operands, i + 1, l.vars).value.0;
      assert es + ([ExprOf(l.bindings)] + rest) == es + [ExprOf(l.bindings)] + rest;
    }
  }

  lemma PrecededLast(es: seq<Expr>, operands: seq<Ast>, v: Vars)
    ensures Preceded(es, LowerAll(operands, |operands|, v)) == Some((es, v))
  {
    assert es + [] == es;
  }
}
