/** A core of XPath, and what its expressions mean. */
module XPathCore {
  import opened Options
  import opened IrCode
  import opened IrMachine
  import opened IrExpr

  /** Operators of two operands are those of the machine; `union` and `intersect` chains and sequences are of any length. */
  datatype Ast =
    | Literal(items: Sequence)
    | VarRef(x: string)
    | ContextItem | Position | Last
    | Operation(op2: BinaryOp, left: Ast, right: Ast)
    | Conjunction(left: Ast, right: Ast)
    | Disjunction(left: Ast, right: Ast)
    | Negation(op1: UnaryOp, operand: Ast)
    | Conditional(condition: Ast, whenTrue: Ast, whenFalse: Ast)
    | LetIn(x: string, value: Ast, body: Ast)
    | ForIn(x: string, over: Ast, body: Ast)
    | ExistsIn(every: bool, x: string, over: Ast, body: Ast)
    | SimpleMap(over: Ast, body: Ast)
    | PathStep(over: Ast, body: Ast)
    | Predicate(over: Ast, body: Ast)
    | SequenceOf(operands: seq<Ast>)
    | SetJoin(join: BinaryOp, operands: seq<Ast>)

  /** The item that is looked at, its position and the number of items. */
  datatype Focus = Focus(item: Sequence, position: int, size: int)

  datatype Context = Context(vars: map<string, Sequence>, focus: Option<Focus>)

  /** A loop's item is a variable or the focus. */
  datatype Binder = ByVariable(x: string) | ByFocus

  /** Variables are declared, and what needs a focus has one. */
  predicate Scoped(a: Ast, vars: set<string>, focus: bool) {
    match a
    case Literal(_) => true
    case VarRef(x) => x in vars
    case ContextItem => focus
    case Position => focus
    case Last => focus
    case Operation(_, left, right) => Scoped(left, vars, focus) && Scoped(right, vars, focus)
    case Conjunction(left, right) => Scoped(left, vars, focus) && Scoped(right, vars, focus)
    case Disjunction(left, right) => Scoped(left, vars, focus) && Scoped(right, vars, focus)
    case Negation(_, operand) => Scoped(operand, vars, focus)
    case Conditional(condition, whenTrue, whenFalse) =>
      Scoped(condition, vars, focus) && Scoped(whenTrue, vars, focus) && Scoped(whenFalse, vars, focus)
    case LetIn(x, value, body) => Scoped(value, vars, focus) && Scoped(body, vars + {x}, focus)
    case ForIn(x, over, body) => Scoped(over, vars, focus) && Scoped(body, vars + {x}, focus)
    case ExistsIn(_, x, over, body) => Scoped(over, vars, focus) && Scoped(body, vars + {x}, focus)
    case SimpleMap(over, body) => Scoped(over, vars, focus) && Scoped(body, vars, true)
    case PathStep(over, body) => Scoped(over, vars, focus) && Scoped(body, vars, true)
    case Predicate(over, body) => Scoped(over, vars, focus) && Scoped(body, vars, true)
    case SequenceOf(operands) => forall i :: 0 <= i < |operands| ==> Scoped(operands[i], vars, focus)
    case SetJoin(join, operands) =>
      && operands != [] && (join == IrCode.Union || join == IrCode.Intersect)
      && forall i :: 0 <= i < |operands| ==> Scoped(operands[i], vars, focus)
  }

  // ----- meaning -----

  /** The context of a loop's body at the `k`-th item. */
  function Inside(c: Context, b: Binder, items: Sequence, k: nat): Context
    requires k < |items|
  {
    match b
    case ByVariable(x) => c.(vars := c.vars[x := [items[k]]])
    case ByFocus => c.(focus := Some(Focus([items[k]], k + 1, |items|)))
  }

  /** The effective boolean value. */
  function Ebv(ops: Ops, s: Option<Sequence>): Option<bool> {
    if s.None? then None else ops.truth(s.value)
  }

  function BooleanOf(b: Option<bool>): Option<Sequence> {
    if b.None? then None else Some([Boolean(b.value)])
  }

  function UnaryOf(ops: Ops, op: UnaryOp, s: Option<Sequence>): Option<Sequence> {
    if s.None? then None else ops.unary(op, s.value)
  }

  /** A predicate that is a number selects the item at that position. */
  function Selects(ops: Ops, s: Option<Sequence>, position: int): Option<bool> {
    if s.None? then None
    else
      var numeric := ops.numeric(s.value);
      if numeric.None? then None
      else if numeric.value then Ebv(ops, ops.binary(Eq, s.value, [Integer(position)]))
      else ops.truth(s.value)
  }

  /** The operands joined from the left; none if one of them is an error. */
  function JoinSequences(ops: Ops, op: BinaryOp, ss: seq<Sequence>): Option<Sequence>
    requires ss != []
  {
    var n := |ss| - 1;
    if n == 0 then Some(ss[0]) else Both(ops, op, JoinSequences(ops, op, ss[..n]), Some(ss[n]))
  }

  /** The value of an expression; none is an error. */
  function Meaning(a: Ast, c: Context, ops: Ops): Option<Sequence>
    decreases a, 0
  {
    match a
    case Literal(items) => Some(items)
    case VarRef(x) => if x in c.vars then Some(c.vars[x]) else None
    case ContextItem => if c.focus.Some? then Some(c.focus.value.item) else None
    case Position => if c.focus.Some? then Some([Integer(c.focus.value.position)]) else None
    case Last => if c.focus.Some? then Some([Integer(c.focus.value.size)]) else None
    case Operation(op, left, right) => Both(ops, op, Meaning(left, c, ops), Meaning(right, c, ops))
    case Conjunction(left, right) =>
      var t := Ebv(ops, Meaning(left, c, ops));
      if t.None? then None else if !t.value then Some([Boolean(false)]) else BooleanOf(Ebv(ops, Meaning(right, c, ops)))
    case Disjunction(left, right) =>
      var t := Ebv(ops, Meaning(left, c, ops));
      if t.None? then None else if t.value then Some([Boolean(true)]) else BooleanOf(Ebv(ops, Meaning(right, c, ops)))
    case Negation(op, operand) => UnaryOf(ops, op, Meaning(operand, c, ops))
    case Conditional(condition, whenTrue, whenFalse) =>
      var t := Ebv(ops, Meaning(condition, c, ops));
      if t.None? then None else if t.value then Meaning(whenTrue, c, ops) else Meaning(whenFalse, c, ops)
    case LetIn(x, value, body) =>
      var v := Meaning(value, c, ops);
      if v.None? then None else Meaning(body, c.(vars := c.vars[x := v.value]), ops)
    case ForIn(x, over, body) =>
      var s := Meaning(over, c, ops);
      if s.None? then None else MapMeaning(ByVariable(x), body, s.value, 0, c, ops)
    case ExistsIn(every, x, over, body) =>
      var s := Meaning(over, c, ops);
      if s.None? then None else BooleanOf(QuantifiedMeaning(every, x, body, s.value, 0, c, ops))
    case SimpleMap(over, body) =>
      var s := Meaning(over, c, ops);
      if s.None? then None else MapMeaning(ByFocus, body, s.value, 0, c, ops)
    case PathStep(over, body) =>
      var s := Meaning(over, c, ops);
      if s.None? then None else UnaryOf(ops, Deduplicate, MapMeaning(ByFocus, body, s.value, 0, c, ops))
    case Predicate(over, body) =>
      var s := Meaning(over, c, ops);
      if s.None? then None else FilterMeaning(body, s.value, 0, c, ops)
    case SequenceOf(operands) =>
      var ss := AllMeanings(operands, 0, c, ops);
      if ss.None? then None else if ss.value == [] then Some([]) else JoinSequences(ops, Comma, ss.value)
    case SetJoin(join, operands) =>
      var ss := AllMeanings(operands, 0, c, ops);
      if ss.None? then None else if ss.value == [] then Some([]) else JoinSequences(ops, join, ss.value)
  }

  function MapMeaning(b: Binder, body: Ast, items: Sequence, k: nat, c: Context, ops: Ops): Option<Sequence>
    requires k <= |items|
    decreases body, 1, |items| - k
  {
    if k == |items| then Some([])
    else
      var s := Meaning(body, Inside(c, b, items, k), ops);
      var rest := MapMeaning(b, body, items, k + 1, c, ops);
      if s.None? || rest.None? then None else Some(s.value + rest.value)
  }

  function FilterMeaning(body: Ast, items: Sequence, k: nat, c: Context, ops: Ops): Option<Sequence>
    requires k <= |items|
    decreases body, 1, |items| - k
  {
    if k == |items| then Some([])
    else
      var selects := Selects(ops, Meaning(body, Inside(c, ByFocus, items, k), ops), k + 1);
      var rest := FilterMeaning(body, items, k + 1, c, ops);
      if selects.None? || rest.None? then None
      else if selects.value then Some([items[k]] + rest.value)
      else rest
  }

  function QuantifiedMeaning(every: bool, x: string, body: Ast, items: Sequence, k: nat, c: Context, ops: Ops): Option<bool>
    requires k <= |items|
    decreases body, 1, |items| - k
  {
    if k == |items| then Some(every)
    else
      var t := Ebv(ops, Meaning(body, Inside(c, ByVariable(x), items, k), ops));
      if t.None? then None
      else if t.value != every then t
      else QuantifiedMeaning(every, x, body, items, k + 1, c, ops)
  }

  function AllMeanings(operands: seq<Ast>, i: nat, c: Context, ops: Ops): (ss: Option<seq<Sequence>>)
    requires i <= |operands|
    ensures ss.Some? ==> |ss.value| == |operands| - i
    decreases operands, |operands| - i
  {
    if i == |operands| then Some([])
    else
      var s := Meaning(operands[i], c, ops);
      var rest := AllMeanings(operands, i + 1, c, ops);
      if s.None? || rest.None? then None else Some([s.value] + rest.value)
  }
}
