/** The intermediate representation, in which operands are atoms, and what its expressions mean. */
module IrExpr {
  import opened Options
  import opened IrCode
  import opened IrMachine

  datatype Atom = Constant(items: Sequence) | Variable(name: Name)

  datatype ContextNames = ContextNames(item: Name, position: Name, last: Name)

  datatype Expr =
    | AtomExpr(atom: Atom)
    | Let(name: Name, value: Expr, body: Expr)
    | If(condition: Atom, whenTrue: Expr, whenFalse: Expr)
    | Binary(op2: BinaryOp, left: Atom, right: Atom)
    | And(left: Atom, right: Atom)
    | Or(left: Atom, right: Atom)
    | Unary(op1: UnaryOp, atom: Atom)
    | Distinct(operand: Expr)
    | Mapped(names: ContextNames, over: Atom, body: Expr)
    | Filter(names: ContextNames, over: Atom, body: Expr)
    | Quantified(every: bool, names: ContextNames, over: Atom, body: Expr)
    | Joined(join: BinaryOp, items: seq<Expr>)

  /** A run waiting on the stack has this name, which no variable has. */
  const WAITING: Name := ""

  predicate Named(a: Atom) {
    a.Variable? ==> a.name != WAITING
  }

  /** A loop's names are not the sequence's it is over. */
  predicate LoopNamed(names: ContextNames, over: Atom) {
    && Named(over) && names.item != WAITING && names.position != WAITING && names.last != WAITING
    && names.position != names.last && over != Variable(names.position) && over != Variable(names.last)
  }

  /** What the generated names satisfy, and joins of nothing are sequences. */
  ghost predicate WellFormed(e: Expr) {
    match e
    case AtomExpr(atom) => Named(atom)
    case Let(name, value, body) => name != WAITING && WellFormed(value) && WellFormed(body)
    case If(condition, whenTrue, whenFalse) => Named(condition) && WellFormed(whenTrue) && WellFormed(whenFalse)
    case Binary(_, left, right) => Named(left) && Named(right)
    case And(left, right) => Named(left) && Named(right)
    case Or(left, right) => Named(left) && Named(right)
    case Unary(_, atom) => Named(atom)
    case Distinct(operand) => WellFormed(operand)
    case Mapped(names, over, body) => LoopNamed(names, over) && WellFormed(body)
    case Filter(names, over, body) => LoopNamed(names, over) && WellFormed(body)
    case Quantified(_, names, over, body) => LoopNamed(names, over) && WellFormed(body)
    case Joined(join, items) =>
      && (join == Comma || join == Union || join == Intersect) && (items == [] ==> join == Comma)
      && forall i :: 0 <= i < |items| ==> WellFormed(items[i])
  }

  // ----- meaning -----

  /** The values of names: local ones, and those a function captured. */
  datatype Env = Env(locals: map<Name, Value>, captured: map<Name, Value>)

  function Bind(env: Env, name: Name, v: Value): Env {
    env.(locals := env.locals[name := v])
  }

  function EvalAtom(a: Atom, env: Env): Option<Value> {
    match a
    case Constant(items) => Some(Items(items))
    case Variable(name) =>
      if name in env.locals then Some(env.locals[name])
      else if name in env.captured then Some(env.captured[name])
      else None
  }

  /** A value that is used: an absent one is an error. */
  function Use(v: Option<Value>): Option<Sequence> {
    if v.Some? && v.value.Items? then Some(v.value.items) else None
  }

  function Truth(ops: Ops, v: Option<Value>): Option<bool> {
    var s := Use(v);
    if s.None? then None else ops.truth(s.value)
  }

  function Result(r: Option<Sequence>): Option<Value> {
    if r.Some? then Some(Items(r.value)) else None
  }

  function Apply2(ops: Ops, op: BinaryOp, a: Option<Value>, b: Option<Value>): Option<Value> {
    Result(Both(ops, op, Use(a), Use(b)))
  }

  function Both(ops: Ops, op: BinaryOp, a: Option<Sequence>, b: Option<Sequence>): Option<Sequence> {
    if a.None? || b.None? then None else ops.binary(op, a.value, b.value)
  }

  function Apply1(ops: Ops, op: UnaryOp, a: Option<Value>): Option<Value> {
    var s := Use(a);
    if s.None? then None else Result(ops.unary(op, s.value))
  }

  function TruthValue(b: Option<bool>): Option<Value> {
    if b.Some? then Some(Items([Boolean(b.value)])) else None
  }

  /** Both operands are values already: the second is tested first, and the first only if that does not decide. */
  function Connective(ops: Ops, decides: bool, a: Option<Value>, b: Option<Value>): Option<Value> {
    var t := Truth(ops, b);
    if a.None? || t.None? then None
    else if t.value == decides then if a.value.Absent? then None else TruthValue(Some(decides))
    else TruthValue(Truth(ops, a))
  }

  /** The environment of a loop's body at the `k`-th item. */
  function LoopEnv(env: Env, names: ContextNames, items: Sequence, k: nat): Env
    requires k < |items|
  {
    Bind(Bind(Bind(env, names.last, Items([Integer(|items|)])), names.position, Items([Integer(k + 1)])), names.item, Items([items[k]]))
  }

  /** A predicate that is a number is compared with the position. */
  function Keeps(ops: Ops, v: Option<Value>, position: int): Option<bool> {
    var s := Use(v);
    if s.None? then None
    else
      var numeric := ops.numeric(s.value);
      if numeric.None? then None
      else if numeric.value then Truth(ops, Apply2(ops, Eq, v, Some(Items([Integer(position)]))))
      else ops.truth(s.value)
  }

  /** The two joined; none if either has no value or is absent. */
  function Join(ops: Ops, op: BinaryOp, a: Option<Value>, b: Option<Value>): Option<Value> {
    Apply2(ops, op, a, b)
  }

  /** All values joined, from the left. */
  function JoinAll(ops: Ops, op: BinaryOp, vs: seq<Value>): Option<Value>
    requires vs != []
  {
    var n := |vs| - 1;
    if n == 0 then Some(vs[0]) else Join(ops, op, JoinAll(ops, op, vs[..n]), Some(vs[n]))
  }

  function Eval(e: Expr, env: Env, ops: Ops): Option<Value>
    decreases e, 0
  {
    match e
    case AtomExpr(atom) => EvalAtom(atom, env)
    case Let(name, value, body) =>
      var v := Eval(value, env, ops);
      if v.None? then None else Result(Use(Eval(body, Bind(env, name, v.value), ops)))
    case If(condition, whenTrue, whenFalse) =>
      var t := Truth(ops, EvalAtom(condition, env));
      if t.None? then None else if t.value then Eval(whenTrue, env, ops) else Eval(whenFalse, env, ops)
    case Binary(op, left, right) => Apply2(ops, op, EvalAtom(left, env), EvalAtom(right, env))
    case And(left, right) => Connective(ops, false, EvalAtom(left, env), EvalAtom(right, env))
    case Or(left, right) => Connective(ops, true, EvalAtom(left, env), EvalAtom(right, env))
    case Unary(op, atom) => Apply1(ops, op, EvalAtom(atom, env))
    case Distinct(operand) => Apply1(ops, Deduplicate, Eval(operand, env, ops))
    case Mapped(names, over, body) =>
      var s := Use(EvalAtom(over, env));
      if s.None? then None else Result(EvalMap(names, body, s.value, 0, env, ops))
    case Filter(names, over, body) =>
      var s := Use(EvalAtom(over, env));
      if s.None? then None else Result(EvalFilter(names, body, s.value, 0, env, ops))
    case Quantified(every, names, over, body) =>
      var s := Use(EvalAtom(over, env));
      if s.None? then None else TruthValue(EvalQuantified(every, names, body, s.value, 0, env, ops))
    case Joined(join, items) =>
      var vs := EvalAll(items, 0, env, ops);
      if vs.None? then None else if vs.value == [] then Some(Items([])) else JoinAll(ops, join, vs.value)
  }

  /** The values of the body for the items from the `k`-th on, in one sequence. */
  function EvalMap(names: ContextNames, body: Expr, items: Sequence, k: nat, env: Env, ops: Ops): Option<Sequence>
    requires k <= |items|
    decreases body, 1, |items| - k
  {
    if k == |items| then Some([])
    else
      var s := Use(Eval(body, LoopEnv(env, names, items, k), ops));
      var rest := EvalMap(names, body, items, k + 1, env, ops);
      if s.None? || rest.None? then None else Some(s.value + rest.value)
  }

  /** The items from the `k`-th on that the body keeps. */
  function EvalFilter(names: ContextNames, body: Expr, items: Sequence, k: nat, env: Env, ops: Ops): Option<Sequence>
    requires k <= |items|
    decreases body, 1, |items| - k
  {
    if k == |items| then Some([])
    else
      var keeps := Keeps(ops, Eval(body, LoopEnv(env, names, items, k), ops), k + 1);
      var rest := EvalFilter(names, body, items, k + 1, env, ops);
      if keeps.None? || rest.None? then None
      else if keeps.value then Some([items[k]] + rest.value)
      else rest
  }

  /** Whether the body holds for some, or every, item from the `k`-th on; items after the one that decides are not looked at. */
  function EvalQuantified(every: bool, names: ContextNames, body: Expr, items: Sequence, k: nat, env: Env, ops: Ops): Option<bool>
    requires k <= |items|
    decreases body, 1, |items| - k
  {
    if k == |items| then Some(every)
    else
      var t := Truth(ops, Eval(body, LoopEnv(env, names, items, k), ops));
      if t.None? then None
      else if t.value != every then t
      else EvalQuantified(every, names, body, items, k + 1, env, ops)
  }

  /** The values of the expressions from the `i`-th on. */
  function EvalAll(items: seq<Expr>, i: nat, env: Env, ops: Ops): (vs: Option<seq<Value>>)
    requires i <= |items|
    ensures vs.Some? ==> |vs.value| == |items| - i
    decreases items, |items| - i
  {
    if i == |items| then Some([])
    else
      var v := Eval(items[i], env, ops);
      var rest := EvalAll(items, i + 1, env, ops);
      if v.None? || rest.None? then None else Some([v.value] + rest.value)
  }

  // ----- what is asked of the operators -----

  /** Integers are added and compared, truth values are their own, and joins are associative, errors included. */
  ghost predicate Lawful(ops: Ops) {
    && (forall a, b :: ops.binary(Add, [Integer(a)], [Integer(b)]) == Some([Integer(a + b)]))
    && (forall a, b :: ops.binary(Gt, [Integer(a)], [Integer(b)]) == Some([Boolean(a > b)]))
    && (forall b :: ops.truth([Boolean(b)]) == Some(b))
    && Associative(ops, Comma) && Associative(ops, Union) && Associative(ops, Intersect)
  }

  ghost predicate Associative(ops: Ops, op: BinaryOp) {
    forall a: Sequence, b: Sequence, c: Sequence ::
      Both(ops, op, ops.binary(op, a, b), Some(c)) == Both(ops, op, Some(a), ops.binary(op, b, c))
  }

  /** Joining is associative, whether or not there are values to join. */
  lemma JoinAssociates(ops: Ops, op: BinaryOp, a: Option<Value>, b: Option<Value>, c: Option<Value>)
    requires Associative(ops, op)
    ensures Join(ops, op, Join(ops, op, a, b), c) == Join(ops, op, a, Join(ops, op, b, c))
  {
    var x, y, z := Use(a), Use(b), Use(c);
    UseResult(Both(ops, op, x, y));
    UseResult(Both(ops, op, y, z));
    if x.Some? && y.Some? && z.Some? {
      assert Both(ops, op, ops.binary(op, x.value, y.value), Some(z.value)) == Both(ops, op, Some(x.value), ops.binary(op, y.value, z.value));
    }
  }

  lemma UseResult(r: Option<Sequence>)
    ensures Use(Result(r)) == r
  {
  }

  /** All of two runs is the one joined with the other. */
  lemma {:induction false} JoinAllSplits(ops: Ops, op: BinaryOp, x: seq<Value>, y: seq<Value>)
    requires Associative(ops, op) && x != [] && y != []
    ensures JoinAll(ops, op, x + y) == Join(ops, op, JoinAll(ops, op, x), JoinAll(ops, op, y))
    decreases |y|
  {
    hide Associative, Join;
    var n := |y| - 1;
    assert (x + y)[..|x| + n] == x + y[..n];
    if n == 0 {
      assert x + y[..0] == x;
    } else {
      JoinAllSplits(ops, op, x, y[..n]);
      JoinAssociates(ops, op, JoinAll(ops, op, x), JoinAll(ops, op, y[..n]), Some(y[n]));
    }
  }
}
