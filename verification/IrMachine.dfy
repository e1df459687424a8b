/** The virtual machine: a stack of values, a stack of sequences being built, and one frame's code. */
module IrMachine {
  import opened Options
  import opened IrCode

  type Name = string

  /** Items other than integers and booleans are only told apart. */
  datatype Item = Integer(i: int) | Boolean(b: bool) | Other(id: nat)

  type Sequence = seq<Item>

  /** An absent value is an error where it is used. */
  datatype Value = Absent | Items(items: Sequence)

  /** What the machine's operators do; none where they are errors. */
  datatype Ops = Ops(
    binary: (BinaryOp, Sequence, Sequence) -> Option<Sequence>,
    unary: (UnaryOp, Sequence) -> Option<Sequence>,
    truth: Sequence -> Option<bool>,
    numeric: Sequence -> Option<bool>)

  datatype Program = Program(code: Code, constants: seq<Sequence>, closureVars: seq<Value>, ops: Ops)

  /** A run that returned, one that ended with an error, and one that has gone where the machine has no behaviour. */
  datatype Machine =
    | Running(ip: nat, stack: seq<Value>, build: seq<Sequence>)
    | Returned(value: Value)
    | Failed
    | Stuck

  function Top(stack: seq<Value>): Value
    requires stack != []
  {
    stack[|stack| - 1]
  }

  function Rest(stack: seq<Value>): seq<Value>
    requires stack != []
  {
    stack[..|stack| - 1]
  }

  function Pushed(ip: nat, stack: seq<Value>, build: seq<Sequence>, r: Option<Sequence>): Machine {
    if r.None? then Failed else Running(ip, stack + [Items(r.value)], build)
  }

  /** Two operands, the second on top. */
  function Exec2(p: Program, op: BinaryOp, ip: nat, stack: seq<Value>, build: seq<Sequence>): Machine {
    if |stack| < 2 then Stuck
    else
      var b, a := Top(stack), Top(Rest(stack));
      if b.Absent? || a.Absent? then Failed
      else Pushed(ip, Rest(Rest(stack)), build, p.ops.binary(op, a.items, b.items))
  }

  /** An instruction that pops one sequence and pushes another. */
  function Exec1(f: Sequence -> Option<Sequence>, ip: nat, stack: seq<Value>, build: seq<Sequence>): Machine {
    if stack == [] then Stuck
    else if Top(stack).Absent? then Failed
    else Pushed(ip, Rest(stack), build, f(Top(stack).items))
  }

  function Jumped(ip: nat, d: int, stack: seq<Value>, build: seq<Sequence>): Machine {
    if ip + d < 0 then Stuck else Running(ip + d, stack, build)
  }

  function ExecBranch(p: Program, on: bool, d: int, ip: nat, stack: seq<Value>, build: seq<Sequence>): Machine {
    if stack == [] then Stuck
    else if Top(stack).Absent? then Failed
    else
      var t := p.ops.truth(Top(stack).items);
      if t.None? then Failed
      else if t.value == on then Jumped(ip, d, Rest(stack), build)
      else Running(ip, Rest(stack), build)
  }

  /** The item at an index that counts from 1. */
  function ExecGet(ip: nat, stack: seq<Value>, build: seq<Sequence>): Machine {
    if |stack| < 2 then Stuck
    else
      var s, index := Top(stack), Top(Rest(stack));
      if s.Absent? || index.Absent? then Failed
      else if |index.items| != 1 || !index.items[0].Integer? then Stuck
      else
        var k := index.items[0].i;
        if 1 <= k <= |s.items| then Running(ip, Rest(Rest(stack)) + [Items([s.items[k - 1]])], build) else Failed
  }

  function ExecBuildPush(ip: nat, stack: seq<Value>, build: seq<Sequence>): Machine {
    if stack == [] then Stuck
    else if Top(stack).Absent? then Failed
    else if build == [] then Stuck
    else Running(ip, Rest(stack), build[..|build| - 1] + [build[|build| - 1] + Top(stack).items])
  }

  /** One instruction, with the next one's place. */
  function Exec(p: Program, i: Instruction, ip: nat, stack: seq<Value>, build: seq<Sequence>): Machine {
    match i
    case Operate2(op) => Exec2(p, op, ip, stack, build)
    case Operate1(op) => Exec1(s => p.ops.unary(op, s), ip, stack, build)
    case Const(k) => if k < |p.constants| then Running(ip, stack + [Items(p.constants[k])], build) else Stuck
    case Var(k) => if k < |stack| then Running(ip, stack + [stack[k]], build) else Stuck
    case Set(k) => if k + 1 < |stack| then Running(ip, Rest(stack)[k := Top(stack)], build) else Stuck
    case ClosureVar(k) => if k < |p.closureVars| then Running(ip, stack + [p.closureVars[k]], build) else Stuck
    case Jump(d) => Jumped(ip, d, stack, build)
    case JumpIfTrue(d) => ExecBranch(p, true, d, ip, stack, build)
    case JumpIfFalse(d) => ExecBranch(p, false, d, ip, stack, build)
    case Dup =>
      if stack == [] then Stuck
      else if Top(stack).Absent? then Failed
      else Running(ip, stack + [Top(stack)], build)
    case Pop =>
      if stack == [] then Stuck
      else if Top(stack).Absent? then Failed
      else Running(ip, Rest(stack), build)
    case LetDone =>
      if |stack| < 2 then Stuck
      else if Top(stack).Absent? then Failed
      else Running(ip, Rest(Rest(stack)) + [Top(stack)], build)
    case Return => if stack == [] then Stuck else Returned(Top(stack))
    case SequenceLen => Exec1(s => Some([Integer(|s|)]), ip, stack, build)
    case SequenceGet => ExecGet(ip, stack, build)
    case BuildNew => Running(ip, stack, build + [[]])
    case BuildPush => ExecBuildPush(ip, stack, build)
    case BuildComplete =>
      if build == [] then Stuck
      else Running(ip, stack + [Items(build[|build| - 1])], build[..|build| - 1])
    case IsNumeric => Exec1(s => var n := p.ops.numeric(s); if n.None? then None else Some([Boolean(n.value)]), ip, stack, build)
  }

  function Step(p: Program, m: Machine): Machine {
    match m
    case Running(ip, stack, build) =>
      var i := Decode(p.code, ip);
      if i.None? then Stuck else Exec(p, i.value, ip + Size(i.value), stack, build)
    case _ => m
  }

  function Steps(p: Program, m: Machine, n: nat): Machine
    decreases n
  {
    if n == 0 then m else Steps(p, Step(p, m), n - 1)
  }

  /** Some number of steps leads from one state to the other. */
  ghost predicate Reaches(p: Program, m: Machine, to: Machine) {
    exists n: nat :: Steps(p, m, n) == to
  }

  lemma {:induction false} StepsJoin(p: Program, m: Machine, a: nat, b: nat)
    ensures Steps(p, Steps(p, m, a), b) == Steps(p, m, a + b)
    decreases a
  {
    hide Step;
    if a > 0 {
      StepsJoin(p, Step(p, m), a - 1, b);
    }
  }

  lemma ReachesSelf(p: Program, m: Machine)
    ensures Reaches(p, m, m)
  {
    assert Steps(p, m, 0) == m;
  }

  lemma ReachesThen(p: Program, a: Machine, b: Machine, c: Machine)
    requires Reaches(p, a, b) && Reaches(p, b, c)
    ensures Reaches(p, a, c)
  {
    hide Steps;
    var n: nat :| Steps(p, a, n) == b;
    var k: nat :| Steps(p, b, k) == c;
    StepsJoin(p, a, n, k);
  }

  /** An instruction that stands at `ip` is executed. */
  lemma Executes(p: Program, i: Instruction, ip: nat, stack: seq<Value>, build: seq<Sequence>)
    requires Fits(i) && Holds(p.code, ip, Encode(i))
    ensures Reaches(p, Running(ip, stack, build), Exec(p, i, ip + Size(i), stack, build))
  {
    hide Decode, Exec, Encode, Holds;
    DecodesEncoded(p.code, ip, i);
    var m := Running(ip, stack, build);
    assert Steps(p, m, 1) == Steps(p, Step(p, m), 0);
  }

  /** A run that has ended stays where it is. */
  lemma {:induction false} EndedStays(p: Program, m: Machine, n: nat)
    requires !m.Running?
    ensures Steps(p, m, n) == m
    decreases n
  {
    if n > 0 {
      EndedStays(p, m, n - 1);
    }
  }

  /** A run ends in one way only. */
  lemma EndsOnce(p: Program, m: Machine, a: Machine, b: Machine)
    requires Reaches(p, m, a) && Reaches(p, m, b) && !a.Running? && !b.Running?
    ensures a == b
  {
    hide Steps;
    var n: nat :| Steps(p, m, n) == a;
    var k: nat :| Steps(p, m, k) == b;
    if n <= k {
      StepsJoin(p, m, n, k - n);
      EndedStays(p, a, k - n);
    } else {
      StepsJoin(p, m, k, n - k);
      EndedStays(p, b, n - k);
    }
  }
}
