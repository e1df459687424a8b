/** The compiler: it appends code, patches jumps and keeps track of the names on the stack as it goes. */
module IrCompiler {
  import opened Options
  import opened IrCode
  import opened IrMachine
  import opened IrExpr
  import opened IrJoins
  import opened IrEmission
  import IrLimits

  // ----- names -----

  /** The names of the functions around this one; the first scope is nobody's. */
  function Outer(scopes: seq<seq<Name>>): seq<seq<Name>> {
    if |scopes| < 2 then [] else scopes[1..|scopes| - 1]
  }

  class Scopes {
    var scopes: seq<seq<Name>>

    constructor ()
      ensures scopes == [[]]
    {
      scopes := [[]];
    }

    predicate Valid()
      reads this
    {
      scopes != []
    }

    /** The names of the function that is compiled, and of those around it. */
    function View(): Scope
      requires Valid()
      reads this
    {
      Scope(scopes[|scopes| - 1], Outer(scopes))
    }

    method PushScope()
      requires Valid()
      modifies this
      ensures scopes == old(scopes) + [[]]
    {
      scopes := scopes + [[]];
    }

    method PopScope()
      requires Valid()
      modifies this
      ensures scopes == old(scopes)[..|old(scopes)| - 1]
    {
      scopes := scopes[..|scopes| - 1];
    }

    method PushName(name: Name)
      requires Valid()
      modifies this
      ensures Valid() && |scopes| == |old(scopes)| && View() == Bound(old(View()), name)
      ensures scopes == old(scopes)[|old(scopes)| - 1 := old(View()).names + [name]]
    {
      var n := |scopes| - 1;
      scopes := scopes[n := scopes[n] + [name]];
    }

    method PopName()
      requires Valid() && View().names != []
      modifies this
      ensures Valid() && |scopes| == |old(scopes)|
      ensures View() == old(View()).(names := old(View()).names[..|old(View()).names| - 1])
      ensures scopes == old(scopes)[|old(scopes)| - 1 := View().names]
    {
      var n := |scopes| - 1;
      scopes := scopes[n := scopes[n][..|scopes[n]| - 1]];
    }

    method Get(name: Name) returns (index: Option<nat>)
      requires Valid()
      ensures index == LastIndex(View().names, name)
    {
      var names := scopes[|scopes| - 1];
      var i := |names|;
      assert names[..i] == names;
      while i > 0
        invariant 0 <= i <= |names| && LastIndex(names, name) == LastIndex(names[..i], name)
        decreases i
      {
        i := i - 1;
        if names[i] == name {
          assert names[..i + 1][|names[..i + 1]| - 1] == names[i];
          return Some(i);
        }
        assert names[..i + 1][..i] == names[..i];
      }
      index := None;
    }

    /** Asked for names that are not this function's. */
    method IsClosedOver(name: Name) returns (known: bool)
      requires Valid() && name !in View().names
      ensures known <==> Known(View().outer, name)
    {
      var i := 1;
      while i < |scopes|
        invariant 1 <= i && forall j :: 1 <= j < i && j < |scopes| ==> name !in scopes[j]
      {
        if name in scopes[i] {
          assert Outer(scopes)[i - 1] == scopes[i];
          return true;
        }
        i := i + 1;
      }
      known := false;
    }
  }

  lemma {:induction false} NotThere(names: seq<Name>, name: Name)
    ensures LastIndex(names, name).None? <==> name !in names
    decreases |names|
  {
    if names != [] {
      var n := |names| - 1;
      NotThere(names[..n], name);
      assert names == names[..n] + [names[n]];
    }
  }

  // ----- jumps -----

  datatype JumpCondition = Always | IfTrue | IfFalse

  function JumpOn(condition: JumpCondition, d: int): Instruction {
    match condition
    case Always => Jump(d)
    case IfTrue => JumpIfTrue(d)
    case IfFalse => JumpIfFalse(d)
  }

  function Patched(code: Code, at: nat, d: nat): Code
    requires at + 2 < |code| && d <= MAX_JUMP
  {
    code[at + 1 := d % 256][at + 2 := d / 256]
  }

  /** A patched jump leads to the end of the code after it. */
  lemma PatchLeads(before: Code, condition: JumpCondition, after: Code)
    requires |after| <= MAX_JUMP
    ensures var code := before + Encode(JumpOn(condition, 0)) + after;
            && |before| + 2 < |code|
            && Patched(code, |before|, |after|) == before + Encode(JumpOn(condition, |after|)) + after
  {
  }

  class FunctionBuilder {
    var compiled: Code
    var constants: seq<Sequence>
    var closureNames: seq<Name>

    constructor ()
      ensures compiled == [] && At() == Tables([], [])
    {
      compiled := [];
      constants := [];
      closureNames := [];
    }

    function At(): Tables
      reads this
    {
      Tables(constants, closureNames)
    }

    method Emit(i: Instruction)
      requires Fits(i)
      modifies this`compiled
      ensures compiled == old(compiled) + Encode(i)
    {
      compiled := compiled + Encode(i);
    }

    method EmitConstant(items: Sequence) returns (ok: bool)
      modifies this
      ensures match IrEmission.EmitConstant(items, old(At()))
              case Emitted(code, tables) => ok && compiled == old(compiled) + code && At() == tables
              case Refused => !ok
    {
      if |constants| > MAX_INDEX {
        return false;
      }
      var id := |constants|;
      constants := constants + [items];
      Emit(Const(id));
      ok := true;
    }

    /** The name's place among those captured, added if it was not there. */
    method AddClosureName(name: Name) returns (index: Option<nat>)
      modifies this`closureNames
      ensures match EmitClosureVar(name, old(At()))
              case Emitted(code, tables) => index.Some? && index.value <= MAX_INDEX && code == Encode(ClosureVar(index.value)) && At() == tables
              case Refused => index.None?
    {
      hide Encode, FirstIndex;
      var i := 0;
      while i < |closureNames| && closureNames[i] != name
        invariant i <= |closureNames| && forall j :: 0 <= j < i ==> closureNames[j] != name
      {
        i := i + 1;
      }
      FirstFound(closureNames, name, i);
      if i == |closureNames| {
        closureNames := closureNames + [name];
      }
      index := if i <= MAX_INDEX then Some(i) else None;
    }

    method LoopStart() returns (start: nat)
      ensures start == |compiled|
    {
      start := |compiled|;
    }

    /** Refused exactly when the way back is longer than the field holds. */
    method EmitJumpBackward(start: nat, condition: JumpCondition) returns (ok: bool)
      requires start <= |compiled| + 3
      modifies this`compiled
      ensures ok <==> |old(compiled)| + 3 - start <= MAX_JUMP
      ensures compiled == old(compiled) + if ok then Encode(JumpOn(condition, -(|old(compiled)| + 3 - start))) else []
    {
      var offset := |compiled| + 3 - start;
      if offset > MAX_JUMP {
        return false;
      }
      Emit(JumpOn(condition, -offset));
      ok := true;
    }

    method EmitJumpForward(condition: JumpCondition) returns (at: nat)
      modifies this`compiled
      ensures at == |old(compiled)| && compiled == old(compiled) + Encode(JumpOn(condition, 0))
    {
      at := |compiled|;
      Emit(JumpOn(condition, 0));
    }

    /** The jump at `at` then leads to where the code ends now; refused exactly when that is further than the field holds. */
    method PatchJump(at: nat) returns (ok: bool)
      requires at + 3 <= |compiled|
      modifies this`compiled
      ensures |compiled| == |old(compiled)| && (ok <==> |compiled| - at - 3 <= MAX_JUMP)
      ensures ok ==> compiled == Patched(old(compiled), at, |compiled| - at - 3)
      ensures !ok ==> compiled == old(compiled)
    {
      var offset := |compiled| - at - 3;
      if offset > MAX_JUMP {
        return false;
      }
      compiled := compiled[at + 1 := offset % 256];
      compiled := compiled[at + 2 := offset / 256];
      ok := true;
    }
  }

  lemma {:induction false} FirstFound(names: seq<Name>, name: Name, i: nat)
    requires i <= |names| && (i < |names| ==> names[i] == name) && forall j :: 0 <= j < i ==> names[j] != name
    ensures FirstIndex(names, name) == if i < |names| then Some(i) else None
    decreases i
  {
    if i > 0 {
      FirstFound(names[1..], name, i - 1);
    }
  }

  // ----- the compiler -----

  /** Refused if and only if a name is not known, or the expression costs more than the limits leave. */
  ghost predicate Priced(e: Expr, scope: Scope, t: Tables, ok: bool) {
    IrLimits.Kept(t) ==> (ok <==> IrLimits.Affords(t, IrLimits.CostOf(e, scope)))
  }

  lemma EmitPriced(e: Expr, scope: Scope, t: Tables, ok: bool)
    requires ok <==> IrEmission.Emit(e, scope, t).Emitted?
    ensures Priced(e, scope, t, ok)
  {
    hide IrEmission.Emit, IrLimits.Affords, IrLimits.CostOf;
    if IrLimits.Kept(t) {
      IrLimits.EmitCounts(e, scope, t);
    }
  }

  class FunctionCompiler {
    const builder: FunctionBuilder
    const scopes: Scopes

    constructor (builder: FunctionBuilder, scopes: Scopes)
      ensures this.builder == builder && this.scopes == scopes
    {
      this.builder := builder;
      this.scopes := scopes;
    }

    /** What has been compiled since. */
    twostate predicate Did(e: Emitted, ok: bool)
      requires old(scopes.Valid())
      reads builder, scopes
    {
      match e
      case Emitted(code, tables) =>
        ok && builder.compiled == old(builder.compiled) + code && builder.At() == tables && scopes.scopes == old(scopes.scopes)
      case Refused => !ok
    }

    method CompileVariable(name: Name) returns (ok: bool)
      requires scopes.Valid()
      modifies builder
      ensures Did(EmitVariable(name, old(scopes.View()), old(builder.At())), ok)
    {
      var index := scopes.Get(name);
      NotThere(scopes.View().names, name);
      if index.Some? {
        if index.value > MAX_INDEX {
          return false;
        }
        builder.Emit(Var(index.value));
        return true;
      }
      var known := scopes.IsClosedOver(name);
      if !known {
        return false;
      }
      var captured := builder.AddClosureName(name);
      if captured.None? {
        return false;
      }
      builder.Emit(ClosureVar(captured.value));
      ok := true;
    }

    method CompileVariableSet(name: Name) returns (ok: bool)
      requires scopes.Valid() && name in scopes.View().names
      modifies builder
      ensures Did(EmitSet(name, old(scopes.View()), old(builder.At())), ok)
    {
      var index := scopes.Get(name);
      NotThere(scopes.View().names, name);
      if index.value > MAX_INDEX {
        return false;
      }
      builder.Emit(Set(index.value));
      ok := true;
    }

    method CompileAtom(a: Atom) returns (ok: bool)
      requires scopes.Valid()
      modifies builder
      ensures Did(EmitAtom(a, old(scopes.View()), old(builder.At())), ok)
    {
      match a
      case Constant(items) => ok := builder.EmitConstant(items);
      case Variable(name) => ok := CompileVariable(name);
    }

    method CompileTwo(a: Atom, b: Atom) returns (ok: bool)
      requires scopes.Valid()
      modifies builder
      ensures Did(EmitTwo(a, b, old(scopes.View()), old(builder.At())), ok)
    {
      hide EmitAtom;
      ok := CompileAtom(a);
      if ok {
        ok := CompileAtom(b);
      }
    }

    /** Both operands are values: a branch on each, and the two answers. */
    method CompileConnective(decides: bool) returns (ok: bool)
      modifies builder
      ensures match EmitConnective(decides, old(builder.At()))
              case Emitted(code, tables) => ok && builder.compiled == old(builder.compiled) + code && builder.At() == tables
              case Refused => !ok
    {
      hide Encode, ConnectiveCode;
      ghost var start, n := builder.compiled, |builder.constants|;
      var condition := if decides then IfTrue else IfFalse;
      var first := builder.EmitJumpForward(condition);
      var second := builder.EmitJumpForward(condition);
      ok := builder.EmitConstant([Boolean(!decides)]);
      if !ok {
        return;
      }
      var end := builder.EmitJumpForward(Always);
      JumpSizes();
      EncodeSize(Const(n));
      EncodeSize(IrCode.Pop);
      ghost var j0, j9, j7 := Encode(JumpOn(condition, 0)), Encode(JumpOn(condition, 9)), Encode(JumpOn(condition, 7));
      ghost var c1, e0, pop := Encode(Const(n)), Encode(JumpOn(Always, 0)), Encode(IrCode.Pop);
      Regroup(start, j0, j0, c1, e0);
      ok := PatchAfter(start, condition, first, j0 + c1 + e0, 9);
      builder.Emit(IrCode.Pop);
      Regroup(start, j9, j0, c1, e0);
      Regroup(start + j9, j0, c1, e0, pop);
      ok := PatchAfter(start + j9, condition, second, c1 + e0 + pop, 7);
      ok := builder.EmitConstant([Boolean(decides)]);
      if !ok {
        return;
      }
      FinishConnective(start + j9 + j7, end, n);
      ConnectiveIs(start, decides, n);
    }

    /** The jump past the second answer is patched. */
    method FinishConnective(ghost start: Code, end: nat, ghost n: nat)
      requires n + 1 <= MAX_INDEX && end == |start| + 3
      requires builder.compiled == start + (Encode(Const(n)) + Encode(JumpOn(Always, 0)) + Encode(IrCode.Pop)) + Encode(Const(n + 1))
      modifies builder`compiled
      ensures builder.compiled == start + Encode(Const(n)) + Encode(JumpOn(Always, 4)) + (Encode(IrCode.Pop) + Encode(Const(n + 1)))
    {
      hide Encode;
      ghost var c1, e0, pop, c2 := Encode(Const(n)), Encode(JumpOn(Always, 0)), Encode(IrCode.Pop), Encode(Const(n + 1));
      EncodeSize(Const(n));
      EncodeSize(Const(n + 1));
      EncodeSize(IrCode.Pop);
      assert start + (c1 + e0 + pop) + c2 == (start + c1) + e0 + (pop + c2);
      var ok := PatchAfter(start + c1, Always, end, pop + c2, 4);
    }

    /** Patches the jump that stands after `before`, with the code after it. */
    method PatchAfter(ghost before: Code, condition: JumpCondition, at: nat, ghost after: Code, ghost d: nat) returns (ok: bool)
      requires at == |before| && d == |after| && builder.compiled == before + Encode(JumpOn(condition, 0)) + after
      modifies builder`compiled
      ensures ok <==> d <= MAX_JUMP
      ensures ok ==> builder.compiled == before + Encode(JumpOn(condition, d)) + after
    {
      hide Encode;
      JumpSizes();
      if d <= MAX_JUMP {
        PatchLeads(before, condition, after);
      }
      ok := builder.PatchJump(at);
    }

    method CompileIf(e: Expr) returns (ok: bool)
      requires e.If? && scopes.Valid()
      modifies builder, scopes
      ensures Did(IrEmission.Emit(e, old(scopes.View()), old(builder.At())), ok)
      decreases e, 0
    {
      hide Encode, EmitAtom, EmitConstant;
      ghost var start, view, t := builder.compiled, scopes.View(), builder.At();
      ghost var c := EmitAtom(e.condition, view, t);
      ghost var x := IrEmission.Emit(e.whenTrue, view, IrEmission.After(c, t));
      ghost var y := IrEmission.Emit(e.whenFalse, view, IrEmission.After(x, t));
      JumpSizes();
      ok := CompileAtom(e.condition);
      if !ok {
        return;
      }
      var jumpElse := builder.EmitJumpForward(IfFalse);
      ok := CompileExpr(e.whenTrue);
      if !ok {
        return;
      }
      var jumpEnd := builder.EmitJumpForward(Always);
      ghost var head := start + c.code;
      assert builder.compiled == head + Encode(JumpOn(IfFalse, 0)) + (x.code + Encode(Jump(0)));
      ok := PatchAfter(head, IfFalse, jumpElse, x.code + Encode(Jump(0)), |x.code| + 3);
      if !ok {
        return;
      }
      ok := CompileExpr(e.whenFalse);
      if !ok {
        return;
      }
      ghost var front := head + Encode(JumpIfFalse(|x.code| + 3)) + x.code;
      assert builder.compiled == front + Encode(JumpOn(Always, 0)) + y.code;
      ok := PatchAfter(front, Always, jumpEnd, y.code, |y.code|);
      if ok {
        FiveParts(start, c.code, Encode(JumpIfFalse(|x.code| + 3)), x.code, Encode(Jump(|y.code|)), y.code);
      }
    }

    method CompileLet(e: Expr) returns (ok: bool)
      requires e.Let? && scopes.Valid()
      modifies builder, scopes
      ensures Did(IrEmission.Emit(e, old(scopes.View()), old(builder.At())), ok)
      decreases e, 0
    {
      hide Encode;
      ghost var start, view, t := builder.compiled, scopes.View(), builder.At();
      ok := CompileExpr(e.value);
      if !ok {
        return;
      }
      ghost var a := IrEmission.Emit(e.value, view, t);
      scopes.PushName(e.name);
      ghost var b := IrEmission.Emit(e.body, Bound(view, e.name), a.tables);
      ok := CompileExpr(e.body);
      if !ok {
        return;
      }
      builder.Emit(LetDone);
      scopes.PopName();
      Restored(old(scopes.scopes), view.names, e.name);
      LetIs(start, a.code, b.code, Encode(LetDone));
    }

    method CompileExpr(e: Expr) returns (ok: bool)
      requires scopes.Valid()
      modifies builder, scopes
      ensures Did(IrEmission.Emit(e, old(scopes.View()), old(builder.At())), ok)
      ensures Priced(e, old(scopes.View()), old(builder.At()), ok)
      decreases e, 2
    {
      hide IrEmission.Emit, Priced;
      ghost var view, t := scopes.View(), builder.At();
      ok := CompileKind(e);
      EmitPriced(e, view, t, ok);
    }

    /** By the kind of the expression. */
    method CompileKind(e: Expr) returns (ok: bool)
      requires scopes.Valid()
      modifies builder, scopes
      ensures Did(IrEmission.Emit(e, old(scopes.View()), old(builder.At())), ok)
      decreases e, 1
    {
      hide Encode, EmitAtom, EmitTwo, EmitConnective;
      ghost var start := builder.compiled;
      match e
      case AtomExpr(atom) => ok := CompileAtom(atom);
      case Let(_, _, _) => ok := CompileLet(e);
      case If(_, _, _) => ok := CompileIf(e);
      case Binary(op, left, right) =>
        ok := CompileTwo(left, right);
        if ok {
          builder.Emit(Operate2(op));
        }
      case And(left, right) =>
        ok := CompileTwo(left, right);
        if ok {
          ok := CompileConnective(false);
        }
      case Or(left, right) =>
        ok := CompileTwo(left, right);
        if ok {
          ok := CompileConnective(true);
        }
      case Unary(op, atom) =>
        ok := CompileAtom(atom);
        if ok {
          builder.Emit(Operate1(op));
        }
      case Distinct(operand) =>
        ok := CompileExpr(operand);
        if ok {
          builder.Emit(Operate1(Deduplicate));
        }
      case Mapped(_, _, _) => ok := CompileMap(e);
      case Filter(_, _, _) => ok := CompileFilter(e);
      case Quantified(_, _, _, _) => ok := CompileQuantified(e);
      case Joined(join, items) =>
        if items == [] {
          ok := builder.EmitConstant([]);
        } else {
          ok := CompileJoined(join, items);
        }
    }

    // ----- loops -----

    /** The length, the first position, and the test that leaves the loop. */
    method LoopInit(over: Atom, names: ContextNames) returns (ok: bool, loopStart: nat, loopEnd: nat)
      requires scopes.Valid()
      modifies builder, scopes
      ensures scopes.Valid()
      ensures var init := EmitInit(over, old(scopes.View()), old(builder.At()));
              var inside := LoopScope(old(scopes.View()), names);
              var test := EmitTest(names, inside, IrEmission.After(init, old(builder.At())));
              if init.Refused? || test.Refused? then !ok
              else
                && ok && builder.compiled == old(builder.compiled) + init.code + test.code + Encode(JumpOn(IfTrue, 0))
                && builder.At() == test.tables
                && loopStart == |old(builder.compiled)| + |init.code| && loopEnd == loopStart + |test.code|
                && scopes.View() == inside && scopes.scopes == old(scopes.scopes)[|old(scopes.scopes)| - 1 := inside.names]
    {
      hide Encode, EmitInit, EmitTest;
      loopStart, loopEnd := 0, 0;
      ok := CompileInit(over, names);
      if !ok {
        return;
      }
      loopStart := builder.LoopStart();
      ok := CompileTest(names);
      if ok {
        loopEnd := builder.EmitJumpForward(IfTrue);
      }
    }

    /** The length and the first position, named. */
    method CompileInit(over: Atom, names: ContextNames) returns (ok: bool)
      requires scopes.Valid()
      modifies builder, scopes
      ensures scopes.Valid()
      ensures var inside := LoopScope(old(scopes.View()), names);
              match EmitInit(over, old(scopes.View()), old(builder.At()))
              case Emitted(code, tables) =>
                && ok && builder.compiled == old(builder.compiled) + code && builder.At() == tables
                && scopes.View() == inside && scopes.scopes == old(scopes.scopes)[|old(scopes.scopes)| - 1 := inside.names]
              case Refused => !ok
    {
      hide Encode, EmitAtom;
      ok := CompileAtom(over);
      if !ok {
        return;
      }
      scopes.PushName(names.last);
      builder.Emit(IrCode.SequenceLen);
      ok := builder.EmitConstant([Integer(1)]);
      if ok {
        scopes.PushName(names.position);
      }
    }

    /** Whether the position is past the length. */
    method CompileTest(names: ContextNames) returns (ok: bool)
      requires scopes.Valid()
      modifies builder
      ensures Did(EmitTest(names, old(scopes.View()), old(builder.At())), ok)
    {
      hide Encode, EmitVariable;
      ghost var start, t := builder.compiled, builder.At();
      ok := CompileVariable(names.position);
      if !ok {
        return;
      }
      ghost var a := EmitVariable(names.position, scopes.View(), t);
      ok := CompileVariable(names.last);
      if ok {
        builder.Emit(Operate2(Gt));
        ThreeParts(start, a.code, EmitVariable(names.last, scopes.View(), IrEmission.After(a, t)).code, Encode(Operate2(Gt)));
      }
    }

    method GetItem(over: Atom, names: ContextNames) returns (ok: bool)
      requires scopes.Valid()
      modifies builder
      ensures Did(EmitGet(names, over, old(scopes.View()), old(builder.At())), ok)
    {
      hide Encode, EmitAtom, EmitVariable;
      ghost var start, t := builder.compiled, builder.At();
      ok := CompileVariable(names.position);
      if !ok {
        return;
      }
      ghost var a := EmitVariable(names.position, scopes.View(), t);
      ok := CompileAtom(over);
      if ok {
        builder.Emit(IrCode.SequenceGet);
        ThreeParts(start, a.code, EmitAtom(over, scopes.View(), IrEmission.After(a, t)).code, Encode(IrCode.SequenceGet));
      }
    }

    /** The next position, and the jump back to the test. */
    method LoopIterate(names: ContextNames, loopStart: nat) returns (ok: bool)
      requires scopes.Valid() && names.position in scopes.View().names && loopStart <= |builder.compiled|
      modifies builder
      ensures var next := EmitNext(names, scopes.View(), old(builder.At()));
              if next.Refused? then !ok
              else
                var back := |old(builder.compiled)| + |next.code| + 3 - loopStart;
                && (ok <==> back <= MAX_JUMP)
                && (ok ==> builder.compiled == old(builder.compiled) + next.code + Encode(Jump(-back)) && builder.At() == next.tables)
    {
      hide Encode, EmitVariable, EmitSet;
      ok := CompileVariable(names.position);
      if !ok {
        return;
      }
      ok := builder.EmitConstant([Integer(1)]);
      if !ok {
        return;
      }
      builder.Emit(Operate2(Add));
      ok := CompileVariableSet(names.position);
      if !ok {
        return;
      }
      ok := builder.EmitJumpBackward(loopStart, Always);
    }

    method CompileLoopEnd()
      modifies builder`compiled
      ensures builder.compiled == old(builder.compiled) + LOOP_END
    {
      hide Encode;
      builder.Emit(IrCode.Pop);
      builder.Emit(IrCode.Pop);
    }

    /** Drops the names of a loop. */
    method LeaveLoop(ghost before: seq<seq<Name>>, ghost names: ContextNames)
      requires before != [] && scopes.Valid() && scopes.View().names == before[|before| - 1] + [names.last] + [names.position]
      requires scopes.scopes == before[|before| - 1 := scopes.View().names]
      modifies scopes
      ensures scopes.scopes == before
    {
      ghost var own := before[|before| - 1];
      scopes.PopName();
      assert (own + [names.last] + [names.position])[..|own| + 1] == own + [names.last];
      scopes.PopName();
      assert (own + [names.last])[..|own|] == own;
    }

    /** The body of a loop, with its item named. */
    method CompileBody(names: ContextNames, body: Expr) returns (ok: bool)
      requires scopes.Valid()
      modifies builder, scopes
      ensures Did(IrEmission.Emit(body, Bound(old(scopes.View()), names.item), old(builder.At())), ok)
      decreases body, 3
    {
      scopes.PushName(names.item);
      ok := CompileExpr(body);
      if ok {
        scopes.PopName();
        Restored(old(scopes.scopes), old(scopes.View()).names, names.item);
      }
    }

    /** A loop has been compiled up to the value of its body, and its names are on the stack. */
    twostate predicate InLoop(q: LoopParted, names: ContextNames, ok: bool, loopStart: nat, loopEnd: nat)
      requires old(scopes.Valid())
      reads builder, scopes
    {
      if q.init.Refused? || q.test.Refused? || q.get.Refused? || q.value.Refused? then !ok
      else
        && ok && scopes.Valid() && builder.At() == q.value.tables
        && builder.compiled == old(builder.compiled) + q.init.code + q.test.code + Encode(JumpOn(IfTrue, 0)) + (q.get.code + q.value.code)
        && loopStart == |old(builder.compiled)| + |q.init.code| && loopEnd == loopStart + |q.test.code|
        && scopes.View() == LoopScope(old(scopes.View()), names)
        && scopes.scopes == old(scopes.scopes)[|old(scopes.scopes)| - 1 := scopes.View().names]
    }

    /** A loop up to the value of its body, inside its names. */
    method LoopFront(over: Atom, names: ContextNames, body: Expr) returns (ok: bool, loopStart: nat, loopEnd: nat)
      requires scopes.Valid()
      modifies builder, scopes
      ensures InLoop(PartsOf(names, over, body, old(scopes.View()), old(builder.At())), names, ok, loopStart, loopEnd)
      decreases body, 4
    {
      hide Encode, EmitInit, EmitTest, EmitGet, EmitKeep;
      ghost var q := PartsOf(names, over, body, scopes.View(), builder.At());
      ok, loopStart, loopEnd := LoopInit(over, names);
      if !ok {
        return;
      }
      ghost var head := builder.compiled;
      ok := GetItem(over, names);
      if !ok {
        return;
      }
      ok := CompileBody(names, body);
      if ok {
        TwoParts(head, q.get.code, q.value.code);
      }
    }

    method CompileMap(e: Expr) returns (ok: bool)
      requires e.Mapped? && scopes.Valid()
      modifies builder, scopes
      ensures Did(IrEmission.Emit(e, old(scopes.View()), old(builder.At())), ok)
      decreases e, 0
    {
      hide Encode, EmitInit, EmitTest, EmitGet, EmitNext, LoopCode, LOOP_END, MAP_PUSH;
      ghost var start, view, t := builder.compiled, scopes.View(), builder.At();
      ghost var q := PartsOf(e.names, e.over, e.body, view, t);
      ghost var next := EmitNext(e.names, LoopScope(view, e.names), IrEmission.After(q.value, t));
      JumpSizes();
      builder.Emit(BuildNew);
      var loopStart, loopEnd;
      ok, loopStart, loopEnd := LoopFront(e.over, e.names, e.body);
      if !ok {
        return;
      }
      ghost var head := start + Encode(BuildNew) + q.init.code;
      ghost var inner := q.get.code + q.value.code + MAP_PUSH;
      builder.Emit(BuildPush);
      builder.Emit(IrCode.Pop);
      InnerIs(head + q.test.code + Encode(JumpOn(IfTrue, 0)), q.get.code + q.value.code, Encode(BuildPush), Encode(IrCode.Pop));
      MapPushIs();
      assert builder.compiled == head + q.test.code + Encode(JumpOn(IfTrue, 0)) + inner;
      ok := LoopIterate(e.names, loopStart);
      if !ok {
        return;
      }
      ok := PatchLoop(head, q.test.code, inner, next.code, loopEnd);
      CompileLoopEnd();
      builder.Emit(BuildComplete);
      BuiltIs(start, q.init.code, LoopCode(q.test.code, inner, next.code));
      LeaveLoop(old(scopes.scopes), e.names);
    }

    /** The jump out of a loop is patched to its end. */
    method PatchLoop(ghost head: Code, ghost test: Code, ghost inner: Code, ghost next: Code, loopEnd: nat) returns (ok: bool)
      requires LoopFits(test, inner, next) && loopEnd == |head| + |test|
      requires builder.compiled == head + test + Encode(JumpOn(IfTrue, 0)) + inner + next + Encode(Jump(-(|test| + |inner| + |next| + 6)))
      modifies builder`compiled
      ensures ok && builder.compiled == head + LoopCode(test, inner, next)
    {
      hide Encode;
      JumpSizes();
      ghost var back := Encode(Jump(-(|test| + |inner| + |next| + 6)));
      EncodeSize(Jump(-(|test| + |inner| + |next| + 6)));
      ghost var before, d := head + test, |inner| + |next| + 3;
      Regroup(before, Encode(JumpOn(IfTrue, 0)), inner, next, back);
      ok := PatchAfter(before, IfTrue, loopEnd, inner + next + back, d);
      LoopIs(head, test, Encode(JumpIfTrue(d)), inner, next, back);
    }

    /** Whether the item is kept, and its push if so. */
    method CompileKeep(names: ContextNames) returns (ok: bool)
      requires scopes.Valid() && names.position in scopes.View().names
      modifies builder
      ensures Did(EmitKeep(names, old(scopes.View()), old(builder.At())), ok)
    {
      hide Encode, KEEP;
      ghost var start, position := builder.compiled, EmitVariable(names.position, scopes.View(), builder.At());
      LocalSize(names.position, scopes.View(), builder.At());
      JumpSizes();
      EncodeSize(Operate2(Eq));
      EncodeSize(IrCode.Pop);
      EncodeSize(BuildPush);
      builder.Emit(Dup);
      builder.Emit(IrCode.IsNumeric);
      ghost var s1 := builder.compiled;
      var isNotNumeric := builder.EmitJumpForward(IfFalse);
      ok := CompileVariable(names.position);
      if !ok {
        return;
      }
      builder.Emit(Operate2(Eq));
      ghost var compare := position.code + Encode(Operate2(Eq));
      assert builder.compiled == s1 + Encode(JumpOn(IfFalse, 0)) + compare;
      ok := PatchAfter(s1, IfFalse, isNotNumeric, compare, 4);
      CompilePush();
      KeepIs(start, position.code);
    }

    /** The item is pushed if the value on top of it is true, and dropped if not. */
    method CompilePush()
      modifies builder
      ensures builder.compiled == old(builder.compiled) + KEEP && builder.At() == old(builder.At())
    {
      hide Encode;
      ghost var start := builder.compiled;
      ghost var pop, push := Encode(IrCode.Pop), Encode(BuildPush);
      JumpSizes();
      EncodeSize(IrCode.Pop);
      EncodeSize(BuildPush);
      var isIncluded := builder.EmitJumpForward(IfTrue);
      builder.Emit(IrCode.Pop);
      var iterate := builder.EmitJumpForward(Always);
      assert start + Encode(JumpOn(IfTrue, 0)) + pop + Encode(JumpOn(Always, 0)) == start + Encode(JumpOn(IfTrue, 0)) + (pop + Encode(JumpOn(Always, 0)));
      var ok := PatchAfter(start, IfTrue, isIncluded, pop + Encode(JumpOn(Always, 0)), 4);
      builder.Emit(BuildPush);
      ghost var s := start + Encode(JumpIfTrue(4)) + pop;
      assert start + Encode(JumpIfTrue(4)) + (pop + Encode(JumpOn(Always, 0))) + push == s + Encode(JumpOn(Always, 0)) + push;
      ok := PatchAfter(s, Always, iterate, push, 1);
      assert s + Encode(Jump(1)) + push == start + KEEP;
    }

    method CompileFilter(e: Expr) returns (ok: bool)
      requires e.Filter? && scopes.Valid()
      modifies builder, scopes
      ensures Did(IrEmission.Emit(e, old(scopes.View()), old(builder.At())), ok)
      decreases e, 0
    {
      hide Encode, EmitInit, EmitTest, EmitGet, EmitNext, EmitKeep, LoopCode, LOOP_END;
      ghost var start, view, t := builder.compiled, scopes.View(), builder.At();
      ghost var q := PartsOf(e.names, e.over, e.body, view, t);
      ghost var next := EmitNext(e.names, LoopScope(view, e.names), IrEmission.After(q.keep, t));
      JumpSizes();
      builder.Emit(BuildNew);
      var loopStart, loopEnd;
      ok, loopStart, loopEnd := LoopFront(e.over, e.names, e.body);
      if !ok {
        return;
      }
      ghost var head := start + Encode(BuildNew) + q.init.code;
      ok := CompileKeep(e.names);
      if !ok {
        return;
      }
      ghost var inner := q.get.code + q.value.code + q.keep.code;
      TwoParts(head + q.test.code + Encode(JumpOn(IfTrue, 0)), q.get.code + q.value.code, q.keep.code);
      assert builder.compiled == head + q.test.code + Encode(JumpOn(IfTrue, 0)) + inner;
      ok := LoopIterate(e.names, loopStart);
      if !ok {
        return;
      }
      ok := PatchLoop(head, q.test.code, inner, next.code, loopEnd);
      CompileLoopEnd();
      builder.Emit(BuildComplete);
      BuiltIs(start, q.init.code, LoopCode(q.test.code, inner, next.code));
      LeaveLoop(old(scopes.scopes), e.names);
    }

    method CompileQuantified(e: Expr) returns (ok: bool)
      requires e.Quantified? && scopes.Valid()
      modifies builder, scopes
      ensures Did(IrEmission.Emit(e, old(scopes.View()), old(builder.At())), ok)
      decreases e, 0
    {
      hide Encode, EmitInit, EmitTest, EmitGet, EmitNext, LoopCode, QuantifiedEnd, IrEmission.Emit, QuantifiedBody, PartsOf, LoopFits;
      ghost var start, view, t := builder.compiled, scopes.View(), builder.At();
      ghost var q := PartsOf(e.names, e.over, e.body, view, t);
      ghost var next := EmitNext(e.names, LoopScope(view, e.names), IrEmission.After(q.value, t));
      QuantifiedEmits(e, view, t);
      JumpSizes();
      var loopStart, loopEnd;
      ok, loopStart, loopEnd := LoopFront(e.over, e.names, e.body);
      if !ok {
        return;
      }
      ghost var head := start + q.init.code;
      EncodeSize(IrCode.Pop);
      ghost var value := q.get.code + q.value.code;
      var condition := if e.every then IfFalse else IfTrue;
      var jumpOut := builder.EmitJumpForward(condition);
      builder.Emit(IrCode.Pop);
      ok := LoopIterate(e.names, loopStart);
      if !ok {
        return;
      }
      ok := FinishQuantified(e.every, head, q.test.code, value, next.code, condition, jumpOut, loopEnd);
      if ok {
        ghost var n := |next.tables.constants|;
        QuantifiedIs(start, q.init.code, LoopCode(q.test.code, QuantifiedBody(e.every, value, next.code), next.code), QuantifiedEnd(n, n + 1));
        LeaveLoop(old(scopes.scopes), e.names);
      }
    }

    /** Patches the two jumps out of a quantified loop, and ends it with its answers. */
    method FinishQuantified(every: bool, ghost head: Code, ghost test: Code, ghost value: Code, ghost next: Code,
                            condition: JumpCondition, jumpOut: nat, loopEnd: nat) returns (ok: bool)
      requires condition == if every then IfFalse else IfTrue
      requires loopEnd == |head| + |test| && jumpOut == loopEnd + 3 + |value|
      requires |test| + |value| + |next| + 10 <= MAX_JUMP
      requires builder.compiled == head + test + Encode(JumpOn(IfTrue, 0)) + value + Encode(JumpOn(condition, 0)) + Encode(IrCode.Pop)
                                   + next + Encode(Jump(-(|test| + |value| + |next| + 10)))
      modifies builder
      ensures var t, n := old(builder.At()), |old(builder.constants)|;
              if n + 1 > MAX_INDEX || |next| + 12 > MAX_JUMP then !ok
              else
                var inner := QuantifiedBody(every, value, next);
                && ok && LoopFits(test, inner, next)
                && builder.compiled == head + LoopCode(test, inner, next) + QuantifiedEnd(n, n + 1)
                && builder.At() == t.(constants := t.constants + [[Boolean(every)]] + [[Boolean(!every)]])
    {
      hide Encode, LoopCode, LOOP_END, EmitConstant, QuantifiedEnd, QuantifiedBody;
      ghost var n, pop := |builder.constants|, Encode(IrCode.Pop);
      ghost var back, out := Encode(Jump(-(|test| + |value| + |next| + 10))), |next| + 12;
      JumpSizes();
      EncodeSize(IrCode.Pop);
      EncodeSize(Jump(-(|test| + |value| + |next| + 10)));
      ghost var inner := value + (Encode(JumpOn(condition, 0)) + pop);
      assert JumpOn(condition, 0) == Branch(!every, 0);
      LoopBodyIs(head + test + Encode(JumpOn(IfTrue, 0)), value, Encode(JumpOn(condition, 0)), pop, next, back);
      ok := PatchLoop(head, test, inner, next, loopEnd);
      ghost var d := |inner| + |next| + 3;
      var end;
      ok, end := AnswerReached(every, n);
      if !ok {
        return;
      }
      ghost var c1 := Encode(Const(n));
      ghost var h := head + test + Encode(JumpIfTrue(d)) + value;
      ghost var before := pop + next + back + LOOP_END + c1;
      QuantifiedRegroups(head, test, value, Encode(JumpOn(condition, 0)), next, c1, Encode(JumpOn(Always, 0)));
      EncodeSize(JumpIfTrue(d));
      EncodeSize(Const(n));
      LoopEndSize();
      ok := PatchAfter(h, condition, jumpOut, before + Encode(JumpOn(Always, 0)), out);
      if !ok {
        return;
      }
      TwoParts(h + Encode(JumpOn(condition, out)), before, Encode(JumpOn(Always, 0)));
      ok := AnswerOut(every, h + Encode(JumpOn(condition, out)) + before, end, n + 1);
      if ok {
        QuantifiedEnds(every, head, test, value, next, n);
        assert JumpOn(condition, out) == Branch(!every, out);
      }
    }

    /** The answer if no item decided, and a jump past the other. */
    method AnswerReached(every: bool, ghost n: nat) returns (ok: bool, end: nat)
      requires n == |builder.constants|
      modifies builder
      ensures ok <==> n <= MAX_INDEX
      ensures ok ==> builder.compiled == old(builder.compiled) + LOOP_END + Encode(Const(n)) + Encode(JumpOn(Always, 0))
      ensures ok ==> end == |old(builder.compiled)| + 5
      ensures ok ==> builder.At() == old(builder.At()).(constants := old(builder.constants) + [[Boolean(every)]])
    {
      hide Encode, LOOP_END;
      end := 0;
      CompileLoopEnd();
      ok := AnswerConstant(every, n);
      if ok {
        end := builder.EmitJumpForward(Always);
        LoopEndSize();
        EncodeSize(Const(n));
      }
    }

    /** The way out of the loop and the other answer, which the jump at `end` passes. */
    method AnswerOut(every: bool, ghost before: Code, end: nat, ghost n: nat) returns (ok: bool)
      requires n == |builder.constants| && end == |before| && builder.compiled == before + Encode(JumpOn(Always, 0))
      modifies builder
      ensures ok <==> n <= MAX_INDEX
      ensures ok ==> builder.compiled == before + Encode(Jump(6)) + (Encode(IrCode.Pop) + LOOP_END + Encode(Const(n)))
      ensures ok ==> builder.At() == old(builder.At()).(constants := old(builder.constants) + [[Boolean(!every)]])
    {
      hide Encode, LOOP_END;
      builder.Emit(IrCode.Pop);
      CompileLoopEnd();
      ok := AnswerConstant(!every, n);
      if !ok {
        return;
      }
      EncodeSize(IrCode.Pop);
      EncodeSize(Const(n));
      LoopEndSize();
      Regroup(before, Encode(JumpOn(Always, 0)), Encode(IrCode.Pop), LOOP_END, Encode(Const(n)));
      ok := PatchAfter(before, Always, end, Encode(IrCode.Pop) + LOOP_END + Encode(Const(n)), 6);
    }

    method AnswerConstant(b: bool, ghost n: nat) returns (ok: bool)
      requires n == |builder.constants|
      modifies builder
      ensures ok <==> n <= MAX_INDEX
      ensures ok ==> builder.compiled == old(builder.compiled) + Encode(Const(n))
      ensures ok ==> builder.At() == old(builder.At()).(constants := old(builder.constants) + [[Boolean(b)]])
    {
      ok := builder.EmitConstant([Boolean(b)]);
    }

    // ----- joins -----

    /** Each item, with the runs that wait holding slots of their own, and the joins its number asks for; then the joins of the
        runs left. */
    method CompileJoined(join: BinaryOp, items: seq<Expr>) returns (ok: bool)
      requires items != [] && scopes.Valid()
      modifies builder, scopes
      ensures Did(EmitItems(join, items, 0, old(scopes.View()), old(builder.At())), ok)
      decreases items, 0
    {
      hide Encode, Repeat, Waiting, TrailingZeros;
      ghost var start, view, before, all := builder.compiled, scopes.View(), scopes.scopes, EmitItems(join, items, 0, scopes.View(), builder.At());
      var named := 0;
      WaitingNone(view, before);
      assert start + [] == start;
      for i := 0 to |items|
        invariant scopes.Valid() && named == CountOnes(i) && scopes.View() == Waiting(view, named)
        invariant scopes.scopes == before[|before| - 1 := Waiting(view, named).names]
        invariant |start| <= |builder.compiled| && builder.compiled[..|start|] == start
        invariant all == Prepended(builder.compiled[|start|..], EmitItems(join, items, i, view, builder.At()))
      {
        ghost var at, t := builder.compiled, builder.At();
        ok := CompileExpr(items[i]);
        if !ok {
          return;
        }
        EmitJoins(join, TrailingZeros(i + 1));
        Appended(start, at, IrEmission.Emit(items[i], Waiting(view, named), t).code, Repeat(Encode(Operate2(join)), TrailingZeros(i + 1)));
        ItemDone(start, at, builder.compiled, join, items, i, view, t);
        var runs := CountOnes(i + 1);
        NameRuns(named, runs, view, before);
        named := runs;
      }
      ghost var at := builder.compiled;
      EmitJoins(join, LastJoinCount(|items|));
      Appended(start, at, [], Repeat(Encode(Operate2(join)), LastJoinCount(|items|)));
      assert at + [] == at;
      UnnameRuns(named, view, before);
      AllDone(start, at, builder.compiled, join, items, view, builder.At());
      ok := true;
    }

    method EmitJoins(join: BinaryOp, k: nat)
      modifies builder`compiled
      ensures builder.compiled == old(builder.compiled) + Repeat(Encode(Operate2(join)), k)
    {
      hide Encode;
      ghost var start := builder.compiled;
      assert start + [] == start;
      for i := 0 to k
        invariant builder.compiled == start + Repeat(Encode(Operate2(join)), i)
      {
        builder.Emit(Operate2(join));
        RepeatMore(Encode(Operate2(join)), i);
        assert start + Repeat(Encode(Operate2(join)), i) + Encode(Operate2(join)) == start + (Repeat(Encode(Operate2(join)), i) + Encode(Operate2(join)));
      }
    }

    /** As many slots are named as runs wait. */
    method NameRuns(named: nat, runs: nat, ghost view: Scope, ghost before: seq<seq<Name>>)
      requires scopes.Valid() && before != [] && |scopes.scopes| == |before|
      requires scopes.View() == Waiting(view, named) && scopes.scopes == before[|before| - 1 := Waiting(view, named).names]
      modifies scopes
      ensures scopes.Valid() && scopes.View() == Waiting(view, runs) && scopes.scopes == before[|before| - 1 := Waiting(view, runs).names]
    {
      var k := named;
      while k < runs
        invariant k <= named || k <= runs
        invariant scopes.Valid() && scopes.View() == Waiting(view, k) && scopes.scopes == before[|before| - 1 := Waiting(view, k).names]
        invariant named <= k
      {
        scopes.PushName(WAITING);
        k := k + 1;
      }
      while k > runs
        invariant runs <= k
        invariant scopes.Valid() && scopes.View() == Waiting(view, k) && scopes.scopes == before[|before| - 1 := Waiting(view, k).names]
      {
        WaitingLast(view, k);
        scopes.PopName();
        k := k - 1;
      }
    }

    method UnnameRuns(named: nat, ghost view: Scope, ghost before: seq<seq<Name>>)
      requires scopes.Valid() && before != [] && |scopes.scopes| == |before| && view.names == before[|before| - 1]
      requires scopes.View() == Waiting(view, named) && scopes.scopes == before[|before| - 1 := Waiting(view, named).names]
      modifies scopes
      ensures scopes.scopes == before
    {
      NameRuns(named, 0, view, before);
      WaitingNone(view, before);
    }
  }

  /** A function inside those whose scopes these are: its parameters are its first locals, and its body's value is returned. */
  method CompileFunction(scopes: Scopes, params: seq<Name>, body: Expr) returns (ok: bool, builder: FunctionBuilder)
    requires scopes.Valid()
    modifies scopes
    ensures fresh(builder)
    ensures match EmitFunction(params, body, old(scopes.scopes)[1..])
            case Emitted(code, tables) =>
              ok && builder.compiled == code && builder.At() == tables && scopes.scopes == old(scopes.scopes)
            case Refused => !ok
    ensures ok <==> IrLimits.Affords(Tables([], []), IrLimits.CostOf(body, Scope(params, old(scopes.scopes)[1..])))
  {
    hide Encode, Emit, IrLimits.Affords, IrLimits.CostOf;
    ghost var before, all := scopes.scopes, Emit(body, Scope(params, scopes.scopes[1..]), Tables([], []));
    builder := new FunctionBuilder();
    NameParams(scopes, params);
    OuterIs(before, params);
    var compiler := new FunctionCompiler(builder, scopes);
    ok := compiler.CompileExpr(body);
    if !ok {
      return;
    }
    DropParams(scopes, params, before);
    builder.Emit(Return);
  }

  lemma OuterIs(before: seq<seq<Name>>, params: seq<Name>)
    requires before != []
    ensures var scopes := before + [params]; Scope(scopes[|scopes| - 1], Outer(scopes)) == Scope(params, before[1..])
  {
    assert Outer(before + [params]) == before[1..];
  }

  method NameParams(scopes: Scopes, params: seq<Name>)
    requires scopes.Valid()
    modifies scopes
    ensures scopes.scopes == old(scopes.scopes) + [params]
  {
    ghost var before := scopes.scopes;
    scopes.PushScope();
    for i := 0 to |params|
      invariant scopes.Valid() && scopes.scopes == before + [params[..i]]
    {
      scopes.PushName(params[i]);
      assert params[..i] + [params[i]] == params[..i + 1];
    }
    assert params[..|params|] == params;
  }

  method DropParams(scopes: Scopes, params: seq<Name>, ghost before: seq<seq<Name>>)
    requires scopes.scopes == before + [params]
    modifies scopes
    ensures scopes.scopes == before
  {
    assert params[..|params|] == params;
    for i := 0 to |params|
      invariant scopes.Valid() && scopes.scopes == before + [params[..|params| - i]]
    {
      assert params[..|params| - i][..|params| - i - 1] == params[..|params| - i - 1];
      scopes.PopName();
    }
    scopes.PopScope();
  }

  lemma JumpSizes()
    ensures forall c, d :: Fits(JumpOn(c, d)) ==> |Encode(JumpOn(c, d))| == 3
  {
    forall c, d | Fits(JumpOn(c, d)) ensures |Encode(JumpOn(c, d))| == 3 {
      EncodeSize(JumpOn(c, d));
    }
  }

  lemma ConnectiveIs(start: Code, decides: bool, n: nat)
    requires n + 1 <= MAX_INDEX
    ensures var condition := if decides then IfTrue else IfFalse;
            start + Encode(JumpOn(condition, 9)) + Encode(JumpOn(condition, 7)) + Encode(Const(n)) + Encode(JumpOn(Always, 4))
              + (Encode(IrCode.Pop) + Encode(Const(n + 1)))
            == start + ConnectiveCode(decides, n, n + 1)
  {
    hide Encode;
    var condition := if decides then IfTrue else IfFalse;
    assert JumpOn(condition, 9) == Branch(decides, 9) && JumpOn(condition, 7) == Branch(decides, 7);
  }

  lemma Regroup(a: Code, b: Code, c: Code, d: Code, e: Code)
    ensures a + b + c + d + e == a + b + (c + d + e)
  {
  }

  lemma FiveParts(start: Code, a: Code, b: Code, c: Code, d: Code, e: Code)
    ensures start + a + b + c + d + e == start + (a + (b + (c + (d + e))))
  {
  }

  /** A name pushed and popped leaves the scopes as they were. */
  lemma Restored(scopes: seq<seq<Name>>, names: seq<Name>, name: Name)
    requires scopes != [] && scopes[|scopes| - 1] == names
    ensures (names + [name])[..|names|] == names && scopes[|scopes| - 1 := names + [name]][|scopes| - 1 := names] == scopes
  {
  }

  // ----- code in parts -----

  /** What a quantified loop does for an item. */
  function QuantifiedBody(every: bool, value: Code, next: Code): Code
    requires |next| + 12 <= MAX_JUMP
  {
    value + (Encode(Branch(!every, |next| + 12)) + Encode(IrCode.Pop))
  }

  /** A quantified expression's code, from its parts. */
  lemma QuantifiedEmits(e: Expr, view: Scope, t: Tables)
    requires e.Quantified?
    ensures var q := PartsOf(e.names, e.over, e.body, view, t);
            var next := EmitNext(e.names, LoopScope(view, e.names), After(q.value, t));
            if q.init.Refused? || q.test.Refused? || q.get.Refused? || q.value.Refused? || next.Refused? then Emit(e, view, t).Refused?
            else
              var value, n := q.get.code + q.value.code, |next.tables.constants|;
              if |next.code| + 12 > MAX_JUMP || n + 1 > MAX_INDEX || |q.test.code| + |value| + |next.code| + 10 > MAX_JUMP then
                Emit(e, view, t).Refused?
              else
                var inner := QuantifiedBody(e.every, value, next.code);
                && LoopFits(q.test.code, inner, next.code)
                && Emit(e, view, t)
                   == Emitted(q.init.code + (LoopCode(q.test.code, inner, next.code) + QuantifiedEnd(n, n + 1)),
                              next.tables.(constants := next.tables.constants + [[Boolean(e.every)]] + [[Boolean(!e.every)]]))
  {
    hide EmitInit, EmitTest, EmitGet, EmitNext, LoopCode, QuantifiedEnd, Encode;
    var q := PartsOf(e.names, e.over, e.body, view, t);
    var next := EmitNext(e.names, LoopScope(view, e.names), After(q.value, t));
    if q.get.Emitted? && q.value.Emitted? && next.Emitted? && |next.code| + 12 <= MAX_JUMP {
      QuantifiedBodySize(e.every, q.get.code + q.value.code, next.code);
    }
  }

  lemma QuantifiedBodySize(every: bool, value: Code, next: Code)
    requires |next| + 12 <= MAX_JUMP
    ensures |QuantifiedBody(every, value, next)| == |value| + 4
  {
    EncodeSize(Branch(!every, |next| + 12));
    EncodeSize(IrCode.Pop);
  }

  lemma ThreeParts(start: Code, a: Code, b: Code, c: Code)
    ensures start + a + b + c == start + ((a + b) + c)
  {
  }

  lemma LetIs(start: Code, a: Code, b: Code, c: Code)
    ensures start + a + b + c == start + (a + (b + c))
  {
  }

  lemma TwoParts(h: Code, a: Code, b: Code)
    ensures h + a + b == h + (a + b)
  {
  }

  lemma QuantifiedIs(start: Code, init: Code, loop: Code, ending: Code)
    ensures start + init + loop + ending == start + (init + (loop + ending))
  {
  }

  lemma LoopBodyIs(h: Code, value: Code, branch: Code, pop: Code, next: Code, back: Code)
    ensures h + value + branch + pop + next + back == h + (value + (branch + pop)) + next + back
  {
  }

  /** A quantified loop's code and what follows, as what stands before and after the jump out of its body. */
  lemma QuantifiedRegroups(head: Code, test: Code, value: Code, branch: Code, next: Code, c: Code, jump: Code)
    requires |branch| == 3 && |test| + |value| + |next| + 10 <= MAX_JUMP
    ensures var pop := Encode(IrCode.Pop);
            var inner := value + (branch + pop);
            var back := Encode(Jump(-(|test| + |value| + |next| + 10)));
            && LoopFits(test, inner, next) && |pop| == 1
            && head + LoopCode(test, inner, next) + LOOP_END + c + jump
               == head + test + Encode(JumpIfTrue(|inner| + |next| + 3)) + value + branch + ((pop + next + back + LOOP_END + c) + jump)
  {
    hide LoopCode, LOOP_END, Encode;
    var pop := Encode(IrCode.Pop);
    EncodeSize(IrCode.Pop);
    var inner, back := value + (branch + pop), Encode(Jump(-(|test| + |value| + |next| + 10)));
    LoopCodeIs(test, inner, next);
    LoopIs(head, test, Encode(JumpIfTrue(|inner| + |next| + 3)), inner, next, back);
    OutIs(head + test + Encode(JumpIfTrue(|inner| + |next| + 3)), value, branch, pop, next, back, LOOP_END, c, jump);
  }

  /** All of a quantified loop's code, once its jumps are patched. */
  lemma QuantifiedEnds(every: bool, head: Code, test: Code, value: Code, next: Code, n: nat)
    requires |test| + |value| + |next| + 10 <= MAX_JUMP && |next| + 12 <= MAX_JUMP && n + 1 <= MAX_INDEX
    ensures var inner, out := QuantifiedBody(every, value, next), |next| + 12;
            var pop, back := Encode(IrCode.Pop), Encode(Jump(-(|test| + |value| + |next| + 10)));
            var before := pop + next + back + LOOP_END + Encode(Const(n));
            && LoopFits(test, inner, next) && |inner| == |value| + 4
            && head + test + Encode(JumpIfTrue(|inner| + |next| + 3)) + value + Encode(Branch(!every, out)) + before + Encode(Jump(6))
                 + (pop + LOOP_END + Encode(Const(n + 1)))
               == head + LoopCode(test, inner, next) + QuantifiedEnd(n, n + 1)
  {
    hide LoopCode, LOOP_END, Encode, QuantifiedEnd;
    var inner, branch := QuantifiedBody(every, value, next), Encode(Branch(!every, |next| + 12));
    var pop, back, c := Encode(IrCode.Pop), Encode(Jump(-(|test| + |value| + |next| + 10))), Encode(Const(n));
    QuantifiedBodySize(every, value, next);
    EncodeSize(Branch(!every, |next| + 12));
    QuantifiedRegroups(head, test, value, branch, next, c, Encode(Jump(6)));
    TwoParts(head + test + Encode(JumpIfTrue(|inner| + |next| + 3)) + value + branch, pop + next + back + LOOP_END + c, Encode(Jump(6)));
    EndingIs(head + LoopCode(test, inner, next), n);
  }

  lemma OutIs(h: Code, value: Code, branch: Code, pop: Code, next: Code, back: Code, end: Code, c: Code, jump: Code)
    ensures h + ((value + (branch + pop)) + next + back) + end + c + jump
         == h + value + branch + ((pop + next + back + end + c) + jump)
  {
    assert h + ((value + (branch + pop)) + next + back) == h + value + branch + (pop + next + back);
  }

  lemma LoopCodeIs(test: Code, inner: Code, next: Code)
    requires LoopFits(test, inner, next)
    ensures LoopCode(test, inner, next)
         == test + (Encode(JumpIfTrue(|inner| + |next| + 3)) + (inner + (next + Encode(Jump(-(|test| + |inner| + |next| + 6))))))
  {
  }

  lemma LoopEndSize()
    ensures |LOOP_END| == 2
  {
    EncodeSize(IrCode.Pop);
  }

  lemma EndingIs(h: Code, n: nat)
    requires n + 1 <= MAX_INDEX
    ensures h + LOOP_END + Encode(Const(n)) + Encode(Jump(6)) + (Encode(IrCode.Pop) + LOOP_END + Encode(Const(n + 1)))
         == h + QuantifiedEnd(n, n + 1)
  {
    hide LOOP_END, Encode;
    var c1, jump, pop, c2 := Encode(Const(n)), Encode(Jump(6)), Encode(IrCode.Pop), Encode(Const(n + 1));
    FiveParts(h, LOOP_END, c1, jump, pop + LOOP_END + c2, []);
    assert pop + LOOP_END + c2 + [] == pop + (LOOP_END + c2);
    assert h + LOOP_END + c1 + jump + (pop + LOOP_END + c2) + [] == h + LOOP_END + c1 + jump + (pop + LOOP_END + c2);
  }

  function Prepended(c: Code, e: Emitted): Emitted {
    if e.Refused? then Refused else Emitted(c + e.code, e.tables)
  }

  lemma WaitingNone(view: Scope, scopes: seq<seq<Name>>)
    requires scopes != [] && scopes[|scopes| - 1] == view.names
    ensures Waiting(view, 0) == view && scopes[|scopes| - 1 := view.names] == scopes
  {
  }

  lemma WaitingLast(view: Scope, k: nat)
    requires k > 0
    ensures var names := Waiting(view, k).names; names != [] && Waiting(view, k).(names := names[..|names| - 1]) == Waiting(view, k - 1)
  {
  }

  lemma {:induction false} RepeatMore(c: Code, n: nat)
    ensures Repeat(c, n + 1) == Repeat(c, n) + c
    decreases n
  {
    if n > 0 {
      RepeatMore(c, n - 1);
    } else {
      assert c + [] == [] + c;
    }
  }

  lemma Appended(start: Code, at: Code, a: Code, b: Code)
    requires |start| <= |at| && at[..|start|] == start
    ensures var c := at + a + b; |start| <= |c| && c[..|start|] == start && c[|start|..] == at[|start|..] + (a + b)
  {
  }

  lemma ItemDone(start: Code, at: Code, now: Code, join: BinaryOp, items: seq<Expr>, i: nat, view: Scope, t: Tables)
    requires i < |items| && |start| <= |at| && |start| <= |now|
    requires var a := Emit(items[i], Waiting(view, CountOnes(i)), t);
             a.Emitted? && now[|start|..] == at[|start|..] + (a.code + Repeat(Encode(Operate2(join)), TrailingZeros(i + 1)))
    ensures var a := Emit(items[i], Waiting(view, CountOnes(i)), t);
            Prepended(at[|start|..], EmitItems(join, items, i, view, t)) == Prepended(now[|start|..], EmitItems(join, items, i + 1, view, a.tables))
  {
    hide Emit, Encode, Repeat, Waiting, TrailingZeros;
    var a := Emit(items[i], Waiting(view, CountOnes(i)), t);
    var rest := EmitItems(join, items, i + 1, view, a.tables);
    var joins := Repeat(Encode(Operate2(join)), TrailingZeros(i + 1));
    if rest.Emitted? {
      assert at[|start|..] + (a.code + joins + rest.code) == at[|start|..] + (a.code + joins) + rest.code;
    }
  }

  lemma AllDone(start: Code, at: Code, now: Code, join: BinaryOp, items: seq<Expr>, view: Scope, t: Tables)
    requires items != [] && |start| <= |at| && |start| <= |now| && now[..|start|] == start
    requires now[|start|..] == at[|start|..] + ([] + Repeat(Encode(Operate2(join)), LastJoinCount(|items|)))
    ensures Prepended(at[|start|..], EmitItems(join, items, |items|, view, t)).Emitted?
    ensures now == start + Prepended(at[|start|..], EmitItems(join, items, |items|, view, t)).code
    ensures Prepended(at[|start|..], EmitItems(join, items, |items|, view, t)).tables == t
  {
    hide Encode, Repeat;
    var joins := Repeat(Encode(Operate2(join)), LastJoinCount(|items|));
    assert [] + joins == joins;
    assert now == now[..|start|] + now[|start|..];
  }

  lemma InnerIs(head: Code, a: Code, c: Code, d: Code)
    ensures head + a + c + d == head + (a + (c + d))
  {
  }

  lemma MapPushIs()
    ensures MAP_PUSH == Encode(BuildPush) + Encode(IrCode.Pop)
  {
  }

  lemma BuiltIs(start: Code, init: Code, loop: Code)
    ensures start + Encode(BuildNew) + init + loop + LOOP_END + Encode(BuildComplete)
         == start + (Encode(BuildNew) + (init + (loop + (LOOP_END + Encode(BuildComplete)))))
  {
    hide Encode, LOOP_END;
    FiveParts(start, Encode(BuildNew), init, loop, LOOP_END, Encode(BuildComplete));
  }

  lemma LoopIs(head: Code, test: Code, branch: Code, inner: Code, next: Code, back: Code)
    ensures head + test + branch + (inner + next + back) == head + (test + (branch + (inner + (next + back))))
  {
  }

  lemma LocalSize(name: Name, scope: Scope, t: Tables)
    requires name in scope.names
    ensures EmitVariable(name, scope, t).Emitted? ==> |EmitVariable(name, scope, t).code| == 3
  {
    NotThere(scope.names, name);
    var k := LastIndex(scope.names, name);
    if k.value <= MAX_INDEX {
      EncodeSize(Var(k.value));
    }
  }

  lemma KeepIs(start: Code, position: Code)
    ensures start + Encode(Dup) + Encode(IrCode.IsNumeric) + Encode(JumpIfFalse(4)) + (position + Encode(Operate2(Eq))) + KEEP
         == start + (Encode(Dup) + (Encode(IrCode.IsNumeric) + (Encode(JumpIfFalse(4)) + (position + (Encode(Operate2(Eq)) + KEEP)))))
  {
    hide Encode, KEEP;
    var s := start + Encode(Dup) + Encode(IrCode.IsNumeric) + Encode(JumpIfFalse(4));
    FiveParts(start, Encode(Dup), Encode(IrCode.IsNumeric), Encode(JumpIfFalse(4)), position, Encode(Operate2(Eq)) + KEEP);
    assert s + (position + Encode(Operate2(Eq))) + KEEP == s + position + (Encode(Operate2(Eq)) + KEEP);
  }
}
