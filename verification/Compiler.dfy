/** The compiler: it pushes instructions and patches their targets, within two ceilings. */
module Compiler {
  import opened Options
  import opened Syntax
  import opened Machine
  import opened Emission

  const MAX_INSTS: nat := 0x10_0000
  const MAX_VISITS: nat := 8 * MAX_INSTS

  datatype Program = Program(insts: Code, rowOf: seq<nat>, rows: nat, slots: nat, regs: nat, hasBackrefs: bool)

  function Max(a: nat, b: nat): nat {
    if a < b then b else a
  }

  // ----- what compiling costs -----

  /** The nodes compiled, each copy of a repetition's body counted. */
  function Visits(n: Node): nat
    decreases n, 0
  {
    1 + match n {
      case Group(_, inner) => Visits(inner)
      case Concat(parts) => AllVisits(parts)
      case Alt(branches) => AllVisits(branches)
      case Repeat(body, min, max, _) =>
        Times(min, Visits(body)) +
        match OptionalCopies(min, max) {
          case None => Visits(body)
          case Some(k) => OptionalVisits(body, k)
        }
      case _ => 0
    }
  }

  /** Of the copies of a body that emits nothing, only the first is compiled. */
  function OptionalVisits(body: Node, k: nat): nat
    decreases body, 1
  {
    if k > 0 && Silent(body) then Visits(body) else Times(k, Visits(body))
  }

  function AllVisits(ns: seq<Node>): nat
    decreases ns, 0
  {
    if ns == [] then 0 else Visits(ns[0]) + AllVisits(ns[1..])
  }

  /** The most instructions held at once past those there before, a copy that is dropped again included. */
  function Peak(n: Node): nat
    decreases n, 0, 0
  {
    match n
    case Empty => 0
    case Group(Some(_), inner) => Max(1 + Peak(inner), Size(inner) + 2)
    case Group(None, inner) => Peak(inner)
    case Concat(parts) => ConcatPeak(parts)
    case Alt(branches) => AltPeak(branches)
    case Repeat(body, min, max, _) =>
      var zero := if min == 0 then GroupSpan(body) else None;
      Max(CopiesPeak(body, min),
          Times(min, Size(body)) + match OptionalCopies(min, max) {
            case None => LoopPeak(body, zero)
            case Some(k) => OptionalPeak(body, k, zero)
          })
    case _ => 1
  }

  function ConcatPeak(parts: seq<Node>): nat
    decreases parts, 0, 0
  {
    if parts == [] then 0 else Max(Peak(parts[0]), Size(parts[0]) + ConcatPeak(parts[1..]))
  }

  function AltPeak(branches: seq<Node>): nat
    decreases branches, 0, 0
  {
    if branches == [] then 0
    else if |branches| == 1 then Peak(branches[0])
    else Max(1 + Peak(branches[0]), Size(branches[0]) + 2 + AltPeak(branches[1..]))
  }

  function CopiesPeak(body: Node, k: nat): nat
    decreases body, 1, k
  {
    if k == 0 then 0 else Max(Peak(body), Size(body) + CopiesPeak(body, k - 1))
  }

  function LoopPeak(body: Node, zero: Span): nat
    decreases body, 1, 0
  {
    Max(One(zero.Some?) + 1 + One(CanBeEmpty(body)) + Peak(body), LoopSize(body, zero))
  }

  function CopyPeak(body: Node, checked: bool): nat
    decreases body, 0, 1
  {
    if Silent(body) then 1 + One(checked) + Peak(body)
    else 1 + Max(One(checked) + Peak(body), 2 * One(checked) + Size(body))
  }

  function OptionalCopiesPeak(body: Node, k: nat): nat
    decreases body, 1, k
  {
    if k == 0 then 0
    else Max(CopyPeak(body, Checked(body, k)),
             1 + 2 * One(Checked(body, k)) + Size(body) + OptionalCopiesPeak(body, k - 1))
  }

  function OptionalPeak(body: Node, k: nat, zero: Span): nat
    decreases body, 2, 0
  {
    if k == 0 then 0
    else if Silent(body) then CopyPeak(body, Checked(body, k))
    else Max(OptionalCopiesPeak(body, k), OptionalSize(body, k, zero))
  }

  lemma {:induction false} PeakCoversSize(n: Node)
    ensures Size(n) <= Peak(n)
    decreases n, 0, 0
  {
    match n
    case Group(None, inner) => PeakCoversSize(inner);
    case Concat(parts) => ConcatPeakCovers(parts);
    case Alt(branches) => AltPeakCovers(branches);
    case Repeat(body, min, max, _) =>
      match OptionalCopies(min, max) {
        case None =>
        case Some(k) =>
      }
    case _ =>
  }

  lemma {:induction false} ConcatPeakCovers(parts: seq<Node>)
    ensures ConcatSize(parts) <= ConcatPeak(parts)
    decreases parts, 0, 0
  {
    if parts != [] {
      ConcatPeakCovers(parts[1..]);
    }
  }

  lemma {:induction false} AltPeakCovers(branches: seq<Node>)
    ensures AltSize(branches) <= AltPeak(branches)
    decreases branches, 0, 0
  {
    if |branches| == 1 {
      PeakCoversSize(branches[0]);
    } else if |branches| > 1 {
      AltPeakCovers(branches[1..]);
    }
  }

  // ----- patches -----

  /** The code with each jump of `jumps` resolved to `end`. */
  function Jumped(code: Code, jumps: seq<nat>, end: nat): (r: Code)
    ensures |r| == |code|
  {
    seq(|code|, i requires 0 <= i < |code| => if i in jumps then Jmp(end) else code[i])
  }

  lemma JumpedNone(code: Code, end: nat)
    ensures Jumped(code, [], end) == code
  {
  }

  lemma JumpedAppend(code: Code, more: Code, jumps: seq<nat>, end: nat)
    requires forall j <- jumps :: j < |code|
    ensures Jumped(code + more, jumps, end) == Jumped(code, jumps, end) + more
  {
  }

  /** A branch's code with its jump added to those to resolve. */
  lemma AltPatched(code: Code, split: Inst, body: Code, jumps: seq<nat>, end: nat)
    requires forall j <- jumps :: j < |code|
    ensures var jumps' := jumps + [|code| + 1 + |body|];
            Jumped(code + ([split] + body + [Jmp(0)]), jumps', end)
            == Jumped(code, jumps, end) + ([split] + body + [Jmp(end)])
  {
  }

  lemma AltContinues(was: Code, all: Code, done: Code, more: Code, rest: Code)
    requires done + (more + rest) == was + all
    ensures (done + more) + rest == was + all
  {
    assert (done + more) + rest == done + (more + rest);
  }

  /** The code there is and what is still to come make up the code there was and all that was to come. */
  ghost predicate Agree(done: Code, rest: Code, was: Code, all: Code) {
    done + rest == was + all
  }

  lemma AgreeNext(was: Code, all: Code, done: Code, more: Code, rest: Code)
    requires Agree(done, more + rest, was, all)
    ensures Agree(done + more, rest, was, all)
  {
    assert (done + more) + rest == done + (more + rest);
  }

  lemma AgreeEnds(was: Code, all: Code, done: Code)
    ensures Agree(was, all, was, all)
    ensures Agree(done, [], was, all) ==> done == was + all
  {
    assert done + [] == done;
  }

  /** The code with the splits and checks of a counted repetition resolved. */
  function Resolved(code: Code, splits: seq<nat>, checks: seq<nat>, greedy: bool, clear: nat, end: nat, r: nat)
    : (out: Code)
    ensures |out| == |code|
  {
    seq(|code|, i requires 0 <= i < |code| =>
      if i in checks then ProgressCheck(r, end)
      else if i in splits then Order(greedy, i + 1, if i == splits[0] then clear else end)
      else code[i])
  }

  // ----- what a stretch of code uses -----

  /** The registers a stretch of code uses, counted from 0, and whether it has a back-reference. */
  datatype Usage = Usage(regs: nat, refs: bool) {
    function Plus(other: Usage): Usage {
      Usage(Max(regs, other.regs), refs || other.refs)
    }
  }

  const NOTHING := Usage(0, false)

  function InstUsage(i: Inst): Usage {
    match i
    case ProgressStart(r) => Usage(r + 1, false)
    case Backref(_) => Usage(0, true)
    case _ => NOTHING
  }

  function CodeUsage(code: Code): Usage {
    if code == [] then NOTHING else InstUsage(code[0]).Plus(CodeUsage(code[1..]))
  }

  lemma {:induction false} UsageAppend(c1: Code, c2: Code)
    ensures CodeUsage(c1 + c2) == CodeUsage(c1).Plus(CodeUsage(c2))
    decreases |c1|
  {
    if c1 == [] {
      assert c1 + c2 == c2;
    } else {
      assert (c1 + c2)[1..] == c1[1..] + c2;
      UsageAppend(c1[1..], c2);
    }
  }

  lemma UsageNone()
    ensures CodeUsage([]) == NOTHING
  {
  }

  lemma UsageOne(i: Inst)
    ensures CodeUsage([i]) == InstUsage(i)
  {
    assert [i][1..] == [];
  }

  /** The usage is the least bound on the registers, and tells exactly whether there is a back-reference. */
  lemma {:induction false} UsageIsExact(code: Code)
    ensures forall i :: 0 <= i < |code| && code[i].ProgressStart? ==> code[i].reg < CodeUsage(code).regs
    ensures CodeUsage(code).regs > 0 ==> ProgressStart(CodeUsage(code).regs - 1) in code
    ensures CodeUsage(code).refs <==> exists i :: 0 <= i < |code| && code[i].Backref?
    decreases |code|
  {
    if code != [] {
      UsageIsExact(code[1..]);
      assert code == [code[0]] + code[1..];
      forall i | 0 < i < |code| && code[i].ProgressStart? ensures code[i].reg < CodeUsage(code).regs {
        assert code[1..][i - 1] == code[i];
      }
      if CodeUsage(code).refs && !code[0].Backref? {
        var i :| 0 <= i < |code[1..]| && code[1..][i].Backref?;
        assert code[i + 1].Backref?;
      }
      if i :| 0 <= i < |code| && code[i].Backref? {
        if i > 0 {
          assert code[1..][i - 1].Backref?;
        }
      }
    }
  }

  lemma AltUsage(split: Inst, body: Code, jump: Inst, rest: Code)
    requires split.Split? && jump.Jmp?
    ensures CodeUsage([split] + body + [jump] + rest) == CodeUsage(body).Plus(CodeUsage(rest))
  {
    UsageAppend([split] + body + [jump], rest);
    UsageAppend([split] + body, [jump]);
    UsageAppend([split], body);
    UsageOne(split);
    UsageOne(jump);
  }

  lemma LoopUsage(body: Node, greedy: bool, zero: Span, at: nat, d: nat)
    ensures var c := One(CanBeEmpty(body));
            CodeUsage(EmitLoop(body, greedy, zero, at, d))
            == Usage(if CanBeEmpty(body) then d + 1 else 0, false).Plus(
                 CodeUsage(Emit(body, at + One(zero.Some?) + 1 + c, d + c)))
  {
    hide Emit, Size, MinLen, CodeUsage;
    var clearing, checked := zero.Some?, CanBeEmpty(body);
    var split := at + One(clearing);
    var clear := split + 2 + Size(body) + 2 * One(checked);
    var end := clear + One(clearing);
    var c1 := When(clearing, Order(greedy, split + 1, clear));
    var c2 := [Order(greedy, split + 1, end)];
    var c3 := EmitIteration(body, checked, end, split + 1, d);
    UsageAppend(c1 + c2 + c3 + [Jmp(split)], Clearing(zero));
    UsageAppend(c1 + c2 + c3, [Jmp(split)]);
    UsageAppend(c1 + c2, c3);
    UsageAppend(c1, c2);
    UsageWhen(clearing, Order(greedy, split + 1, clear));
    UsageWhen(clearing, Clearing(Some(if clearing then zero.value else (0, 0)))[0]);
    UsageOne(Order(greedy, split + 1, end));
    UsageOne(Jmp(split));
    IterationUsage(body, checked, end, split + 1, d);
  }

  lemma UsageWhen(b: bool, i: Inst)
    ensures CodeUsage(When(b, i)) == if b then InstUsage(i) else NOTHING
  {
    UsageOne(i);
  }

  lemma IterationUsage(body: Node, checked: bool, exit: nat, at: nat, d: nat)
    ensures CodeUsage(EmitIteration(body, checked, exit, at, d))
            == Usage(if checked then d + 1 else 0, false).Plus(
                 CodeUsage(Emit(body, at + One(checked), d + One(checked))))
  {
    hide Emit, CodeUsage;
    var code := Emit(body, at + One(checked), d + One(checked));
    UsageAppend(When(checked, ProgressStart(d)) + code, When(checked, ProgressCheck(d, exit)));
    UsageAppend(When(checked, ProgressStart(d)), code);
    UsageWhen(checked, ProgressStart(d));
    UsageWhen(checked, ProgressCheck(d, exit));
  }

  lemma CopiesUnfold(body: Node, k: nat, at: nat, d: nat)
    ensures k > 0 ==>
              && Times(k, Visits(body)) == Visits(body) + Times(k - 1, Visits(body))
              && CopiesPeak(body, k) == Max(Peak(body), Size(body) + CopiesPeak(body, k - 1))
              && EmitCopies(body, k, at, d) == Emit(body, at, d) + EmitCopies(body, k - 1, at + Size(body), d)
              && CodeUsage(EmitCopies(body, k, at, d))
                 == CodeUsage(Emit(body, at, d)).Plus(CodeUsage(EmitCopies(body, k - 1, at + Size(body), d)))
    ensures k == 0 ==>
              && Times(k, Visits(body)) == 0 == CopiesPeak(body, k)
              && EmitCopies(body, k, at, d) == [] && CodeUsage(EmitCopies(body, k, at, d)) == NOTHING
  {
    hide Emit, Size, Peak, Visits, CodeUsage;
    UsageNone();
    if k > 0 {
      UsageAppend(Emit(body, at, d), EmitCopies(body, k - 1, at + Size(body), d));
    }
  }

  lemma {:induction false} CopiesPeakCovers(body: Node, k: nat)
    ensures Times(k, Size(body)) <= CopiesPeak(body, k)
  {
    if k > 0 {
      CopiesPeakCovers(body, k - 1);
    }
  }

  function SetAt(code: Code, b: bool, at: nat, i: Inst): (r: Code)
    requires b ==> at < |code|
    ensures |r| == |code|
  {
    if b then code[at := i] else code
  }

  lemma IterationPatched(body: Node, checked: bool, end: nat, at: nat, d: nat)
    ensures var iter := EmitIteration(body, checked, 0, at, d);
            SetAt(iter, checked, |iter| - One(checked), ProgressCheck(d, end)) == EmitIteration(body, checked, end, at, d)
  {
    hide Emit;
  }

  /** A loop's code before its targets are known. */
  function LoopDraft(body: Node, zero: Span, at: nat, d: nat): (code: Code)
    ensures |code| == LoopSize(body, zero)
  {
    var split := at + One(zero.Some?);
    When(zero.Some?, Split(0, 0)) + [Split(0, 0)] + EmitIteration(body, CanBeEmpty(body), 0, split + 1, d)
    + [Jmp(split)] + Clearing(zero)
  }

  lemma IterationDraftIs(was: Code, body: Node, checked: bool, d: nat)
    ensures var at := |was|;
            ((was + When(checked, ProgressStart(d))) + Emit(body, at + One(checked), d + One(checked)))
             + When(checked, ProgressCheck(d, 0))
            == was + EmitIteration(body, checked, 0, at, d)
  {
    hide Emit, When;
  }

  lemma CopyDraftIs(was: Code, body: Node, checked: bool, d: nat)
    ensures var at := |was| + 1;
            (((was + [Split(0, 0)]) + When(checked, ProgressStart(d))) + Emit(body, at + One(checked), d + One(checked)))
             + When(checked, ProgressCheck(d, 0))
            == was + ([Split(0, 0)] + EmitIteration(body, checked, 0, at, d))
  {
    hide Emit, EmitIteration, When;
    IterationDraftIs(was + [Split(0, 0)], body, checked, d);
    assert (was + [Split(0, 0)]) + EmitIteration(body, checked, 0, |was| + 1, d)
        == was + ([Split(0, 0)] + EmitIteration(body, checked, 0, |was| + 1, d));
  }

  lemma CutBack(was: Code, more: Code, rest: Code)
    ensures (was + more + rest)[..|was|] == was
  {
  }

  lemma LoopDraftIs(was: Code, body: Node, zero: Span, d: nat)
    ensures var split := |was| + One(zero.Some?);
            ((was + (When(zero.Some?, Split(0, 0)) + [Split(0, 0)]))
             + EmitIteration(body, CanBeEmpty(body), 0, split + 1, d)) + ([Jmp(split)] + Clearing(zero))
            == was + LoopDraft(body, zero, |was|, d)
  {
    hide EmitIteration, When, Clearing;
  }

  /** A loop's code with its three targets patched in. */
  lemma LoopPatched(was: Code, body: Node, greedy: bool, zero: Span, d: nat)
    ensures var first := |was|;
            var split := first + One(zero.Some?);
            var code := was + LoopDraft(body, zero, first, d);
            var end := |code|;
            var clear := end - One(zero.Some?);
            SetAt(SetAt(code, CanBeEmpty(body), clear - 2, ProgressCheck(d, end))[split := Order(greedy, split + 1, end)],
                  zero.Some?, first, Order(greedy, split + 1, clear))
            == was + EmitLoop(body, greedy, zero, first, d)
  {
    hide Emit, EmitIteration, Size, MinLen, SetAt, When, Clearing, Order;
    var z, c := zero.Some?, CanBeEmpty(body);
    var split := |was| + One(z);
    var clear := split + 2 + Size(body) + 2 * One(c);
    var end := clear + One(z);
    IterationPatched(body, c, end, split + 1, d);
    PatchesPlaced(was, z, Order(greedy, split + 1, clear), Order(greedy, split + 1, end), c,
                  EmitIteration(body, c, 0, split + 1, d), ProgressCheck(d, end), Jmp(split), Clearing(zero));
  }

  lemma PatchesPlaced(was: Code, z: bool, o1: Inst, o2: Inst, c: bool, iter: Code, check: Inst, jump: Inst, last: Code)
    requires c ==> iter != []
    ensures var first := |was|;
            var split := first + One(z);
            var code := was + (When(z, Split(0, 0)) + [Split(0, 0)] + iter + [jump] + last);
            SetAt(SetAt(code, c, split + |iter|, check)[split := o2], z, first, o1)
            == was + (When(z, o1) + [o2] + SetAt(iter, c, |iter| - One(c), check) + [jump] + last)
  {
  }

  // ----- counted optional copies -----

  lemma ResolvedNone(code: Code, greedy: bool, clear: nat, end: nat, r: nat)
    ensures Resolved(code, [], [], greedy, clear, end, r) == code
  {
  }

  /** The splits and checks stand in the new code, and the first split before the others. */
  predicate SplitsFit(splits: seq<nat>, checks: seq<nat>, from: nat, size: nat) {
    && (forall i :: 0 <= i < |splits| ==> from <= splits[i] < size)
    && (forall i :: 0 <= i < |checks| ==> from <= checks[i] < size)
    && (forall i :: 0 < i < |splits| ==> splits[0] < splits[i])
  }

  lemma SplitsFitNone(from: nat)
    ensures SplitsFit([], [], from, from)
  {
  }

  lemma SplitsFitLonger(splits: seq<nat>, checks: seq<nat>, from: nat, size: nat, longer: nat)
    requires SplitsFit(splits, checks, from, size) && size <= longer
    ensures SplitsFit(splits, checks, 0, longer)
  {
  }

  lemma SplitsFitMore(splits: seq<nat>, checks: seq<nat>, from: nat, at: nat, size: nat)
    requires SplitsFit(splits, checks, from, at) && from <= at < size
    ensures SplitsFit(splits + [at], checks, from, size) && SplitsFit(splits + [at], checks + [size - 1], from, size)
  {
  }

  /** A register whose update waits for the last copy. */
  function Pending(checks: seq<nat>, d: nat): Usage {
    if checks == [] then NOTHING else Usage(d + 1, false)
  }

  lemma PlusNothing(u: Usage)
    ensures u.Plus(NOTHING) == u
  {
  }

  lemma UsageStep(u: Usage, pending: Usage, checked: bool, d: nat, x: Usage, rest: Usage)
    requires pending == NOTHING || pending == Usage(d + 1, false)
    ensures u.Plus(pending).Plus(Usage(if checked then d + 1 else 0, false).Plus(x).Plus(rest))
            == u.Plus(x).Plus(if checked then Usage(d + 1, false) else pending).Plus(rest)
  {
  }

  lemma ResolvedCopy(code: Code, splits: seq<nat>, checks: seq<nat>, from: nat, greedy: bool, clear: nat, end: nat, d: nat,
                     body: Node, checked: bool)
    requires SplitsFit(splits, checks, from, |code|)
    ensures var at := |code|;
            var iter := EmitIteration(body, checked, 0, at + 1, d);
            var checks' := if checked then checks + [at + |iter|] else checks;
            Resolved(code + ([Split(0, 0)] + iter), splits + [at], checks', greedy, clear, end, d)
            == Resolved(code, splits, checks, greedy, clear, end, d)
               + ([Order(greedy, at + 1, if splits == [] then clear else end)]
                  + EmitIteration(body, checked, end, at + 1, d))
  {
    hide Emit, EmitIteration;
    var at := |code|;
    var iter := EmitIteration(body, checked, 0, at + 1, d);
    IterationPatched(body, checked, end, at + 1, d);
    SplitsFitLonger(splits, checks, from, |code|, |code|);
    ResolvedIter(code, splits, checks, greedy, clear, end, d, iter, checked);
  }

  lemma ResolvedIter(code: Code, splits: seq<nat>, checks: seq<nat>, greedy: bool, clear: nat, end: nat, d: nat,
                     iter: Code, checked: bool)
    requires SplitsFit(splits, checks, 0, |code|) && (checked ==> iter != [])
    ensures var at := |code|;
            var checks' := if checked then checks + [at + |iter|] else checks;
            Resolved(code + ([Split(0, 0)] + iter), splits + [at], checks', greedy, clear, end, d)
            == Resolved(code, splits, checks, greedy, clear, end, d)
               + ([Order(greedy, at + 1, if splits == [] then clear else end)]
                  + SetAt(iter, checked, |iter| - One(checked), ProgressCheck(d, end)))
  {
  }

  lemma ResolvedAppend(code: Code, more: Code, splits: seq<nat>, checks: seq<nat>, from: nat, greedy: bool,
                       clear: nat, end: nat, d: nat)
    requires SplitsFit(splits, checks, from, |code|)
    ensures Resolved(code + more, splits, checks, greedy, clear, end, d)
            == Resolved(code, splits, checks, greedy, clear, end, d) + more
  {
  }

  /** What follows optional copies: a jump past the clearing block, and the block. */
  function Tail(zero: Span, end: nat): Code {
    if zero.Some? then [Jmp(end)] + Clearing(zero) else []
  }

  lemma JoinTail(was: Code, copies: Code, zero: Span, stop: nat)
    ensures (was + copies) + Tail(zero, stop + 2) == was + (copies + Tail(zero, stop + 2 * One(zero.Some?)))
  {
  }

  /** The register of the checks is used. */
  lemma ChecksUse(regs: nat, refs: bool, checks: seq<nat>, d: nat)
    ensures Usage(regs, refs).Plus(Pending(checks, d)) == Usage(if checks == [] then regs else Max(regs, d + 1), refs)
  {
  }

  lemma OptionalPeakIs(body: Node, k: nat, zero: Span)
    ensures OptionalPeak(body, k, zero)
            == if k == 0 then 0 else if Silent(body) then CopyPeak(body, Checked(body, k))
               else Max(OptionalCopiesPeak(body, k), CopiesSize(body, k) + 2 * One(zero.Some?))
    ensures k > 0 && !Silent(body) ==>
      forall v: nat, i: nat, w: nat ::
        Room(v, i, w, OptionalPeak(body, k, zero))
        <==> Room(v, i, w, OptionalCopiesPeak(body, k)) && i + CopiesSize(body, k) + 2 * One(zero.Some?) <= MAX_INSTS
  {
    hide CopyPeak, OptionalCopiesPeak, CopiesSize, Silent, Checked;
  }

  lemma NoOptional(body: Node, k: nat, greedy: bool, zero: Span, at: nat, d: nat)
    ensures k == 0 || Silent(body) ==>
              EmitOptional(body, k, greedy, zero, at, d) == [] && CodeUsage(EmitOptional(body, k, greedy, zero, at, d)) == NOTHING
    ensures k == 0 ==> OptionalCopiesPeak(body, k) == 0
  {
  }

  lemma OptionalUsage(body: Node, k: nat, greedy: bool, zero: Span, at: nat, d: nat)
    requires k > 0 && !Silent(body)
    ensures var stop := at + CopiesSize(body, k);
            var exit, end := stop + One(zero.Some?), stop + 2 * One(zero.Some?);
            var copies := EmitOptionalCopies(body, k, greedy, exit, end, at, d);
            && EmitOptional(body, k, greedy, zero, at, d) == copies + Tail(zero, end)
            && CodeUsage(EmitOptional(body, k, greedy, zero, at, d)) == CodeUsage(copies)
  {
    hide EmitOptionalCopies, CodeUsage, CopiesSize, Silent;
    var stop := at + CopiesSize(body, k);
    var exit, end := stop + One(zero.Some?), stop + 2 * One(zero.Some?);
    var copies := EmitOptionalCopies(body, k, greedy, exit, end, at, d);
    if zero.Some? {
      UsageAppend(copies + [Jmp(end)], Clearing(zero));
      UsageAppend(copies, [Jmp(end)]);
      UsageOne(Jmp(end));
      UsageOne(Clearing(zero)[0]);
      assert copies + [Jmp(end)] + Clearing(zero) == copies + ([Jmp(end)] + Clearing(zero));
    } else {
      assert copies + [] == copies;
    }
  }

  lemma CopyUnfoldRoom(body: Node, k: nat)
    requires k > 0
    ensures var c := One(Checked(body, k));
            && Times(k, Visits(body)) == Visits(body) + Times(k - 1, Visits(body))
            && OptionalCopiesPeak(body, k)
               == Max(CopyPeak(body, Checked(body, k)), 1 + 2 * c + Size(body) + OptionalCopiesPeak(body, k - 1))
  {
    hide Size, Peak, CopyPeak, Visits, MinLen;
  }

  lemma CopyUnfoldCode(body: Node, k: nat, greedy: bool, exit: nat, end: nat, at: nat, d: nat)
    requires k > 0
    ensures var checked := Checked(body, k);
            EmitOptionalCopies(body, k, greedy, exit, end, at, d)
            == ([Order(greedy, at + 1, exit)] + EmitIteration(body, checked, end, at + 1, d))
               + EmitOptionalCopies(body, k - 1, greedy, end, end, at + 1 + Size(body) + 2 * One(checked), d)
  {
    hide Emit, EmitIteration, Size, MinLen;
  }

  lemma CopyUnfoldUsage(body: Node, k: nat, greedy: bool, exit: nat, end: nat, at: nat, d: nat)
    requires k > 0
    ensures var checked := Checked(body, k);
            var c := One(checked);
            CodeUsage(EmitOptionalCopies(body, k, greedy, exit, end, at, d))
            == Usage(if checked then d + 1 else 0, false).Plus(CodeUsage(Emit(body, at + 1 + c, d + c))).Plus(
                 CodeUsage(EmitOptionalCopies(body, k - 1, greedy, end, end, at + 1 + Size(body) + 2 * c, d)))
  {
    hide Emit, EmitIteration, EmitOptionalCopies, Size, CodeUsage, MinLen;
    var checked := Checked(body, k);
    var first, iter := [Order(greedy, at + 1, exit)], EmitIteration(body, checked, end, at + 1, d);
    CopyUnfoldCode(body, k, greedy, exit, end, at, d);
    UsageAppend(first + iter, EmitOptionalCopies(body, k - 1, greedy, end, end, at + 1 + Size(body) + 2 * One(checked), d));
    UsageAppend(first, iter);
    UsageOne(first[0]);
    IterationUsage(body, checked, end, at + 1, d);
  }

  lemma CopyUnfoldNone(body: Node, at: nat, d: nat, greedy: bool, exit: nat, end: nat)
    ensures Times(0, Visits(body)) == 0 == CopiesSize(body, 0) == OptionalCopiesPeak(body, 0)
    ensures EmitOptionalCopies(body, 0, greedy, exit, end, at, d) == []
    ensures CodeUsage(EmitOptionalCopies(body, 0, greedy, exit, end, at, d)) == NOTHING
  {
  }

  lemma SilentUsage(body: Node, at: nat, d: nat)
    ensures Silent(body) ==> CodeUsage(Emit(body, at, d)) == NOTHING
  {
    SilentIsEmpty(body);
    UsageNone();
  }

  lemma AltUnfold(bs: seq<Node>, k: nat, at: nat, d: nat)
    requires k + 1 < |bs|
    ensures var next := at + Size(bs[k]) + 2;
            var end := next + AltSize(bs[k + 1..]);
            var body := Emit(bs[k], at + 1, d);
            var rest := EmitAlt(bs[k + 1..], next, d);
            && AltSize(bs[k..]) == Size(bs[k]) + 2 + AltSize(bs[k + 1..])
            && AltPeak(bs[k..]) == Max(1 + Peak(bs[k]), Size(bs[k]) + 2 + AltPeak(bs[k + 1..]))
            && AllVisits(bs[k..]) == Visits(bs[k]) + AllVisits(bs[k + 1..])
            && EmitAlt(bs[k..], at, d) == ([Split(at + 1, next)] + body + [Jmp(end)]) + rest
            && CodeUsage(EmitAlt(bs[k..], at, d)) == CodeUsage(body).Plus(CodeUsage(rest))
  {
    hide Emit, Size, Peak, Visits, CodeUsage;
    assert bs[k..][1..] == bs[k + 1..];
    var next := at + Size(bs[k]) + 2;
    AltUsage(Split(at + 1, next), Emit(bs[k], at + 1, d), Jmp(next + AltSize(bs[k + 1..])),
             EmitAlt(bs[k + 1..], next, d));
  }

  lemma AltUnfoldLast(bs: seq<Node>, at: nat, d: nat)
    requires bs != []
    ensures var k := |bs| - 1;
            && AltSize(bs[k..]) == Size(bs[k]) && AltPeak(bs[k..]) == Peak(bs[k])
            && AllVisits(bs[k..]) == Visits(bs[k])
            && EmitAlt(bs[k..], at, d) == Emit(bs[k], at, d)
  {
    hide Emit, Size, Peak, Visits;
    assert bs[|bs| - 1..][1..] == [];
  }

  lemma AltUnfoldNone(bs: seq<Node>, at: nat, d: nat)
    ensures AltSize(bs[|bs|..]) == 0 == AltPeak(bs[|bs|..]) == AllVisits(bs[|bs|..])
    ensures EmitAlt(bs[|bs|..], at, d) == [] && CodeUsage(EmitAlt(bs[|bs|..], at, d)) == NOTHING
  {
  }

  /** From so many visits and instructions, the ceilings leave room for more. */
  predicate Room(visits: nat, insts: nat, visited: nat, peak: nat) {
    visits + visited <= MAX_VISITS && insts + peak <= MAX_INSTS
  }

  /** Room for one thing and another after it. */
  lemma RoomThen(v: nat, i: nat, a: nat, b: nat, p: nat, s: nat, q: nat)
    ensures Room(v, i, a + b, Max(p, s + q)) <==> Room(v, i, a, p) && Room(v + a, i + s, b, q)
  {
  }

  /** Room for a loop: for its splits, its iteration, and its jump and clearing block. */
  lemma RoomForLoop(v: nat, i: nat, body: Node, zero: Span)
    ensures var z, c := One(zero.Some?), One(CanBeEmpty(body));
            Room(v, i, Visits(body), LoopPeak(body, zero))
            <==> && i + z + 1 <= MAX_INSTS
                 && Room(v, i + z + 1, Visits(body), Max(c + Peak(body), 2 * c + Size(body)))
                 && i + z + 1 + (2 * c + Size(body)) + z + 1 <= MAX_INSTS
  {
    hide Visits, Peak, Size;
  }

  lemma RoomNow(v: nat, i: nat)
    ensures Room(v, i, 0, 0) <==> v <= MAX_VISITS && i <= MAX_INSTS
  {
  }

  /** A counted repetition's optional copies, and what there was before them. */
  datatype Copying = Copying(body: Node, k: nat, greedy: bool, exit: nat, end: nat, d: nat, was: Code, used: Usage, visits: nat)
  {
    /** The code of the copies still to come when `j` are there and the code is `at` long. */
    ghost function Rest(j: nat, at: nat): Code
      requires j <= k
    {
      EmitOptionalCopies(body, k - j, greedy, if j == 0 then exit else end, end, at, d)
    }

    /** There is room for the copies still to come. */
    ghost predicate RoomFor(j: nat, visits: nat, at: nat)
      requires j <= k
    {
      Room(visits, at, Times(k - j, Visits(body)), OptionalCopiesPeak(body, k - j))
    }
  }

  /** With `j` optional copies there, the rest will complete them. */
  ghost predicate Underway(c: Copying, j: nat, code: Code, splits: seq<nat>, checks: seq<nat>, used: Usage, visits: nat)
    requires j <= c.k
  {
    && visits + Times(c.k - j, Visits(c.body)) == c.visits + Times(c.k, Visits(c.body))
    && Agree(Resolved(code, splits, checks, c.greedy, c.exit, c.end, c.d), c.Rest(j, |code|), c.was, c.Rest(0, |c.was|))
    && (c.RoomFor(j, visits, |code|) <==> c.RoomFor(0, c.visits, |c.was|))
    && used.Plus(Pending(checks, c.d)).Plus(CodeUsage(c.Rest(j, |code|))) == c.used.Plus(CodeUsage(c.Rest(0, |c.was|)))
  }

  lemma UnderwayStart(c: Copying)
    ensures Underway(c, 0, c.was, [], [], c.used, c.visits)
  {
    hide EmitOptionalCopies, Resolved, CodeUsage, Agree, Room, Times, Visits, OptionalCopiesPeak;
    ResolvedNone(c.was, c.greedy, c.exit, c.end, c.d);
    AgreeEnds(c.was, c.Rest(0, |c.was|), c.was);
    PlusNothing(c.used);
  }

  /** There is room for the copies exactly when there is for the next one and, after it, for the others. */
  lemma UnderwayRoom(c: Copying, j: nat, code: Code, splits: seq<nat>, checks: seq<nat>, used: Usage, visits: nat)
    requires j < c.k && Underway(c, j, code, splits, checks, used, visits)
    ensures var checked := Checked(c.body, c.k - j);
            var next := |code| + 1 + Size(c.body) + 2 * One(checked);
            c.RoomFor(0, c.visits, |c.was|)
            <==> Room(visits, |code|, Visits(c.body), CopyPeak(c.body, checked)) && c.RoomFor(j + 1, visits + Visits(c.body), next)
  {
    hide EmitOptionalCopies, Resolved, CodeUsage, Agree, Room, Times, Visits, OptionalCopiesPeak, CopyPeak, Size, MinLen, Max;
    var checked := Checked(c.body, c.k - j);
    CopyUnfoldRoom(c.body, c.k - j);
    RoomThen(visits, |code|, Visits(c.body), Times(c.k - j - 1, Visits(c.body)), CopyPeak(c.body, checked),
             1 + 2 * One(checked) + Size(c.body), OptionalCopiesPeak(c.body, c.k - j - 1));
  }

  /** A copy with its split and its check listed. */
  lemma UnderwayNext(c: Copying, j: nat, code: Code, splits: seq<nat>, checks: seq<nat>, used: Usage, visits: nat,
                     code': Code, splits': seq<nat>, checks': seq<nat>, used': Usage, visits': nat)
    requires j < c.k && Underway(c, j, code, splits, checks, used, visits) && |splits| == j
    requires Room(visits, |code|, Visits(c.body), CopyPeak(c.body, Checked(c.body, c.k - j)))
    requires visits' == visits + Visits(c.body)
    requires var checked := Checked(c.body, c.k - j);
             && |code'| == |code| + 1 + Size(c.body) + 2 * One(checked)
             && checks' == (if checked then checks + [|code'| - 1] else checks)
             && Resolved(code', splits', checks', c.greedy, c.exit, c.end, c.d)
                == Resolved(code, splits, checks, c.greedy, c.exit, c.end, c.d)
                   + ([Order(c.greedy, |code| + 1, if splits == [] then c.exit else c.end)]
                      + EmitIteration(c.body, checked, c.end, |code| + 1, c.d))
             && used' == used.Plus(CodeUsage(Emit(c.body, |code| + 1 + One(checked), c.d + One(checked))))
    ensures Underway(c, j + 1, code', splits', checks', used', visits')
  {
    hide Emit, EmitIteration, EmitOptionalCopies, Resolved, CodeUsage, Agree, Room, Times, Visits, OptionalCopiesPeak, CopyPeak,
         Size, MinLen, Max, Order, Usage.Plus, Underway;
    UnderwayRoom(c, j, code, splits, checks, used, visits);
    UnderwayCode(c, j, code, splits, checks, used, visits, |code'|, Resolved(code', splits', checks', c.greedy, c.exit, c.end, c.d));
    UnderwayUsage(c, j, code, splits, checks, used, visits, |code'|, checks', used');
    UnderwayIs(c, j, code, splits, checks, used, visits, code', splits', checks', used', visits');
  }

  lemma UnderwayIs(c: Copying, j: nat, code: Code, splits: seq<nat>, checks: seq<nat>, used: Usage, visits: nat,
                   code': Code, splits': seq<nat>, checks': seq<nat>, used': Usage, visits': nat)
    requires j < c.k && Underway(c, j, code, splits, checks, used, visits) && visits' == visits + Visits(c.body)
    requires c.RoomFor(j + 1, visits', |code'|) <==> c.RoomFor(0, c.visits, |c.was|)
    requires Agree(Resolved(code', splits', checks', c.greedy, c.exit, c.end, c.d), c.Rest(j + 1, |code'|), c.was, c.Rest(0, |c.was|))
    requires used'.Plus(Pending(checks', c.d)).Plus(CodeUsage(c.Rest(j + 1, |code'|))) == c.used.Plus(CodeUsage(c.Rest(0, |c.was|)))
    ensures Underway(c, j + 1, code', splits', checks', used', visits')
  {
    hide EmitOptionalCopies, Resolved, CodeUsage, Agree, Room, Visits, OptionalCopiesPeak, Usage.Plus, Pending;
    assert Times(c.k - j, Visits(c.body)) == Visits(c.body) + Times(c.k - j - 1, Visits(c.body));
  }

  /** The code of the next copy. */
  ghost function NextCopy(c: Copying, j: nat, at: nat): Code
    requires j < c.k
  {
    [Order(c.greedy, at + 1, if j == 0 then c.exit else c.end)] + EmitIteration(c.body, Checked(c.body, c.k - j), c.end, at + 1, c.d)
  }

  lemma RestUnfold(c: Copying, j: nat, at: nat)
    requires j < c.k
    ensures c.Rest(j, at) == NextCopy(c, j, at) + c.Rest(j + 1, at + 1 + Size(c.body) + 2 * One(Checked(c.body, c.k - j)))
  {
    hide EmitOptionalCopies, EmitIteration, Size, MinLen, Order;
    CopyUnfoldCode(c.body, c.k - j, c.greedy, if j == 0 then c.exit else c.end, c.end, at, c.d);
  }

  lemma UnderwayCode(c: Copying, j: nat, code: Code, splits: seq<nat>, checks: seq<nat>, used: Usage, visits: nat,
                     next: nat, done: Code)
    requires j < c.k && Underway(c, j, code, splits, checks, used, visits)
    requires next == |code| + 1 + Size(c.body) + 2 * One(Checked(c.body, c.k - j))
    requires done == Resolved(code, splits, checks, c.greedy, c.exit, c.end, c.d) + NextCopy(c, j, |code|)
    ensures Agree(done, c.Rest(j + 1, next), c.was, c.Rest(0, |c.was|))
  {
    hide Resolved, CodeUsage, Agree, Room, Times, Visits, OptionalCopiesPeak, Size, MinLen, Usage.Plus, Pending, NextCopy, Copying.Rest;
    RestUnfold(c, j, |code|);
    AgreeNext(c.was, c.Rest(0, |c.was|), Resolved(code, splits, checks, c.greedy, c.exit, c.end, c.d), NextCopy(c, j, |code|),
              c.Rest(j + 1, next));
  }

  lemma RestUsage(c: Copying, j: nat, at: nat)
    requires j < c.k
    ensures var checked := Checked(c.body, c.k - j);
            CodeUsage(c.Rest(j, at))
            == Usage(if checked then c.d + 1 else 0, false).Plus(
                 CodeUsage(Emit(c.body, at + 1 + One(checked), c.d + One(checked)))).Plus(
                 CodeUsage(c.Rest(j + 1, at + 1 + Size(c.body) + 2 * One(checked))))
  {
    hide EmitOptionalCopies, Emit, Size, MinLen, CodeUsage, Usage.Plus;
    CopyUnfoldUsage(c.body, c.k - j, c.greedy, if j == 0 then c.exit else c.end, c.end, at, c.d);
  }

  lemma UnderwayUsage(c: Copying, j: nat, code: Code, splits: seq<nat>, checks: seq<nat>, used: Usage, visits: nat,
                      next: nat, checks': seq<nat>, used': Usage)
    requires j < c.k && Underway(c, j, code, splits, checks, used, visits)
    requires var checked := Checked(c.body, c.k - j);
             && next == |code| + 1 + Size(c.body) + 2 * One(checked)
             && (if checked then checks' != [] else checks' == checks)
             && used' == used.Plus(CodeUsage(Emit(c.body, |code| + 1 + One(checked), c.d + One(checked))))
    ensures used'.Plus(Pending(checks', c.d)).Plus(CodeUsage(c.Rest(j + 1, next))) == c.used.Plus(CodeUsage(c.Rest(0, |c.was|)))
  {
    hide Emit, Resolved, CodeUsage, Agree, Room, Times, Visits, OptionalCopiesPeak, Size, MinLen, Usage.Plus, Copying.Rest;
    var checked, at := Checked(c.body, c.k - j), |code|;
    RestUsage(c, j, at);
    UsageStep(used, Pending(checks, c.d), checked, c.d, CodeUsage(Emit(c.body, at + 1 + One(checked), c.d + One(checked))),
              CodeUsage(c.Rest(j + 1, next)));
  }

  lemma UnderwayEnds(c: Copying, code: Code, splits: seq<nat>, checks: seq<nat>, used: Usage, visits: nat)
    requires Underway(c, c.k, code, splits, checks, used, visits) && visits <= MAX_VISITS && |code| <= MAX_INSTS
    ensures c.RoomFor(0, c.visits, |c.was|) && visits == c.visits + Times(c.k, Visits(c.body))
    ensures Resolved(code, splits, checks, c.greedy, c.exit, c.end, c.d) == c.was + c.Rest(0, |c.was|)
    ensures used.Plus(Pending(checks, c.d)) == c.used.Plus(CodeUsage(c.Rest(0, |c.was|)))
  {
    hide EmitOptionalCopies, Resolved, CodeUsage, Agree, Room, Times, Visits, OptionalCopiesPeak, Usage.Plus;
    CopyUnfoldNone(c.body, |code|, c.d, c.greedy, if c.k == 0 then c.exit else c.end, c.end);
    AgreeEnds(c.was, c.Rest(0, |c.was|), Resolved(code, splits, checks, c.greedy, c.exit, c.end, c.d));
    RoomNow(visits, |code|);
    PlusNothing(used.Plus(Pending(checks, c.d)));
  }


  class Compiler {
    var insts: Code
    var visits: nat
    var regs: nat
    var loopDepth: nat
    var hasBackrefs: bool

    constructor ()
      ensures insts == [] && visits == 0 && regs == 0 && loopDepth == 0 && !hasBackrefs
    {
      insts, visits, regs, loopDepth, hasBackrefs := [], 0, 0, 0, false;
    }

    /** Appends an instruction, unless the program is at its ceiling. */
    method Push(inst: Inst) returns (ok: bool)
      modifies this`insts
      ensures ok <==> |old(insts)| < MAX_INSTS
      ensures insts == if ok then old(insts) + [inst] else old(insts)
    {
      ok := |insts| < MAX_INSTS;
      if ok {
        insts := insts + [inst];
      }
    }

    /**
     * Compiles a node after the instructions there are. It succeeds exactly when the ceilings have room for
     * it, and then appends the node's code.
     */
    method CompileNode(n: Node) returns (ok: bool)
      requires visits <= MAX_VISITS && |insts| <= MAX_INSTS
      modifies this
      ensures ok <==> Room(old(visits), |old(insts)|, Visits(n), Peak(n))
      ensures ok ==> insts == old(insts) + Emit(n, |old(insts)|, old(loopDepth))
      ensures ok ==> visits == old(visits) + Visits(n)
      ensures ok ==> loopDepth == old(loopDepth)
      ensures ok ==> Usage(regs, hasBackrefs) == Usage(old(regs), old(hasBackrefs)).Plus(CodeUsage(Emit(n, |old(insts)|, old(loopDepth))))
      decreases n, 0
    {
      hide EmitGroup, EmitConcat, EmitAlt, EmitCopies, EmitLoop, EmitOptional, CodeUsage;
      hide ConcatPeak, AltPeak, CopiesPeak, LoopPeak, OptionalPeak, AllVisits, OptionalVisits, Size, Times;
      visits := visits + 1;
      if visits > MAX_VISITS {
        return false;
      }
      match n
      case Empty =>
        UsageNone();
        ok := true;
      case Group(Some(nr), inner) =>
        ok := CompileGroup(nr, inner);
      case Group(None, inner) =>
        ok := CompileNode(inner);
      case Concat(parts) =>
        ok := CompileConcat(parts);
      case Alt(branches) =>
        ok := CompileAlt(branches);
      case Repeat(body, min, max, greedy) =>
        ok := CompileRepeat(body, min, max, greedy);
      case Class(chars) =>
        UsageOne(Inst.Class(chars));
        ok := Push(Inst.Class(chars));
      case Bol =>
        UsageOne(Inst.Bol);
        ok := Push(Inst.Bol);
      case Eol =>
        UsageOne(Inst.Eol);
        ok := Push(Inst.Eol);
      case Backref(nr) =>
        UsageOne(Inst.Backref(nr));
        hasBackrefs := true;
        ok := Push(Inst.Backref(nr));
    }

    method CompileGroup(nr: nat, inner: Node) returns (ok: bool)
      requires visits <= MAX_VISITS && |insts| <= MAX_INSTS
      modifies this
      ensures ok <==> Room(old(visits), |old(insts)|, Visits(inner), Max(1 + Peak(inner), Size(inner) + 2))
      ensures ok ==> insts == old(insts) + EmitGroup(nr, inner, |old(insts)|, old(loopDepth))
      ensures ok ==> visits == old(visits) + Visits(inner) && loopDepth == old(loopDepth)
      ensures ok ==> Usage(regs, hasBackrefs) == Usage(old(regs), old(hasBackrefs)).Plus(CodeUsage(EmitGroup(nr, inner, |old(insts)|, old(loopDepth))))
      decreases inner, 1
    {
      hide Emit, Size, Peak, Visits, CodeUsage;
      ghost var body := Emit(inner, |insts| + 1, loopDepth);
      ghost var was := insts;
      UsageAppend([Save(2 * nr)] + body, [Save(2 * nr + 1)]);
      UsageAppend([Save(2 * nr)], body);
      UsageOne(Save(2 * nr));
      UsageOne(Save(2 * nr + 1));
      PeakCoversSize(inner);
      ok := Push(Save(2 * nr));
      if !ok {
        return;
      }
      ok := CompileNode(inner);
      if !ok {
        return;
      }
      ok := Push(Save(2 * nr + 1));
      assert ok ==> insts == was + ([Save(2 * nr)] + body + [Save(2 * nr + 1)]);
    }

    method CompileConcat(parts: seq<Node>) returns (ok: bool)
      requires visits <= MAX_VISITS && |insts| <= MAX_INSTS
      modifies this
      ensures ok <==> Room(old(visits), |old(insts)|, AllVisits(parts), ConcatPeak(parts))
      ensures ok ==> insts == old(insts) + EmitConcat(parts, |old(insts)|, old(loopDepth))
      ensures ok ==> visits == old(visits) + AllVisits(parts) && loopDepth == old(loopDepth)
      ensures ok ==> Usage(regs, hasBackrefs) == Usage(old(regs), old(hasBackrefs)).Plus(CodeUsage(EmitConcat(parts, |old(insts)|, old(loopDepth))))
      decreases parts, 0
    {
      hide Emit, Size, Peak, Visits, CodeUsage;
      ghost var all := EmitConcat(parts, |insts|, loopDepth);
      ghost var was, used := insts, Usage(regs, hasBackrefs);
      for k := 0 to |parts|
        invariant visits <= MAX_VISITS && |insts| <= MAX_INSTS && loopDepth == old(loopDepth)
        invariant visits + AllVisits(parts[k..]) == old(visits) + AllVisits(parts)
        invariant insts + EmitConcat(parts[k..], |insts|, loopDepth) == was + all
        invariant Room(visits, |insts|, AllVisits(parts[k..]), ConcatPeak(parts[k..])) <==> Room(old(visits), |old(insts)|, AllVisits(parts), ConcatPeak(parts))
        invariant Usage(regs, hasBackrefs).Plus(CodeUsage(EmitConcat(parts[k..], |insts|, loopDepth))) == used.Plus(CodeUsage(all))
      {
        ghost var at, before := |insts|, insts;
        assert parts[k..][1..] == parts[k + 1..];
        ghost var rest := EmitConcat(parts[k + 1..], at + Size(parts[k]), loopDepth);
        UsageAppend(Emit(parts[k], at, loopDepth), rest);
        PeakCoversSize(parts[k]);
        ok := CompileNode(parts[k]);
        if !ok {
          return;
        }
        assert insts + rest == before + (Emit(parts[k], at, loopDepth) + rest);
      }
      assert parts[|parts|..] == [];
      UsageNone();
      ok := true;
    }

    /** A branch that another follows: its split tries it first, and its jump is left to be patched. */
    method CompileBranch(alt: Node) returns (ok: bool, jump: nat)
      requires visits <= MAX_VISITS && |insts| <= MAX_INSTS
      modifies this
      ensures ok <==> Room(old(visits), |old(insts)|, Visits(alt), Max(1 + Peak(alt), Size(alt) + 2))
      ensures ok ==> var at := |old(insts)|;
        insts == old(insts) + ([Split(at + 1, at + Size(alt) + 2)] + Emit(alt, at + 1, old(loopDepth)) + [Jmp(0)])
      ensures ok ==> jump == |insts| - 1
      ensures ok ==> visits == old(visits) + Visits(alt) && loopDepth == old(loopDepth)
      ensures ok ==> Usage(regs, hasBackrefs) == Usage(old(regs), old(hasBackrefs)).Plus(CodeUsage(Emit(alt, |old(insts)| + 1, old(loopDepth))))
      decreases alt, 1
    {
      hide Emit, Size, Peak, Visits, CodeUsage;
      PeakCoversSize(alt);
      var split := |insts|;
      jump := 0;
      ok := Push(Split(0, 0));
      if !ok {
        return;
      }
      ok := CompileNode(alt);
      if !ok {
        return;
      }
      jump := |insts|;
      ok := Push(Jmp(0));
      if ok {
        insts := insts[split := Split(split + 1, |insts|)];
      }
    }

    method CompileAlt(branches: seq<Node>) returns (ok: bool)
      requires visits <= MAX_VISITS && |insts| <= MAX_INSTS
      modifies this
      ensures ok <==> Room(old(visits), |old(insts)|, AllVisits(branches), AltPeak(branches))
      ensures ok ==> insts == old(insts) + EmitAlt(branches, |old(insts)|, old(loopDepth))
      ensures ok ==> visits == old(visits) + AllVisits(branches) && loopDepth == old(loopDepth)
      ensures ok ==> Usage(regs, hasBackrefs) == Usage(old(regs), old(hasBackrefs)).Plus(CodeUsage(EmitAlt(branches, |old(insts)|, old(loopDepth))))
      decreases branches, 0
    {
      hide Emit, EmitAlt, Size, AltSize, Peak, AltPeak, Visits, AllVisits, CodeUsage, Jumped;
      ghost var d, was, used := loopDepth, insts, Usage(regs, hasBackrefs);
      ghost var all := EmitAlt(branches, |insts|, d);
      ghost var end := |insts| + AltSize(branches);
      var jumps: seq<nat> := [];
      JumpedNone(insts, end);
      assert branches[0..] == branches;
      for k := 0 to |branches|
        invariant visits <= MAX_VISITS && |insts| <= MAX_INSTS && loopDepth == d
        invariant visits + AllVisits(branches[k..]) == old(visits) + AllVisits(branches)
        invariant |insts| + AltSize(branches[k..]) == end
        invariant forall j <- jumps :: j < |insts|
        invariant Jumped(insts, jumps, end) + EmitAlt(branches[k..], |insts|, d) == was + all
        invariant Room(visits, |insts|, AllVisits(branches[k..]), AltPeak(branches[k..])) <==> Room(old(visits), |old(insts)|, AllVisits(branches), AltPeak(branches))
        invariant Usage(regs, hasBackrefs).Plus(CodeUsage(EmitAlt(branches[k..], |insts|, d))) == used.Plus(CodeUsage(all))
      {
        ghost var split, before := |insts|, insts;
        ghost var done := Jumped(insts, jumps, end);
        PeakCoversSize(branches[k]);
        AltUnfoldNone(branches, split + Size(branches[k]), d);
        if k < |branches| - 1 {
          AltUnfold(branches, k, split, d);
          ghost var body := Emit(branches[k], split + 1, d);
          ghost var next := split + Size(branches[k]) + 2;
          var jump;
          ok, jump := CompileBranch(branches[k]);
          if !ok {
            return;
          }
          AltPatched(before, Split(split + 1, next), body, jumps, end);
          jumps := jumps + [jump];
          AltContinues(was, all, done, [Split(split + 1, next)] + body + [Jmp(end)], EmitAlt(branches[k + 1..], next, d));
        } else {
          AltUnfoldLast(branches, split, d);
          ok := CompileNode(branches[k]);
          if !ok {
            return;
          }
          JumpedAppend(before, Emit(branches[k], split, d), jumps, end);
        }
      }
      AltUnfoldNone(branches, |insts|, d);
      PatchJumps(jumps);
      ok := true;
    }

    /** Each jump of the list now goes to the end of what is there. */
    method PatchJumps(jumps: seq<nat>)
      requires forall j <- jumps :: j < |insts|
      modifies this`insts
      ensures insts == Jumped(old(insts), jumps, |old(insts)|)
    {
      var end := |insts|;
      for k := 0 to |jumps|
        invariant |insts| == end
        invariant insts == Jumped(old(insts), jumps[..k], end)
      {
        assert jumps[..k + 1] == jumps[..k] + [jumps[k]] && jumps[k] in jumps;
        insts := insts[jumps[k] := Jmp(end)];
      }
      assert jumps[..|jumps|] == jumps;
    }

    method CompileRepeat(body: Node, min: nat, max: Option<nat>, greedy: bool) returns (ok: bool)
      requires visits <= MAX_VISITS && |insts| <= MAX_INSTS
      modifies this
      ensures ok <==> Room(old(visits), |old(insts)|, Visits(Repeat(body, min, max, greedy)) - 1, Peak(Repeat(body, min, max, greedy)))
      ensures ok ==> insts == old(insts) + Emit(Repeat(body, min, max, greedy), |old(insts)|, old(loopDepth))
      ensures ok ==> visits == old(visits) + Visits(Repeat(body, min, max, greedy)) - 1 && loopDepth == old(loopDepth)
      ensures ok ==> Usage(regs, hasBackrefs) == Usage(old(regs), old(hasBackrefs)).Plus(CodeUsage(Emit(Repeat(body, min, max, greedy), |old(insts)|, old(loopDepth))))
      decreases body, 5
    {
      hide EmitCopies, EmitLoop, EmitOptional, CodeUsage, CopiesPeak, LoopPeak, OptionalPeak, OptionalVisits, Size, Times;
      ghost var was, at, d := insts, |insts|, loopDepth;
      var zero := if min == 0 then GroupSpan(body) else None;
      CopiesPeakCovers(body, min);
      ok := CompileCopies(body, min);
      if !ok {
        return;
      }
      match OptionalCopies(min, max)
      case None =>
        UsageAppend(EmitCopies(body, min, at, d), EmitLoop(body, greedy, zero, |insts|, d));
        ok := CompileLoop(body, greedy, zero);
      case Some(k) =>
        UsageAppend(EmitCopies(body, min, at, d), EmitOptional(body, k, greedy, zero, |insts|, d));
        ok := CompileOptional(body, k, greedy, zero);
    }

    method CompileCopies(body: Node, k: nat) returns (ok: bool)
      requires visits <= MAX_VISITS && |insts| <= MAX_INSTS
      modifies this
      ensures ok <==> Room(old(visits), |old(insts)|, Times(k, Visits(body)), CopiesPeak(body, k))
      ensures ok ==> insts == old(insts) + EmitCopies(body, k, |old(insts)|, old(loopDepth))
      ensures ok ==> visits == old(visits) + Times(k, Visits(body)) && loopDepth == old(loopDepth)
      ensures ok ==> Usage(regs, hasBackrefs) == Usage(old(regs), old(hasBackrefs)).Plus(CodeUsage(EmitCopies(body, k, |old(insts)|, old(loopDepth))))
      decreases body, 2
    {
      hide Emit, Size, Peak, Visits, CodeUsage, EmitCopies, CopiesPeak, Times;
      ghost var d, was, used := loopDepth, insts, Usage(regs, hasBackrefs);
      ghost var all := EmitCopies(body, k, |insts|, d);
      PeakCoversSize(body);
      assert k - 0 == k;
      for j := 0 to k
        invariant visits <= MAX_VISITS && |insts| <= MAX_INSTS && loopDepth == d
        invariant visits + Times(k - j, Visits(body)) == old(visits) + Times(k, Visits(body))
        invariant insts + EmitCopies(body, k - j, |insts|, d) == was + all
        invariant Room(visits, |insts|, Times(k - j, Visits(body)), CopiesPeak(body, k - j))
                  <==> Room(old(visits), |old(insts)|, Times(k, Visits(body)), CopiesPeak(body, k))
        invariant Usage(regs, hasBackrefs).Plus(CodeUsage(EmitCopies(body, k - j, |insts|, d))) == used.Plus(CodeUsage(all))
      {
        ghost var at, before := |insts|, insts;
        CopiesUnfold(body, k - j, at, d);
        ok := CompileNode(body);
        if !ok {
          return;
        }
        AltContinues(was, all, before, Emit(body, at, d), EmitCopies(body, k - j - 1, at + Size(body), d));
      }
      CopiesUnfold(body, 0, |insts|, d);
      ok := true;
    }

    method CompileLoop(body: Node, greedy: bool, zero: Span) returns (ok: bool)
      requires visits <= MAX_VISITS && |insts| <= MAX_INSTS
      modifies this
      ensures ok <==> Room(old(visits), |old(insts)|, Visits(body), LoopPeak(body, zero))
      ensures ok ==> insts == old(insts) + EmitLoop(body, greedy, zero, |old(insts)|, old(loopDepth))
      ensures ok ==> visits == old(visits) + Visits(body) && loopDepth == old(loopDepth)
      ensures ok ==> Usage(regs, hasBackrefs) == Usage(old(regs), old(hasBackrefs)).Plus(CodeUsage(EmitLoop(body, greedy, zero, |old(insts)|, old(loopDepth))))
      decreases body, 3
    {
      hide Emit, EmitLoop, LoopDraft, Size, Peak, LoopPeak, Visits, CodeUsage, MinLen;
      ghost var was, d := insts, loopDepth;
      LoopUsage(body, greedy, zero, |insts|, d);
      LoopPatched(was, body, greedy, zero, d);
      var first, split := |insts|, |insts| + One(zero.Some?);
      ok := CompileLoopDraft(body, zero);
      if !ok {
        return;
      }
      if CanBeEmpty(body) {
        regs := Max(regs, loopDepth + 1);
      }
      var end := |insts|;
      var clear := end - One(zero.Some?);
      if CanBeEmpty(body) {
        insts := insts[clear - 2 := ProgressCheck(loopDepth, end)];
      }
      insts := insts[split := Order(greedy, split + 1, end)];
      if zero.Some? {
        insts := insts[first := Order(greedy, split + 1, clear)];
      }
    }

    /** A loop, its two splits and its check left to be patched. */
    method CompileLoopDraft(body: Node, zero: Span) returns (ok: bool)
      requires visits <= MAX_VISITS && |insts| <= MAX_INSTS
      modifies this
      ensures ok <==> Room(old(visits), |old(insts)|, Visits(body), LoopPeak(body, zero))
      ensures ok ==> insts == old(insts) + LoopDraft(body, zero, |old(insts)|, old(loopDepth))
      ensures ok ==> visits == old(visits) + Visits(body) && loopDepth == old(loopDepth)
      ensures ok ==> var c := One(CanBeEmpty(body));
        Usage(regs, hasBackrefs) == Usage(old(regs), old(hasBackrefs)).Plus(CodeUsage(Emit(body, |old(insts)| + One(zero.Some?) + 1 + c, old(loopDepth) + c)))
      decreases body, 2
    {
      hide Emit, EmitIteration, Size, Peak, Visits, CodeUsage, MinLen, LoopDraft, LoopPeak, When, Clearing, Usage.Plus, Max;
      PeakCoversSize(body);
      RoomForLoop(visits, |insts|, body, zero);
      ghost var was := insts;
      var split := |insts| + One(zero.Some?);
      ok := PushSplits(zero.Some?);
      if !ok {
        return;
      }
      ok := CompileIteration(body, CanBeEmpty(body));
      if !ok {
        return;
      }
      ok := PushLoopEnd(split, zero);
      LoopDraftIs(was, body, zero, loopDepth);
    }

    /** The split that can clear, if there is one, and the loop's own. */
    method PushSplits(two: bool) returns (ok: bool)
      requires |insts| <= MAX_INSTS
      modifies this`insts
      ensures ok <==> |old(insts)| + One(two) + 1 <= MAX_INSTS
      ensures ok ==> insts == old(insts) + (When(two, Split(0, 0)) + [Split(0, 0)])
    {
      if two {
        ok := Push(Split(0, 0));
        if !ok {
          return;
        }
      }
      ok := Push(Split(0, 0));
    }

    method PushLoopEnd(split: nat, zero: Span) returns (ok: bool)
      requires |insts| <= MAX_INSTS
      modifies this`insts
      ensures ok <==> |old(insts)| + One(zero.Some?) + 1 <= MAX_INSTS
      ensures ok ==> insts == old(insts) + ([Jmp(split)] + Clearing(zero))
    {
      ok := Push(Jmp(split));
      if !ok {
        return;
      }
      if zero.Some? {
        ok := Push(ClearGroups(zero.value.0, zero.value.1));
      }
    }

    /** An iteration's start, if it is checked: one more register is live. */
    method PushStart(checked: bool) returns (ok: bool)
      requires |insts| <= MAX_INSTS
      modifies this`insts, this`loopDepth
      ensures ok <==> |old(insts)| + One(checked) <= MAX_INSTS
      ensures ok ==> insts == old(insts) + When(checked, ProgressStart(old(loopDepth)))
      ensures ok ==> loopDepth == old(loopDepth) + One(checked)
    {
      ok := true;
      if checked {
        ok := Push(ProgressStart(loopDepth));
        if ok {
          loopDepth := loopDepth + 1;
        }
      }
    }

    /** An iteration's end, the exit of its check left to be patched. */
    method PushCheck(checked: bool) returns (ok: bool)
      requires |insts| <= MAX_INSTS
      modifies this`insts
      ensures ok <==> |old(insts)| + One(checked) <= MAX_INSTS
      ensures ok ==> insts == old(insts) + When(checked, ProgressCheck(loopDepth, 0))
    {
      ok := true;
      if checked {
        ok := Push(ProgressCheck(loopDepth, 0));
      }
    }

    /** A checked or unchecked iteration. */
    method CompileIteration(body: Node, checked: bool) returns (ok: bool)
      requires visits <= MAX_VISITS && |insts| <= MAX_INSTS
      modifies this
      ensures ok <==> Room(old(visits), |old(insts)|, Visits(body), Max(One(checked) + Peak(body), 2 * One(checked) + Size(body)))
      ensures ok ==> visits <= MAX_VISITS && |insts| <= MAX_INSTS
      ensures ok ==> insts == old(insts) + EmitIteration(body, checked, 0, |old(insts)|, old(loopDepth))
      ensures ok ==> visits == old(visits) + Visits(body) && loopDepth == old(loopDepth)
      ensures ok ==> Usage(regs, hasBackrefs) == Usage(old(regs), old(hasBackrefs)).Plus(
        CodeUsage(Emit(body, |old(insts)| + One(checked), old(loopDepth) + One(checked))))
      decreases body, 1
    {
      hide Emit, EmitIteration, When, Size, Peak, Visits, CodeUsage, Usage.Plus;
      PeakCoversSize(body);
      ghost var was := insts;
      ok := PushStart(checked);
      if !ok {
        return;
      }
      ok := CompileNode(body);
      if !ok {
        return;
      }
      loopDepth := loopDepth - One(checked);
      ok := PushCheck(checked);
      IterationDraftIs(was, body, checked, loopDepth);
    }

    /**
     * An optional copy after its split, targets left to be patched. A body that emits nothing leaves no
     * trace: a split between two equal targets would only try the rest twice.
     */
    method CompileCopy(body: Node, checked: bool) returns (ok: bool, nothing: bool)
      requires visits <= MAX_VISITS && |insts| <= MAX_INSTS
      modifies this
      ensures ok <==> Room(old(visits), |old(insts)|, Visits(body), CopyPeak(body, checked))
      ensures ok ==> visits <= MAX_VISITS && |insts| <= MAX_INSTS
      ensures ok ==> nothing == Silent(body)
      ensures ok ==> insts == old(insts) + if nothing then [] else
                       [Split(0, 0)] + EmitIteration(body, checked, 0, |old(insts)| + 1, old(loopDepth))
      ensures ok ==> visits == old(visits) + Visits(body) && loopDepth == old(loopDepth)
      ensures ok ==> Usage(regs, hasBackrefs) == Usage(old(regs), old(hasBackrefs)).Plus(
        CodeUsage(Emit(body, |old(insts)| + 1 + One(checked), old(loopDepth) + One(checked))))
      decreases body, 1
    {
      hide Emit, EmitIteration, When, Size, Silent, Peak, Visits, CodeUsage, Usage.Plus;
      PeakCoversSize(body);
      SilentIsEmpty(body);
      nothing := false;
      ghost var was := insts;
      var split := |insts|;
      ok := Push(Split(0, 0));
      if !ok {
        return;
      }
      ok := PushStart(checked);
      if !ok {
        return;
      }
      var before := |insts|;
      ok := CompileNode(body);
      if !ok {
        return;
      }
      loopDepth := loopDepth - One(checked);
      if |insts| == before {
        CutBack(was, [Split(0, 0)], When(checked, ProgressStart(loopDepth)));
        insts := insts[..split];
        nothing := true;
      } else {
        ok := PushCheck(checked);
        CopyDraftIs(was, body, checked, loopDepth);
      }
    }

    /** An optional copy with its split and its check listed for patching. */
    method CompileListedCopy(body: Node, checked: bool, splits: seq<nat>, checks: seq<nat>, ghost from: nat,
                             greedy: bool, ghost exit: nat, ghost end: nat)
      returns (ok: bool, nothing: bool, splits': seq<nat>, checks': seq<nat>)
      requires visits <= MAX_VISITS && from <= |insts| <= MAX_INSTS && SplitsFit(splits, checks, from, |insts|)
      modifies this
      ensures ok <==> Room(old(visits), |old(insts)|, Visits(body), CopyPeak(body, checked))
      ensures ok ==> visits <= MAX_VISITS && |insts| <= MAX_INSTS
      ensures ok ==> nothing == Silent(body)
      ensures ok && nothing ==> insts == old(insts) && splits' == splits && checks' == checks
      ensures ok && !nothing ==>
        && splits' == splits + [|old(insts)|] && checks' == (if checked then checks + [|insts| - 1] else checks)
        && |insts| == |old(insts)| + 1 + Size(body) + 2 * One(checked)
        && SplitsFit(splits', checks', from, |insts|)
        && Resolved(insts, splits', checks', greedy, exit, end, loopDepth)
           == Resolved(old(insts), splits, checks, greedy, exit, end, loopDepth)
              + ([Order(greedy, |old(insts)| + 1, if splits == [] then exit else end)]
                 + EmitIteration(body, checked, end, |old(insts)| + 1, loopDepth))
      ensures ok ==> visits == old(visits) + Visits(body) && loopDepth == old(loopDepth)
      ensures ok ==> Usage(regs, hasBackrefs) == Usage(old(regs), old(hasBackrefs)).Plus(
        CodeUsage(Emit(body, |old(insts)| + 1 + One(checked), old(loopDepth) + One(checked))))
      decreases body, 2
    {
      hide Emit, EmitIteration, Size, Silent, Peak, Visits, CodeUsage, Usage.Plus, CopyPeak, Room, Resolved, SplitsFit;
      ghost var before := insts;
      var at := |insts|;
      splits', checks' := splits, checks;
      ok, nothing := CompileCopy(body, checked);
      if !ok || nothing {
        return;
      }
      ResolvedCopy(before, splits, checks, from, greedy, exit, end, loopDepth, body, checked);
      SplitsFitMore(splits, checks, from, at, |insts|);
      splits' := splits + [at];
      if checked {
        checks' := checks + [|insts| - 1];
      }
    }

    /** The optional copies, their splits and checks listed for patching. */
    method CompileOptionalCopies(body: Node, k: nat, greedy: bool, ghost exit: nat, ghost end: nat)
      returns (ok: bool, splits: seq<nat>, checks: seq<nat>)
      requires visits <= MAX_VISITS && |insts| <= MAX_INSTS
      modifies this
      ensures ok <==> Room(old(visits), |old(insts)|, OptionalVisits(body, k),
                               if k > 0 && Silent(body) then CopyPeak(body, Checked(body, k)) else OptionalCopiesPeak(body, k))
      ensures ok ==> visits == old(visits) + OptionalVisits(body, k) && loopDepth == old(loopDepth) && |insts| <= MAX_INSTS
      ensures ok ==> (splits == [] <==> k == 0 || Silent(body)) && SplitsFit(splits, checks, |old(insts)|, |insts|)
      ensures ok && splits == [] ==> insts == old(insts) && Usage(regs, hasBackrefs) == Usage(old(regs), old(hasBackrefs))
      ensures ok && splits != [] ==>
        var all := EmitOptionalCopies(body, k, greedy, exit, end, |old(insts)|, loopDepth);
        && Resolved(insts, splits, checks, greedy, exit, end, loopDepth) == old(insts) + all
        && Usage(regs, hasBackrefs).Plus(Pending(checks, loopDepth)) == Usage(old(regs), old(hasBackrefs)).Plus(CodeUsage(all))
      decreases body, 3
    {
      hide Emit, EmitIteration, EmitOptionalCopies, Size, CopiesSize, Silent, Peak, OptionalCopiesPeak, Visits, Times;
      hide CodeUsage, Resolved, MinLen, SplitsFit, Usage.Plus, Max, Room, CopyPeak, Underway, Order, Pending;
      ghost var c := Copying(body, k, greedy, exit, end, loopDepth, insts, Usage(regs, hasBackrefs), visits);
      splits, checks := [], [];
      SilentUsage(body, |insts| + 1 + One(Checked(body, k)), loopDepth + One(Checked(body, k)));
      SplitsFitNone(|insts|);
      PlusNothing(Usage(regs, hasBackrefs));
      UnderwayStart(c);
      for j := 0 to k
        invariant visits <= MAX_VISITS && |c.was| <= |insts| <= MAX_INSTS && loopDepth == c.d
        invariant |splits| == j && SplitsFit(splits, checks, |c.was|, |insts|) && (j > 0 ==> !Silent(body))
        invariant j == 0 ==> insts == c.was && visits == c.visits && Usage(regs, hasBackrefs) == c.used && checks == []
        invariant Underway(c, j, insts, splits, checks, Usage(regs, hasBackrefs), visits)
      {
        ghost var code0, splits0, checks0, used0, visits0 := insts, splits, checks, Usage(regs, hasBackrefs), visits;
        UnderwayRoom(c, j, code0, splits0, checks0, used0, visits0);
        var nothing;
        ok, nothing, splits, checks := CompileListedCopy(body, Checked(body, k - j), splits, checks, |c.was|, greedy, exit, end);
        if !ok {
          return;
        }
        if nothing {
          break;
        }
        UnderwayNext(c, j, code0, splits0, checks0, used0, visits0, insts, splits, checks, Usage(regs, hasBackrefs), visits);
      }
      if splits != [] || k == 0 {
        UnderwayEnds(c, insts, splits, checks, Usage(regs, hasBackrefs), visits);
      }
      ok := true;
    }

    method CompileOptional(body: Node, k: nat, greedy: bool, zero: Span) returns (ok: bool)
      requires visits <= MAX_VISITS && |insts| <= MAX_INSTS
      modifies this
      ensures ok <==> Room(old(visits), |old(insts)|, OptionalVisits(body, k), OptionalPeak(body, k, zero))
      ensures ok ==> insts == old(insts) + EmitOptional(body, k, greedy, zero, |old(insts)|, old(loopDepth))
      ensures ok ==> visits == old(visits) + OptionalVisits(body, k) && loopDepth == old(loopDepth)
      ensures ok ==> Usage(regs, hasBackrefs) == Usage(old(regs), old(hasBackrefs)).Plus(
        CodeUsage(EmitOptional(body, k, greedy, zero, |old(insts)|, old(loopDepth))))
      decreases body, 4
    {
      hide EmitOptionalCopies, EmitOptional, Size, CopiesSize, Silent, OptionalCopiesPeak, CopyPeak, OptionalVisits, Times, OptionalPeak, Room;
      hide CodeUsage, Resolved, MinLen, SplitsFit, Emit, Visits, Peak, Order, Clearing, Tail, Usage.Plus, Pending, Max;
      ghost var was, d := insts, loopDepth;
      ghost var stop := |was| + CopiesSize(body, k);
      ghost var exit, end := stop + One(zero.Some?), stop + 2 * One(zero.Some?);
      ghost var copies := EmitOptionalCopies(body, k, greedy, exit, end, |was|, d);
      OptionalPeakIs(body, k, zero);
      NoOptional(body, k, greedy, zero, |was|, d);
      var splits, checks;
      ok, splits, checks := CompileOptionalCopies(body, k, greedy, exit, end);
      if !ok {
        return;
      }
      if splits == [] {
        PlusNothing(Usage(regs, hasBackrefs));
        return;
      }
      ChecksUse(regs, hasBackrefs, checks, loopDepth);
      if checks != [] {
        regs := Max(regs, loopDepth + 1);
      }
      OptionalUsage(body, k, greedy, zero, |was|, d);
      ok := FinishOptional(splits, checks, greedy, zero, |was|, was + copies);
      JoinTail(was, copies, zero, stop);
    }

    /** The copies' splits and checks patched, and past them the clearing block. */
    method FinishOptional(splits: seq<nat>, checks: seq<nat>, greedy: bool, zero: Span, ghost from: nat, ghost all: Code)
      returns (ok: bool)
      requires |insts| <= MAX_INSTS && SplitsFit(splits, checks, from, |insts|)
      requires all == Resolved(insts, splits, checks, greedy, |insts| + One(zero.Some?), |insts| + 2 * One(zero.Some?), loopDepth)
      modifies this`insts
      ensures ok <==> |old(insts)| + 2 * One(zero.Some?) <= MAX_INSTS
      ensures ok ==> insts == all + Tail(zero, |old(insts)| + 2)
    {
      hide Resolved, SplitsFit, Order, Clearing;
      ghost var draft := insts;
      var jump := |insts|;
      if zero.Some? {
        ok := PushClear(zero);
        if !ok {
          return;
        }
        ResolvedAppend(draft, [Jmp(jump + 2)] + Clearing(zero), splits, checks, from, greedy, jump + 1, jump + 2, loopDepth);
      }
      SplitsFitLonger(splits, checks, from, jump, |insts|);
      PatchCopies(splits, checks, greedy, jump + One(zero.Some?));
      assert all + [] == all;
      ok := true;
    }

    /** The jump past the clearing block, and the block. */
    method PushClear(zero: Span) returns (ok: bool)
      requires |insts| <= MAX_INSTS && zero.Some?
      modifies this`insts
      ensures ok <==> |old(insts)| + 2 <= MAX_INSTS
      ensures ok ==> insts == old(insts) + ([Jmp(|old(insts)| + 2)] + Clearing(zero))
    {
      var jump := |insts|;
      ok := Push(Jmp(0));
      if !ok {
        return;
      }
      ok := Push(ClearGroups(zero.value.0, zero.value.1));
      if ok {
        insts := insts[jump := Jmp(|insts|)];
      }
    }

    /** The first copy is skipped to `clear`, the others to the end, where the checks exit too. */
    method PatchCopies(splits: seq<nat>, checks: seq<nat>, greedy: bool, clear: nat)
      requires SplitsFit(splits, checks, 0, |insts|)
      modifies this`insts
      ensures insts == Resolved(old(insts), splits, checks, greedy, clear, |old(insts)|, loopDepth)
    {
      var end := |insts|;
      for k := 0 to |splits|
        invariant |insts| == end
        invariant insts == Resolved(old(insts), splits[..k], [], greedy, clear, end, loopDepth)
      {
        assert splits[..k + 1] == splits[..k] + [splits[k]];
        insts := insts[splits[k] := Order(greedy, splits[k] + 1, if k == 0 then clear else end)];
      }
      assert splits[..|splits|] == splits;
      for k := 0 to |checks|
        invariant |insts| == end
        invariant insts == Resolved(old(insts), splits, checks[..k], greedy, clear, end, loopDepth)
      {
        assert checks[..k + 1] == checks[..k] + [checks[k]];
        insts := insts[checks[k] := ProgressCheck(loopDepth, end)];
      }
      assert checks[..|checks|] == checks;
    }
  }

  // ----- whole programs -----

  /** A PikeVM thread waits at a class or at the match. */
  predicate Waits(i: Inst) {
    i.Class? || i.Match?
  }

  /** The instructions before `pc` at which a thread waits. */
  function WaitsBefore(code: Code, pc: nat): nat
    requires pc <= |code|
  {
    if pc == 0 then 0 else WaitsBefore(code, pc - 1) + One(Waits(code[pc - 1]))
  }

  /** Each waiting instruction has a row of its own. */
  lemma {:induction false} RowsApart(code: Code, a: nat, b: nat)
    requires a < b <= |code| && Waits(code[a])
    ensures WaitsBefore(code, a) < WaitsBefore(code, b)
    decreases b
  {
    if a + 1 < b {
      RowsApart(code, a, b - 1);
    }
  }

  /** What a program says beside its code agrees with the code. */
  ghost predicate Consistent(p: Program) {
    && |p.rowOf| == |p.insts| && p.rows == WaitsBefore(p.insts, |p.insts|)
    && (forall pc :: 0 <= pc < |p.insts| && Waits(p.insts[pc]) ==> p.rowOf[pc] == WaitsBefore(p.insts, pc))
    && Usage(p.regs, p.hasBackrefs) == CodeUsage(p.insts)
  }

  /** The row of an instruction that holds no thread. */
  const NO_ROW: nat := MAX_LEN

  /** The rows of a program's waiting instructions. */
  method Rows(code: Code) returns (rowOf: seq<nat>, rows: nat)
    ensures |rowOf| == |code| && rows == WaitsBefore(code, |code|)
    ensures forall pc :: 0 <= pc < |code| && Waits(code[pc]) ==> rowOf[pc] == WaitsBefore(code, pc)
  {
    rows := 0;
    rowOf := [];
    for pc := 0 to |code|
      invariant |rowOf| == pc && rows == WaitsBefore(code, pc)
      invariant forall q :: 0 <= q < pc && Waits(code[q]) ==> rowOf[q] == WaitsBefore(code, q)
    {
      if Waits(code[pc]) {
        rowOf := rowOf + [rows];
        rows := rows + 1;
      } else {
        rowOf := rowOf + [NO_ROW];
      }
    }
  }

  /**
   * Compiles a pattern with `groupCount` groups between the slots of the match, unless it is over a ceiling:
   * then, and only then, there is no program.
   */
  method Compile(n: Node, groupCount: nat) returns (r: Option<Program>)
    ensures r.None? <==> Visits(n) > 8_388_608 || Max(1 + Peak(n), Size(n) + 3) > 1_048_576
    ensures r.Some? ==> r.value.insts == EmitProgram(n) && r.value.slots == 2 * (groupCount + 1)
    ensures r.Some? ==> Consistent(r.value)
  {
    hide Emit, EmitGroup, Size, Peak, Visits, CodeUsage;
    var c := new Compiler();
    var ok := c.CompileGroup(0, n);
    if !ok {
      return None;
    }
    ok := c.Push(Match);
    if !ok {
      return None;
    }
    WholeIsGroup(n);
    UsageAppend(EmitGroup(0, n, 0, 0), [Match]);
    UsageOne(Match);
    var rowOf, rows := Rows(c.insts);
    r := Some(Program(c.insts, rowOf, rows, 2 * (groupCount + 1), c.regs, c.hasBackrefs));
  }

  lemma WholeIsGroup(n: Node)
    ensures EmitWhole(n) == EmitGroup(0, n, 0, 0)
  {
  }
}