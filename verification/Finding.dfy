/** Finding the leftmost match: what is ruled out before a matcher starts, and which matcher runs. */
module Finding {
  import opened Options
  import opened CharSets
  import opened Syntax
  import opened Denotation
  import opened Lengths
  import opened Paths
  import opened Machine
  import opened Nesting
  import opened Emission
  import opened CompileCorrect
  import opened Compiler
  import opened Scan
  import opened Searches
  import opened Futures
  import opened Narrowing
  import opened Literals
  import opened Prefilter
  import Backtrack
  import Pike
  import PikeSearch

  datatype Flags = Flags(multiline: bool, caseBlind: bool, quoted: bool)

  datatype Matcher = OnPike | OnBacktrack

  /** What a call needs from each match: whether there is one, its bounds, or every group's. */
  datatype Need = Exists | Bounds | Groups

  datatype Regex = Regex(
    flags: Flags,
    groupCount: nat,
    groupParent: seq<nat>,
    minLen: nat,
    program: Option<Program>,
    matcher: Matcher,
    required: Option<CharSet>,
    prefix: string,
    anchored: bool,
    prefilterOn: bool)

  /** The pattern's program is over a ceiling and the input long enough for it, or the leftmost match's slots. */
  datatype Outcome = Limit | Found(slots: Option<Slots>)

  /** A regular expression as built from the pattern `n`. */
  ghost predicate Built(r: Regex, n: Node) {
    && Branching(n) && r.minLen == MinLen(n)
    && (r.program.Some? ==>
          r.program.value.insts == EmitProgram(n) && r.program.value.slots == 2 * (r.groupCount + 1) && Consistent(r.program.value))
    && (r.required.Some? ==> RequiredOf(n, r.required.value))
    && Begins(n, r.prefix, false)
    && (r.anchored ==> Anchored(n) && !r.flags.multiline)
  }

  method Build(n: Node, groupCount: nat, groupParent: seq<nat>, flags: Flags) returns (r: Regex)
    requires Branching(n)
    ensures Built(r, n) && r.flags == flags && r.groupCount == groupCount && r.groupParent == groupParent
    ensures r.program.None? <==> Visits(n) > 8_388_608 || Max(1 + Peak(n), Size(n) + 3) > 1_048_576
    ensures r.anchored <==> !flags.multiline && Anchored(n)
    ensures (r.required.Some? ==> Small(r.required.value)) && ByteLen(r.prefix) <= MAX_PREFIX_BYTES
    ensures r.matcher == OnPike && r.prefilterOn
  {
    hide RequiredOf, Begins, Consistent, Visits, Peak, Size, EmitProgram;
    var required := Required(n);
    var prefix, whole := Prefix(n);
    BeginsWeaker(n, prefix, whole);
    var program := Compile(n, groupCount);
    r := Regex(flags, groupCount, groupParent, MinLen(n), program, OnPike, required, prefix,
               !flags.multiline && Anchored(n), true);
  }

  // ----- the answer, and what is known of it -----

  /** The matches from each position, tracking `width` slots. */
  ghost function AllMatches(n: Node, e: Env, width: nat): (ms: seq<seq<State>>)
    ensures |ms| == |e.hay| + 1
    ensures forall q :: 0 <= q < |ms| ==> ms[q] == Matches(n, e, Start(q, width).s)
  {
    seq(|e.hay| + 1, q requires 0 <= q <= |e.hay| => Matches(n, e, Start(q, width).s))
  }

  /** The preferred match of the leftmost position from `start` on that has one. */
  ghost function Answer(n: Node, e: Env, width: nat, start: nat): Option<State> {
    Leftmost(AllMatches(n, e, width), start)
  }

  lemma NoAnswer(n: Node, e: Env, width: nat, start: nat)
    requires start <= |e.hay| && forall q :: start <= q <= |e.hay| ==> AllMatches(n, e, width)[q] == []
    ensures Answer(n, e, width, start) == None
  {
    LeftmostSkips(AllMatches(n, e, width), start, |e.hay| + 1);
  }

  lemma MatchIsPath(n: Node, e: Env, width: nat, q: nat)
    requires q <= |e.hay|
    ensures var rs := AllMatches(n, e, width)[q];
            rs != [] ==> Path(Group(Some(0), n), e, Start(q, width).s, rs[0])
  {
    hide Results, Path;
    var rs := AllMatches(n, e, width)[q];
    if rs != [] {
      ResultsAreReached(Group(Some(0), n), e, Start(q, width).s, rs[0]);
    }
  }

  lemma TooShort(n: Node, e: Env, width: nat, start: nat)
    requires start <= |e.hay| && MinLen(n) > |e.hay| - start
    ensures Answer(n, e, width, start) == None
  {
    hide Results, MinLen;
    forall q | start <= q <= |e.hay| ensures AllMatches(n, e, width)[q] == [] {
      LongerThanTheText(n, e, width, q);
    }
    NoAnswer(n, e, width, start);
  }

  lemma LongerThanTheText(n: Node, e: Env, width: nat, q: nat)
    requires q <= |e.hay| && MinLen(n) > |e.hay| - q
    ensures AllMatches(n, e, width)[q] == []
  {
    hide Results;
    var rs := AllMatches(n, e, width)[q];
    ResultsAreLong(Group(Some(0), n), e, Start(q, width).s);
    assert MinLen(Group(Some(0), n)) == MinLen(n);
    NonePast(e, rs, q + MinLen(n));
  }

  lemma AnchoredElsewhere(n: Node, e: Env, width: nat, q: nat)
    requires Branching(n) && Anchored(n) && !e.multiline && 0 < q <= |e.hay|
    ensures AllMatches(n, e, width)[q] == []
  {
    hide Path;
    var rs := AllMatches(n, e, width)[q];
    MatchIsPath(n, e, width, q);
    if rs != [] {
      AnchoredBegins(Group(Some(0), n), e, Start(q, width).s, rs[0]);
    }
  }

  lemma BeginsHere(n: Node, e: Env, width: nat, q: nat, prefix: string)
    requires Begins(n, prefix, false) && q <= |e.hay| && AllMatches(n, e, width)[q] != []
    ensures OccursAt(e.hay, q, prefix)
  {
    hide Path, Results;
    MatchIsPath(n, e, width, q);
    BeginsGroup(Some(0), n, prefix, false);
    assert BeginsAt(e, q, AllMatches(n, e, width)[q][0].pos, prefix, false);
  }

  lemma RequiredHere(n: Node, e: Env, width: nat, q: nat, chars: CharSet)
    requires RequiredOf(n, chars) && q <= |e.hay| && AllMatches(n, e, width)[q] != []
    ensures exists i :: q <= i && HeldAt(e.hay, i, chars)
  {
    hide Path, Results;
    MatchIsPath(n, e, width, q);
    RequiredOfGroup(Some(0), n, chars);
    assert HoldsOne(e, q, AllMatches(n, e, width)[q][0].pos, chars);
  }

  /** What the matchers are told is true of the matches. */
  lemma IsFiltered(n: Node, e: Env, width: nat, start: nat, prefix: string, anchored: bool)
    requires Branching(n) && start <= |e.hay|
    requires Begins(n, prefix, false) || prefix == ""
    requires anchored ==> Anchored(n) && !e.multiline
    ensures Filtered(e, AllMatches(n, e, width), start, prefix, anchored)
  {
    hide Begins, Anchored;
    var ms := AllMatches(n, e, width);
    forall q | start <= q < |ms| && ms[q] != [] ensures OccursAt(e.hay, q, prefix) {
      if prefix == "" {
        EmptyOccurs(e.hay, q);
      } else {
        BeginsHere(n, e, width, q, prefix);
      }
    }
    if anchored {
      forall q | start < q < |ms| ensures ms[q] == [] {
        AnchoredElsewhere(n, e, width, q);
      }
    }
  }

  // ----- the program's matches -----

  lemma ProgramAnswers(n: Node, e: Env, width: nat)
    ensures AllYield(EmitProgram(n), e, width, AllMatches(n, e, width))
  {
    hide Results, EmitProgram, Run;
    var ms := AllMatches(n, e, width);
    forall q | 0 <= q < |ms| ensures Yields(EmitProgram(n), e, [Start(q, width)], ms[q]) {
      ProgramYields(n, e, Start(q, width).s);
    }
    forall q, i | 0 <= q < |ms| && 0 <= i < |ms[q]| ensures |ms[q][i].slots| == width {
      assert Onward(e, Start(q, width).s, ms[q][i]);
    }
  }

  lemma ProgramIsRunnable(n: Node, p: Program)
    requires p.insts == EmitProgram(n) && Consistent(p)
    ensures Backtrack.Runnable(p)
    ensures !p.hasBackrefs ==> Pike.Pikeable(p)
  {
    hide EmitProgram, Nested, CodeUsage;
    ProgramIsNested(n);
    UsageIsExact(p.insts);
  }

  /** Tracking fewer slots gives the same match, its slots cut to those. */
  lemma AnswerNarrows(n: Node, e: Env, width: nat, all: nat, start: nat)
    requires NoBackrefs(EmitProgram(n)) && width <= all && start <= |e.hay|
    ensures match Answer(n, e, all, start)
            case None => Answer(n, e, width, start) == None
            case Some(s) => Answer(n, e, width, start) == Some(Narrow(s, width))
    decreases |e.hay| - start
  {
    hide Results, EmitProgram, Yields, AllYield, Matches;
    var ms, ws := AllMatches(n, e, all), AllMatches(n, e, width);
    MatchesNarrow(n, e, width, all, start);
    if start < |e.hay| {
      AnswerNarrows(n, e, width, all, start + 1);
    } else {
      assert Leftmost(ms, start + 1) == None && Leftmost(ws, start + 1) == None;
    }
  }

  lemma MatchesNarrow(n: Node, e: Env, width: nat, all: nat, q: nat)
    requires NoBackrefs(EmitProgram(n)) && width <= all && q <= |e.hay|
    ensures AllMatches(n, e, width)[q] == NarrowAll(AllMatches(n, e, all)[q], width)
  {
    hide Results, EmitProgram, Run;
    var p := EmitProgram(n);
    ProgramAnswers(n, e, width);
    ProgramAnswers(n, e, all);
    YieldsNarrow(p, e, Start(q, all), AllMatches(n, e, all)[q], width);
    assert NarrowThread(Start(q, all), width) == Start(q, width);
    YieldsOnce(p, e, [Start(q, width)], AllMatches(n, e, width)[q], NarrowAll(AllMatches(n, e, all)[q], width));
  }

  // ----- one call -----

  /** The slots a call tracks. */
  function Width(p: Program, need: Need): nat {
    match need
    case Exists => 0
    case Bounds => 2
    case Groups => p.slots
  }

  /** The slots of a match. */
  function AllSlots(r: Regex): nat {
    2 * (r.groupCount + 1)
  }

  /** A program with back-references runs on the backtracker, any other on the matcher chosen. */
  predicate UsesBacktracker(r: Regex) {
    r.program.Some? && (r.program.value.hasBackrefs || r.matcher == OnBacktrack)
  }

  /** What a call reports of a match's slots: all of them from the backtracker, from the PikeVM those needed. */
  function Tracked(r: Regex, need: Need, slots: Slots): (t: Slots)
    ensures |t| == AllSlots(r)
    ensures (need == Groups || UsesBacktracker(r)) && |slots| == AllSlots(r) ==> t == slots
  {
    var width := if UsesBacktracker(r) || need == Groups then AllSlots(r) else if need == Bounds then 2 else 0;
    seq(AllSlots(r), k requires 0 <= k < AllSlots(r) => if k < width && k < |slots| then slots[k] else None)
  }

  function Reported(r: Regex, need: Need, answer: Option<State>): Option<Slots> {
    if answer.Some? then Some(Tracked(r, need, answer.value.slots)) else None
  }

  /** The matchers' scratch memory for one call. */
  class Call {
    var need: Need
    var backtrack: Backtrack.Cache?
    var pike: Pike.Cache?
    ghost var repr: set<object>

    /** The memory there is belongs to the matcher that runs the regular expression. */
    ghost predicate Valid(r: Regex)
      requires r.program.Some? ==> Consistent(r.program.value)
      reads this, repr
    {
      && this in repr && (backtrack != null ==> UsesBacktracker(r)) && (pike != null ==> r.program.Some? && !UsesBacktracker(r))
      && (backtrack != null ==>
            && backtrack in repr && backtrack.slots in repr && backtrack.regs in repr && backtrack.slots != backtrack.regs
            && backtrack.slots.Length == r.program.value.slots && backtrack.regs.Length == r.program.value.regs)
      && (pike != null ==>
            && pike in repr && {pike.curr} + pike.clist.Footprint() + pike.nlist.Footprint() <= repr
            && this !in pike.clist.Footprint() + pike.nlist.Footprint()
            && PikeSearch.Ready(pike, r.program.value) && pike.width == Width(r.program.value, need))
    }

    constructor (need: Need)
      ensures this.need == need && backtrack == null && pike == null && repr == {this}
    {
      this.need := need;
      backtrack := null;
      pike := null;
      repr := {this};
    }
  }

  /** The environment a regular expression's flags ask for. */
  predicate Flagged(r: Regex, e: Env) {
    e.multiline == r.flags.multiline && e.caseBlind == r.flags.caseBlind
  }

  lemma {:induction false} BytesAreMore(text: string)
    ensures |text| <= ByteLen(text)
    decreases |text|
  {
    if text != "" {
      BytesAreMore(text[..|text| - 1]);
    }
  }

  /** What is ruled out before a matcher starts: each test that fails means that nothing matches. */
  method RuledOut(r: Regex, e: Env, start: nat, ghost n: Node) returns (out: bool)
    requires Built(r, n) && Flagged(r, e) && start <= |e.hay|
    ensures out ==> forall width :: Answer(n, e, width, start) == None
    ensures !out && r.prefilterOn && r.anchored ==> start == 0
  {
    hide RequiredOf, Begins, Anchored, AllMatches, Matches, EmitProgram, Answer, Consistent;
    if r.prefilterOn && r.anchored {
      if start > 0 {
        forall width ensures Answer(n, e, width, start) == None {
          AnchoredPast(n, e, width, start);
        }
        return true;
      }
      if !(|r.prefix| <= |e.hay| && e.hay[..|r.prefix|] == r.prefix) {
        forall width ensures Answer(n, e, width, start) == None {
          AnchoredElse(n, e, width, r.prefix);
        }
        return true;
      }
    }
    if r.prefilterOn && r.required.Some? {
      var at, _ := FindAny(e.hay, start, r.required.value);
      if at.None? {
        forall width ensures Answer(n, e, width, start) == None {
          RequiredNowhere(n, e, width, start, r.required.value);
        }
        return true;
      }
    }
    out := false;
  }

  lemma AnchoredPast(n: Node, e: Env, width: nat, start: nat)
    requires Branching(n) && Anchored(n) && !e.multiline && 0 < start <= |e.hay|
    ensures Answer(n, e, width, start) == None
  {
    forall q | start <= q <= |e.hay| ensures AllMatches(n, e, width)[q] == [] {
      AnchoredElsewhere(n, e, width, q);
    }
    NoAnswer(n, e, width, start);
  }

  lemma AnchoredElse(n: Node, e: Env, width: nat, prefix: string)
    requires Branching(n) && Anchored(n) && !e.multiline && Begins(n, prefix, false) && !(prefix <= e.hay)
    ensures Answer(n, e, width, 0) == None
  {
    hide Matches, Begins;
    forall q | 0 <= q <= |e.hay| ensures AllMatches(n, e, width)[q] == [] {
      if q > 0 {
        AnchoredElsewhere(n, e, width, q);
      } else if AllMatches(n, e, width)[q] != [] {
        BeginsHere(n, e, width, q, prefix);
      }
    }
    NoAnswer(n, e, width, 0);
  }

  lemma RequiredNowhere(n: Node, e: Env, width: nat, start: nat, chars: CharSet)
    requires RequiredOf(n, chars) && start <= |e.hay| && forall i :: start <= i ==> !HeldAt(e.hay, i, chars)
    ensures Answer(n, e, width, start) == None
  {
    hide Matches, RequiredOf;
    forall q | start <= q <= |e.hay| ensures AllMatches(n, e, width)[q] == [] {
      if AllMatches(n, e, width)[q] != [] {
        RequiredHere(n, e, width, q, chars);
      }
    }
    NoAnswer(n, e, width, start);
  }

  /** A search on the backtracker. */
  method OnTheBacktracker(r: Regex, call: Call, e: Env, start: nat, prefix: string, anchored: bool, ghost n: Node)
    returns (slots: Option<Slots>)
    requires Built(r, n) && UsesBacktracker(r) && call.Valid(r) && start <= |e.hay|
    requires Filtered(e, AllMatches(n, e, AllSlots(r)), start, prefix, anchored)
    modifies call, call.repr
    ensures call.Valid(r) && fresh(call.repr - old(call.repr)) && call.need == old(call.need)
    ensures slots == Reported(r, call.need, Answer(n, e, AllSlots(r), start))
  {
    hide Filtered, EmitProgram, PikeSearch.Ready, Begins, RequiredOf, Anchored, Backtrack.Runnable, Pike.Pikeable, Consistent;
    var p := r.program.value;
    if call.backtrack == null {
      call.backtrack := new Backtrack.Cache(p);
      call.repr := call.repr + {call.backtrack, call.backtrack.slots, call.backtrack.regs};
    }
    ProgramAnswers(n, e, AllSlots(r));
    ProgramIsRunnable(n, p);
    AnswerIsWide(n, e, AllSlots(r), start);
    slots := Backtrack.Search(p, e, start, prefix, anchored, call.backtrack, AllMatches(n, e, AllSlots(r)));
  }

  lemma AnswerIsWide(n: Node, e: Env, width: nat, start: nat)
    requires start <= |e.hay|
    ensures Answer(n, e, width, start).Some? ==> |Answer(n, e, width, start).value.slots| == width
  {
    ProgramAnswers(n, e, width);
    PikeSearch.LeftmostIsWide(AllMatches(n, e, width), start, width);
  }

  /** The scratch memory of the PikeVM, from the call's first search on. */
  method MakePike(r: Regex, call: Call)
    requires r.program.Some? && Consistent(r.program.value) && !UsesBacktracker(r) && call.Valid(r)
    modifies call
    ensures call.Valid(r) && call.pike != null && fresh(call.repr - old(call.repr)) && call.need == old(call.need)
  {
    hide CodeUsage, WaitsBefore;
    if call.pike == null {
      var p := r.program.value;
      call.pike := new Pike.Cache(p, Width(p, call.need));
      call.repr := call.repr + {call.pike, call.pike.curr} + call.pike.clist.Footprint() + call.pike.nlist.Footprint();
    }
  }

  /** The tracked slots, the others unset. */
  function Extended(tracked: Slots, all: nat): Slots {
    seq(all, k requires 0 <= k < all => if k < |tracked| then tracked[k] else None)
  }

  lemma TrackedIsExtended(r: Regex, need: Need, s: State)
    requires r.program.Some? && r.program.value.slots == AllSlots(r) == |s.slots| && !UsesBacktracker(r)
    ensures Tracked(r, need, s.slots) == Extended(Narrow(s, Width(r.program.value, need)).slots, AllSlots(r))
  {
  }

  /** A search on the PikeVM. */
  method OnThePike(r: Regex, call: Call, e: Env, start: nat, prefix: string, anchored: bool, ghost n: Node)
    returns (slots: Option<Slots>)
    requires Built(r, n) && r.program.Some? && !UsesBacktracker(r) && call.Valid(r) && start <= |e.hay|
    requires Filtered(e, AllMatches(n, e, Width(r.program.value, call.need)), start, prefix, anchored)
    modifies call, call.repr
    ensures call.Valid(r) && fresh(call.repr - old(call.repr)) && call.need == old(call.need)
    ensures slots == Reported(r, call.need, Answer(n, e, AllSlots(r), start))
  {
    hide Filtered, EmitProgram, Begins, RequiredOf, Anchored, Pike.Pikeable, PikeSearch.Ready, Consistent, AllYield, Tracked, Extended,
         AllMatches, Matches, Leftmost, Narrow, Branching, MinLen;
    var p := r.program.value;
    var width := Width(p, call.need);
    MakePike(r, call);
    ProgramAnswers(n, e, width);
    ProgramIsRunnable(n, p);
    ghost var answer := Answer(n, e, AllSlots(r), start);
    AnswerIsWide(n, e, AllSlots(r), start);
    PikeAnswers(n, e, p, width, start);
    if answer.Some? {
      TrackedIsExtended(r, call.need, answer.value);
    }
    var matched, _ := PikeSearch.Search(p, e, start, prefix, anchored, call.pike, AllMatches(n, e, width));
    slots := if matched then Some(Extended(call.pike.found, p.slots)) else None;
  }

  lemma PikeAnswers(n: Node, e: Env, p: Program, width: nat, start: nat)
    requires p.insts == EmitProgram(n) && Pike.Pikeable(p) && start <= |e.hay| && width <= p.slots
    ensures match Answer(n, e, p.slots, start)
            case None => Answer(n, e, width, start) == None
            case Some(s) => Answer(n, e, width, start) == Some(Narrow(s, width))
  {
    hide EmitProgram, Answer;
    AnswerNarrows(n, e, width, p.slots, start);
  }

  /**
   * Both matchers report the same: whatever each is told of the literal matches begin with, the PikeVM's slots are
   * the first `width` of the backtracker's.
   */
  method SearchOnBoth(p: Program, e: Env, start: nat, width: nat, back: (string, bool), pike: (string, bool), ghost n: Node)
    returns (slow: Option<Slots>, fast: Option<Slots>)
    requires p.insts == EmitProgram(n) && Consistent(p) && !p.hasBackrefs && start <= |e.hay| && width <= p.slots
    requires Filtered(e, AllMatches(n, e, p.slots), start, back.0, back.1)
    requires Filtered(e, AllMatches(n, e, width), start, pike.0, pike.1)
    ensures match slow
            case None => fast == None
            case Some(slots) => |slots| == p.slots && fast == Some(slots[..width])
  {
    hide Filtered, EmitProgram, Backtrack.Runnable, Pike.Pikeable, AllYield, AllMatches, Leftmost, CodeUsage, WaitsBefore;
    ProgramIsRunnable(n, p);
    ProgramAnswers(n, e, p.slots);
    ProgramAnswers(n, e, width);
    AnswerIsWide(n, e, p.slots, start);
    PikeAnswers(n, e, p, width, start);
    var cache := new Backtrack.Cache(p);
    slow := Backtrack.Search(p, e, start, back.0, back.1, cache, AllMatches(n, e, p.slots));
    var c := new Pike.Cache(p, width);
    var matched, _ := PikeSearch.Search(p, e, start, pike.0, pike.1, c, AllMatches(n, e, width));
    fast := if matched then Some(c.found) else None;
  }

  /**
   * The leftmost match at or after `start`, whatever the shortcuts and whichever matcher runs: its slots are those
   * of the pattern's preferred match there. A pattern without a program is refused exactly when the text is long
   * enough for it.
   */
  method Find(r: Regex, call: Call, e: Env, start: nat, ghost n: Node) returns (outcome: Outcome)
    requires Built(r, n) && Flagged(r, e) && call.Valid(r) && start <= |e.hay|
    modifies call, call.repr
    ensures call.Valid(r) && fresh(call.repr - old(call.repr)) && call.need == old(call.need)
    ensures outcome == Limit <==> r.program.None? && MinLen(n) <= |e.hay| - start
    ensures outcome.Found? ==> outcome.slots == Reported(r, call.need, Answer(n, e, AllSlots(r), start))
  {
    hide Begins, RequiredOf, Anchored, Filtered, EmitProgram, Consistent, Call.Valid, Answer, MinLen, ByteLen;
    BytesAreMore(e.hay[start..]);
    if r.minLen > |e.hay| - start {
      TooShort(n, e, AllSlots(r), start);
    }
    if r.minLen > ByteLen(e.hay[start..]) {
      return Found(None);
    }
    if r.program.None? {
      if r.minLen > |e.hay| - start {
        return Found(None);
      }
      return Limit;
    }
    var out := RuledOut(r, e, start, n);
    if out {
      return Found(None);
    }
    var anchored := r.prefilterOn && r.anchored;
    var prefix := if r.prefilterOn && !anchored then r.prefix else "";
    var slots;
    if UsesBacktracker(r) {
      IsFiltered(n, e, AllSlots(r), start, prefix, anchored);
      slots := OnTheBacktracker(r, call, e, start, prefix, anchored, n);
    } else {
      IsFiltered(n, e, Width(r.program.value, call.need), start, prefix, anchored);
      slots := OnThePike(r, call, e, start, prefix, anchored, n);
    }
    outcome := Found(slots);
  }
}
