/** The operations of F&O 3.1 section 5.6 on a compiled pattern: they conserve the text between and in the matches. */
module Operations {
  import opened Options
  import opened Syntax
  import opened Denotation
  import opened Lengths
  import opened Paths
  import opened Captures
  import opened GroupTrees
  import opened Searches
  import opened Finding
  import opened Replacements
  import opened Prefilter
  import opened Emission
  import opened Compiler

  datatype Failure = MatchesEmptyString | OverLimit | InvalidReplacement

  datatype Result<T> = Ok(value: T) | Err(failure: Failure)

  /** A regular expression built from a parsed pattern, its groups numbered by their opening parentheses. */
  ghost predicate Whole(r: Regex, n: Node) {
    && Built(r, n) && |r.groupParent| == r.groupCount + 1 && IsForest(r.groupParent) && Parented(n, 0, r.groupParent)
  }

  // ----- the matches of a text -----

  lemma {:induction false} LeftmostFrom(ms: seq<seq<State>>, start: nat) returns (q: nat)
    requires Leftmost(ms, start).Some?
    ensures start <= q < |ms| && ms[q] != [] && Leftmost(ms, start) == Some(ms[q][0])
    ensures forall i :: start <= i < q ==> ms[i] == []
    decreases |ms| - start
  {
    if ms[start] != [] {
      q := start;
    } else {
      q := LeftmostFrom(ms, start + 1);
    }
  }

  /** An answer's captures nest, and it is at least as long as the pattern's minimum. */
  lemma AnswerIsMatch(n: Node, e: Env, parents: seq<nat>, start: nat) returns (q: nat)
    requires IsForest(parents) && Parented(n, 0, parents) && start <= |e.hay|
    requires Answer(n, e, 2 * |parents|, start).Some?
    ensures var t := Answer(n, e, 2 * |parents|, start).value;
            && start <= q <= t.pos <= |e.hay| && t.pos >= q + MinLen(n) && |t.slots| == 2 * |parents|
            && WellCaptured(parents, t.slots, q, t.pos)
  {
    hide Results, Path, Parented, WellCaptured, MinLen;
    var width := 2 * |parents|;
    q := LeftmostFrom(AllMatches(n, e, width), start);
    var s, rs := Start(q, width).s, AllMatches(n, e, width)[q];
    MatchIsPath(n, e, width, q);
    MatchIsWellCaptured(n, parents, e, s, rs[0]);
    assert Onward(e, s, rs[0]);
    ResultsAreLong(Node.Group(Some(0), n), e, s);
    GroupIsAsLong(n);
    assert rs[0].pos >= s.pos + MinLen(Node.Group(Some(0), n));
  }

  lemma GroupIsAsLong(n: Node)
    ensures MinLen(Node.Group(Some(0), n)) == MinLen(n)
  {
  }

  /** Where the search after a match starts: at its end, and a character later after an empty match. */
  function Beyond(cut: (nat, nat)): nat {
    if cut.1 > cut.0 then cut.1 else cut.1 + 1
  }

  function Bounds(slots: Slots): (nat, nat) {
    var c := Capture(slots, 0);
    if c.Some? then c.value else (0, 0)
  }

  function From(found: seq<State>, i: nat): nat
    requires i <= |found|
  {
    if i == 0 then 0 else Beyond(Bounds(found[i - 1].slots))
  }

  /** The successive matches that do not overlap, leftmost first. */
  ghost predicate Successive(n: Node, e: Env, width: nat, found: seq<State>) {
    && (forall i :: 0 <= i < |found| ==> From(found, i) <= |e.hay| && Answer(n, e, width, From(found, i)) == Some(found[i]))
    && (From(found, |found|) <= |e.hay| ==> Answer(n, e, width, From(found, |found|)) == None)
  }

  /** Stretches of a text in order. */
  predicate InOrder(cuts: seq<(nat, nat)>, length: nat) {
    forall i :: 0 <= i < |cuts| ==> (if i == 0 then 0 else cuts[i - 1].1) <= cuts[i].0 <= cuts[i].1 <= length
  }

  ghost function Cuts(found: seq<State>): (cuts: seq<(nat, nat)>)
    ensures |cuts| == |found| && forall i :: 0 <= i < |found| ==> cuts[i] == Bounds(found[i].slots)
  {
    seq(|found|, i requires 0 <= i < |found| => Bounds(found[i].slots))
  }

  /** The `i`-th match: its bounds, past those of the matches before it, and its captures. */
  ghost predicate FoundAt(n: Node, e: Env, parents: seq<nat>, found: seq<State>, i: nat)
    requires IsForest(parents) && i < |found|
  {
    var t, cut := found[i], Bounds(found[i].slots);
    && From(found, i) <= cut.0 <= cut.1 == t.pos <= |e.hay| && cut.1 >= cut.0 + MinLen(n)
    && |t.slots| == 2 * |parents| && WellCaptured(parents, t.slots, cut.0, cut.1)
  }

  lemma SuccessiveFound(n: Node, e: Env, parents: seq<nat>, found: seq<State>, i: nat)
    requires IsForest(parents) && Parented(n, 0, parents) && Successive(n, e, 2 * |parents|, found) && i < |found|
    ensures FoundAt(n, e, parents, found, i)
  {
    hide Answer, WellCaptured, Parented, MinLen, Capture, Bounds;
    var q := AnswerIsMatch(n, e, parents, From(found, i));
    CapturedBounds(parents, found[i].slots, q, found[i].pos);
  }

  lemma SuccessiveInOrder(n: Node, e: Env, parents: seq<nat>, found: seq<State>)
    requires IsForest(parents) && Parented(n, 0, parents) && Successive(n, e, 2 * |parents|, found)
    ensures InOrder(Cuts(found), |e.hay|)
  {
    hide Answer, WellCaptured, Parented, MinLen, Capture, Bounds, Successive;
    forall i | 0 <= i < |found|
      ensures (if i == 0 then 0 else Cuts(found)[i - 1].1) <= Cuts(found)[i].0 <= Cuts(found)[i].1 <= |e.hay|
    {
      SuccessiveFound(n, e, parents, found, i);
    }
  }

  lemma CapturedBounds(parents: seq<nat>, slots: Slots, q: nat, pos: nat)
    requires IsForest(parents) && WellCaptured(parents, slots, q, pos)
    ensures Bounds(slots) == (q, pos) && Capture(slots, 0).Some?
  {
  }

  /** The bounds a call reports are the match's. */
  lemma TrackedBounds(r: Regex, need: Need, slots: Slots)
    requires need != Exists && |slots| == AllSlots(r)
    ensures Capture(Tracked(r, need, slots), 0) == Capture(slots, 0)
  {
  }

  /** The matches found so far, and what was reported of them. */
  ghost predicate SoFar(r: Regex, n: Node, e: Env, need: Need, all: seq<Slots>, found: seq<State>) {
    && |all| == |found|
    && (forall i :: 0 <= i < |found| ==>
          From(found, i) <= |e.hay| && Answer(n, e, AllSlots(r), From(found, i)) == Some(found[i]))
    && (forall i :: 0 <= i < |found| ==> all[i] == Tracked(r, need, found[i].slots))
  }

  lemma FromBefore(found: seq<State>, t: State, i: nat)
    requires i <= |found|
    ensures From(found + [t], i) == From(found, i)
    ensures From(found + [t], |found| + 1) == Beyond(Bounds(t.slots))
  {
    hide Bounds, Beyond;
  }

  lemma SoFarMore(r: Regex, n: Node, e: Env, need: Need, all: seq<Slots>, found: seq<State>, t: State)
    requires SoFar(r, n, e, need, all, found) && From(found, |found|) <= |e.hay|
    requires Answer(n, e, AllSlots(r), From(found, |found|)) == Some(t)
    ensures SoFar(r, n, e, need, all + [Tracked(r, need, t.slots)], found + [t])
    ensures From(found + [t], |found| + 1) == Beyond(Bounds(t.slots))
  {
    hide Answer, Tracked, Bounds, Beyond, From;
    var more := found + [t];
    forall i | 0 <= i < |more|
      ensures From(more, i) <= |e.hay| && Answer(n, e, AllSlots(r), From(more, i)) == Some(more[i])
    {
      FromBefore(found, t, i);
    }
    FromBefore(found, t, 0);
  }

  /** The slots of each successive match, unless the pattern's program is over a ceiling and needed. */
  method ForEachMatch(r: Regex, call: Call, e: Env, ghost n: Node) returns (out: Option<seq<Slots>>, ghost found: seq<State>)
    requires Whole(r, n) && Flagged(r, e) && call.Valid(r) && call.need != Exists
    modifies call, call.repr
    ensures out.None? <==> r.program.None? && MinLen(n) <= |e.hay|
    ensures out.Some? ==> Successive(n, e, AllSlots(r), found) && LeftToRight(n, e, AllSlots(r), found) && |out.value| == |found|
    ensures out.Some? ==> forall i :: 0 <= i < |found| ==> out.value[i] == Tracked(r, old(call.need), found[i].slots)
  {
    hide RequiredOf, Begins, Consistent, EmitProgram, Branching, Answer, Call.Valid, Tracked, Parented, WellCaptured,
         MinLen, Capture, SoFar, From, Bounds, LeftToRight;
    var all: seq<Slots> := [];
    found := [];
    NothingSoFar(r, n, e, call.need);
    var pos: nat := 0;
    ghost var need := call.need;
    while pos <= |e.hay|
      invariant call.Valid(r) && fresh(call.repr - old(call.repr)) && call.need == need
      invariant SoFar(r, n, e, need, all, found) && pos == From(found, |found|)
      invariant pos > 0 ==> r.program.Some?
      decreases |e.hay| + 1 - pos
    {
      var outcome := Find(r, call, e, pos, n);
      if outcome == Limit {
        return None, found;
      }
      if outcome.slots.None? {
        break;
      }
      var slots := outcome.slots.value;
      ghost var t := Answer(n, e, AllSlots(r), pos).value;
      ghost var q := AnswerIsMatch(n, e, r.groupParent, pos);
      CapturedBounds(r.groupParent, t.slots, q, t.pos);
      TrackedBounds(r, need, t.slots);
      SameBounds(slots, t.slots);
      SoFarMore(r, n, e, need, all, found, t);
      all, found := all + [slots], found + [t];
      pos := Beyond(Bounds(slots));
    }
    SoFarEnds(r, n, e, need, all, found);
    SuccessiveIsLeftToRight(n, e, r.groupParent, found);
    out := Some(all);
  }

  lemma SameBounds(a: Slots, b: Slots)
    requires Capture(a, 0) == Capture(b, 0)
    ensures Bounds(a) == Bounds(b)
  {
  }

  lemma NothingSoFar(r: Regex, n: Node, e: Env, need: Need)
    ensures SoFar(r, n, e, need, [], []) && From([], 0) == 0
  {
  }

  lemma SoFarEnds(r: Regex, n: Node, e: Env, need: Need, all: seq<Slots>, found: seq<State>)
    requires SoFar(r, n, e, need, all, found)
    requires From(found, |found|) <= |e.hay| ==> Answer(n, e, AllSlots(r), From(found, |found|)) == None
    ensures Successive(n, e, AllSlots(r), found) && |all| == |found|
    ensures forall i :: 0 <= i < |found| ==> all[i] == Tracked(r, need, found[i].slots)
  {
  }

  // ----- the matches of a text, left to right -----

  /** After a match the next one may begin where it ends, and after an empty match a character later. */
  predicate MayFollow(cut: (nat, nat), q: nat) {
    if cut.0 < cut.1 then cut.1 <= q else cut.1 + 1 <= q
  }

  /** Between the `i`-th match and the one before it: past what was matched, and before the match. */
  predicate IsBetween(cuts: seq<(nat, nat)>, i: nat, q: nat)
    requires i <= |cuts|
  {
    (i > 0 ==> MayFollow(cuts[i - 1], q)) && (i < |cuts| ==> q < cuts[i].0)
  }

  /** No match begins between these matches, up to the end of the text. */
  ghost predicate NothingBetween(n: Node, e: Env, width: nat, cuts: seq<(nat, nat)>) {
    forall i, q :: 0 <= i <= |cuts| && 0 <= q <= |e.hay| && IsBetween(cuts, i, q) ==> AllMatches(n, e, width)[q] == []
  }

  /** The preferred match where it begins, and it may follow the match before it. */
  ghost predicate IsNext(n: Node, e: Env, width: nat, found: seq<State>, i: nat)
    requires i < |found|
  {
    var cut := Bounds(found[i].slots);
    && cut.0 <= |e.hay| && AllMatches(n, e, width)[cut.0] != [] && found[i] == AllMatches(n, e, width)[cut.0][0]
    && (i > 0 ==> MayFollow(Bounds(found[i - 1].slots), cut.0))
  }

  /** All the matches of a text that do not overlap, from left to right. */
  ghost predicate LeftToRight(n: Node, e: Env, width: nat, found: seq<State>) {
    (forall i :: 0 <= i < |found| ==> IsNext(n, e, width, found, i)) && NothingBetween(n, e, width, Cuts(found))
  }

  lemma FollowsFrom(found: seq<State>, i: nat, q: nat)
    requires i <= |found|
    ensures From(found, i) <= q <==> (i > 0 ==> MayFollow(Cuts(found)[i - 1], q))
  {
    hide Bounds;
  }

  /** The searches one after the other find the matches from left to right, and no other list is that. */
  lemma SuccessiveIsLeftToRight(n: Node, e: Env, parents: seq<nat>, found: seq<State>)
    requires IsForest(parents) && Parented(n, 0, parents)
    ensures Successive(n, e, 2 * |parents|, found) <==> LeftToRight(n, e, 2 * |parents|, found)
  {
    hide Answer, Parented, Successive, LeftToRight;
    if Successive(n, e, 2 * |parents|, found) {
      SuccessiveReadsOn(n, e, parents, found);
    }
    if LeftToRight(n, e, 2 * |parents|, found) {
      LeftToRightIsFound(n, e, 2 * |parents|, found);
    }
  }

  lemma SuccessiveReadsOn(n: Node, e: Env, parents: seq<nat>, found: seq<State>)
    requires IsForest(parents) && Parented(n, 0, parents) && Successive(n, e, 2 * |parents|, found)
    ensures LeftToRight(n, e, 2 * |parents|, found)
  {
    hide Parented, Bounds, AllMatches, From, IsBetween, MayFollow;
    var width := 2 * |parents|;
    var cuts := Cuts(found);
    forall i | 0 <= i < |found| ensures IsNext(n, e, width, found, i) {
      NextBegins(n, e, parents, found, i);
      FollowsFrom(found, i, cuts[i].0);
    }
    forall i, q | 0 <= i <= |cuts| && 0 <= q <= |e.hay| && IsBetween(cuts, i, q) ensures AllMatches(n, e, width)[q] == [] {
      NothingBefore(n, e, parents, found, i, q);
    }
  }

  /** The search for the `i`-th match finds it where it begins, and no match before that. */
  lemma NextBegins(n: Node, e: Env, parents: seq<nat>, found: seq<State>, i: nat)
    requires IsForest(parents) && Parented(n, 0, parents) && Successive(n, e, 2 * |parents|, found) && i < |found|
    ensures var cut := Bounds(found[i].slots);
            var ms := AllMatches(n, e, 2 * |parents|);
            && From(found, i) <= cut.0 <= |e.hay| && ms[cut.0] != [] && found[i] == ms[cut.0][0]
            && forall q :: From(found, i) <= q < cut.0 ==> ms[q] == []
  {
    hide Parented, Bounds, AllMatches, From, WellCaptured;
    var width := 2 * |parents|;
    SuccessiveAt(n, e, width, found, i);
    var q := AnswerIsMatch(n, e, parents, From(found, i));
    CapturedBounds(parents, found[i].slots, q, found[i].pos);
    var p := LeftmostFrom(AllMatches(n, e, width), From(found, i));
    MatchBegins(n, e, parents, p);
  }

  /** A match from a position has its bounds there. */
  lemma MatchBegins(n: Node, e: Env, parents: seq<nat>, q: nat)
    requires IsForest(parents) && Parented(n, 0, parents) && q <= |e.hay| && AllMatches(n, e, 2 * |parents|)[q] != []
    ensures Bounds(AllMatches(n, e, 2 * |parents|)[q][0].slots).0 == q
  {
    hide Results, Path, Parented, WellCaptured, Bounds;
    var width := 2 * |parents|;
    var s, rs := Start(q, width).s, AllMatches(n, e, width)[q];
    MatchIsPath(n, e, width, q);
    MatchIsWellCaptured(n, parents, e, s, rs[0]);
    CapturedBounds(parents, rs[0].slots, q, rs[0].pos);
  }

  lemma NothingBefore(n: Node, e: Env, parents: seq<nat>, found: seq<State>, i: nat, q: nat)
    requires IsForest(parents) && Parented(n, 0, parents) && Successive(n, e, 2 * |parents|, found)
    requires i <= |found| && q <= |e.hay| && IsBetween(Cuts(found), i, q)
    ensures AllMatches(n, e, 2 * |parents|)[q] == []
  {
    hide Parented, Bounds, AllMatches, From, MayFollow;
    var ms := AllMatches(n, e, 2 * |parents|);
    FollowsFrom(found, i, q);
    if i < |found| {
      NextBegins(n, e, parents, found, i);
    } else if ms[q] != [] {
      SomeFrom(ms, From(found, i), q);
    }
  }

  lemma LeftToRightIsFound(n: Node, e: Env, width: nat, found: seq<State>)
    requires LeftToRight(n, e, width, found)
    ensures Successive(n, e, width, found)
  {
    hide Bounds, AllMatches, From, MayFollow, Leftmost;
    var ms, cuts := AllMatches(n, e, width), Cuts(found);
    forall i | 0 <= i < |found|
      ensures From(found, i) <= |e.hay| && Answer(n, e, width, From(found, i)) == Some(found[i])
    {
      assert IsNext(n, e, width, found, i);
      FollowsFrom(found, i, cuts[i].0);
      forall q | From(found, i) <= q < cuts[i].0 ensures ms[q] == [] {
        FollowsFrom(found, i, q);
        assert IsBetween(cuts, i, q);
      }
      LeftmostSkips(ms, From(found, i), cuts[i].0);
      LeftmostHere(ms, cuts[i].0);
    }
    var last := From(found, |found|);
    if last <= |e.hay| {
      forall q | last <= q <= |e.hay| ensures ms[q] == [] {
        FollowsFrom(found, |found|, q);
        assert IsBetween(cuts, |found|, q);
      }
      NoAnswer(n, e, width, last);
    }
  }

  lemma LeftmostHere(ms: seq<seq<State>>, q: nat)
    requires q < |ms| && ms[q] != []
    ensures Leftmost(ms, q) == Some(ms[q][0])
  {
  }

  // ----- one set of matches, whichever matcher runs -----

  /** The successive matches are determined: two lists of them are one. */
  lemma SuccessiveIsOne(n: Node, e: Env, width: nat, a: seq<State>, b: seq<State>)
    requires Successive(n, e, width, a) && Successive(n, e, width, b)
    ensures a == b
  {
    hide Answer, Bounds;
    var i := if |a| < |b| then |a| else |b|;
    SuccessiveAlike(n, e, width, a, b, i);
    assert From(a, i) == From(b, i);
    assert a == a[..i] && b == b[..i];
  }

  lemma {:induction false} SuccessiveAlike(n: Node, e: Env, width: nat, a: seq<State>, b: seq<State>, i: nat)
    requires Successive(n, e, width, a) && Successive(n, e, width, b) && i <= |a| && i <= |b|
    ensures a[..i] == b[..i] && From(a, i) == From(b, i)
    decreases i
  {
    hide Answer, Bounds, Successive;
    if i > 0 {
      SuccessiveAlike(n, e, width, a, b, i - 1);
      SuccessiveAt(n, e, width, a, i - 1);
      SuccessiveAt(n, e, width, b, i - 1);
      assert a[..i] == a[..i - 1] + [a[i - 1]] && b[..i] == b[..i - 1] + [b[i - 1]];
    }
  }

  lemma SuccessiveAt(n: Node, e: Env, width: nat, found: seq<State>, i: nat)
    requires Successive(n, e, width, found) && i < |found|
    ensures Answer(n, e, width, From(found, i)) == Some(found[i])
  {
  }

  /** The slots of every successive match. */
  method MatchSlots(r: Regex, e: Env, ghost n: Node) returns (out: Option<seq<Slots>>)
    requires Whole(r, n) && Flagged(r, e)
    ensures out.None? <==> r.program.None? && MinLen(n) <= |e.hay|
    ensures out.Some? ==> exists found :: LeftToRight(n, e, AllSlots(r), found) && out.value == SlotsOf(found)
  {
    hide Built, Successive, LeftToRight, MinLen, Parented;
    var call := new Call(Groups);
    ghost var found;
    out, found := ForEachMatch(r, call, e, n);
    if out.Some? {
      forall i | 0 <= i < |found| ensures out.value[i] == found[i].slots {
        SlotsAreFound(r, n, e, found, i);
      }
      assert out.value == SlotsOf(found);
    }
  }

  function SlotsOf(found: seq<State>): (slots: seq<Slots>)
    ensures |slots| == |found| && forall i :: 0 <= i < |found| ==> slots[i] == found[i].slots
  {
    seq(|found|, i requires 0 <= i < |found| => found[i].slots)
  }

  /** Neither the matcher nor the prefilter changes an answer: the slots of every match are the same. */
  method MatchSlotsOnBoth(r: Regex, matcher: Matcher, prefilterOn: bool, e: Env, ghost n: Node)
    returns (one: Option<seq<Slots>>, other: Option<seq<Slots>>)
    requires Whole(r, n) && Flagged(r, e)
    ensures one == other
    ensures one.None? <==> r.program.None? && MinLen(n) <= |e.hay|
  {
    hide Successive, LeftToRight, MinLen, Parented, Branching, RequiredOf, Begins, EmitProgram, Consistent;
    one := MatchSlots(r, e, n);
    other := MatchSlots(r.(matcher := matcher, prefilterOn := prefilterOn), e, n);
    if one.Some? {
      ghost var a :| LeftToRight(n, e, AllSlots(r), a) && one.value == SlotsOf(a);
      ghost var b :| LeftToRight(n, e, AllSlots(r), b) && other.value == SlotsOf(b);
      SuccessiveIsLeftToRight(n, e, r.groupParent, a);
      SuccessiveIsLeftToRight(n, e, r.groupParent, b);
      SuccessiveIsOne(n, e, AllSlots(r), a, b);
    }
  }

  // ----- whether there is a match -----

  /** `fn:matches`. */
  method IsMatch(r: Regex, e: Env, ghost n: Node) returns (res: Result<bool>)
    requires Whole(r, n) && Flagged(r, e)
    ensures res == Err(OverLimit) <==> r.program.None? && MinLen(n) <= |e.hay|
    ensures res != Err(OverLimit) ==> res == Ok(Answer(n, e, AllSlots(r), 0).Some?)
  {
    hide Answer, RequiredOf, Begins, Consistent, EmitProgram, Branching;
    var call := new Call(Exists);
    var outcome := Find(r, call, e, 0, n);
    res := if outcome == Limit then Err(OverLimit) else Ok(outcome.slots.Some?);
  }

  /** Somewhere in the text there is a path. */
  ghost predicate HasPath(n: Node, e: Env) {
    exists s, t :: Path(n, e, s, t)
  }

  /** Without back-references, a search finds a match exactly when there is a path somewhere in the text. */
  lemma MatchIffPath(n: Node, e: Env, width: nat)
    requires !Refers(n)
    ensures Answer(n, e, width, 0).Some? <==> HasPath(n, e)
  {
    hide Results, Path;
    var ms := AllMatches(n, e, width);
    if Answer(n, e, width, 0).Some? {
      var q := LeftmostFrom(ms, 0);
      MatchIsPath(n, e, width, q);
      var m := InsideGroup(0, n, e, Start(q, width).s, ms[q][0]);
      assert HasPath(n, e);
    } else if HasPath(n, e) {
      var s, t :| Path(n, e, s, t);
      PathIsOnward(n, e, s, t);
      var o := Saved(Start(s.pos, width).s, 0);
      var x := EndsAreFound(n, e, s, t, o);
      FoundThere(n, e, width, s.pos, x);
      SomeFrom(ms, 0, s.pos);
    }
  }

  lemma FoundThere(n: Node, e: Env, width: nat, q: nat, x: State)
    requires q <= |e.hay| && x in Results(n, e, Saved(Start(q, width).s, 0))
    ensures AllMatches(n, e, width)[q] != []
  {
  }

  lemma {:induction false} SomeFrom(ms: seq<seq<State>>, start: nat, q: nat)
    requires start <= q < |ms| && ms[q] != []
    ensures Leftmost(ms, start).Some?
    decreases q - start
  {
    if start < q {
      SomeFrom(ms, start + 1, q);
    }
  }

  /** A pattern of the XSD dialect matches a text exactly when its expression matches the text as a whole. */
  lemma FacetMatchesWhole(n: Node, e: Env, width: nat)
    requires !Refers(n) && !e.multiline
    ensures Answer(Concat([Bol, n, Eol]), e, width, 0).Some?
            <==> exists s, t :: Path(n, e, s, t) && s.pos == 0 && t.pos == |e.hay|
  {
    hide Answer;
    var all := Concat([Bol, n, Eol]);
    NoReference(n);
    MatchIffPath(all, e, width);
    if HasPath(all, e) {
      var s, t :| Path(all, e, s, t);
      FacetPath(n, e, s, t);
    }
    if s, t :| Path(n, e, s, t) && s.pos == 0 && t.pos == |e.hay| {
      PathOfFacet(n, e, s, t);
    }
  }

  lemma NoReference(n: Node)
    requires !Refers(n)
    ensures !Refers(Concat([Bol, n, Eol]))
  {
    var parts := [Bol, n, Eol];
    assert !AnyRefers([]) && [Eol][1..] == [];
    assert !AnyRefers([Eol]) && [n, Eol][1..] == [Eol];
    assert !AnyRefers([n, Eol]) && parts[1..] == [n, Eol];
    assert !AnyRefers(parts);
  }

  lemma FacetPath(n: Node, e: Env, s: State, t: State)
    requires !e.multiline && Path(Concat([Bol, n, Eol]), e, s, t)
    ensures exists s, t :: Path(n, e, s, t) && s.pos == 0 && t.pos == |e.hay|
  {
    hide Path;
    var parts := [Bol, n, Eol];
    ConcatPath(parts, e, s, t);
    assert parts[1..] == [n, Eol] && [n, Eol][1..] == [Eol];
    var a := FirstPart(parts, e, s, t);
    var b := FirstPart([n, Eol], e, a, t);
    var c := FirstPart([Eol], e, b, t);
    AnchorPaths(e, s, a, b, c);
    assert Path(n, e, a, b) && a.pos == 0 && b.pos == |e.hay|;
  }

  lemma ConcatPath(parts: seq<Node>, e: Env, s: State, t: State)
    ensures Path(Concat(parts), e, s, t) <==> s.pos <= |e.hay| && PathThrough(parts, e, s, t)
  {
  }

  lemma AnchorPaths(e: Env, s: State, a: State, b: State, c: State)
    requires !e.multiline && Path(Bol, e, s, a) && Path(Eol, e, b, c)
    ensures a == s && a.pos == 0 && b.pos == |e.hay| && c == b
  {
  }

  lemma PathOfFacet(n: Node, e: Env, s: State, t: State)
    requires !e.multiline && Path(n, e, s, t) && s.pos == 0 && t.pos == |e.hay|
    ensures Path(Concat([Bol, n, Eol]), e, s, t)
  {
    var parts := [Bol, n, Eol];
    assert parts[1..] == [n, Eol] && parts[1..][1..] == [Eol] && parts[1..][1..][1..] == [];
    assert Path(Bol, e, s, s) && Path(Eol, e, t, t);
    EolThrough(e, t);
    assert PathThrough([n, Eol], e, s, t) by {
      assert [n, Eol][0] == n && [n, Eol][1..] == [Eol];
    }
  }

  lemma EolThrough(e: Env, t: State)
    requires Path(Eol, e, t, t)
    ensures PathThrough([Eol], e, t, t)
  {
    assert [Eol][1..] == [];
    assert PathThrough([], e, t, t);
  }

  /** The test that refuses a pattern needs no search: it matches the empty text exactly when its minimum length is 0. */
  lemma MatchesEmptyExactly(n: Node, e: Env, width: nat)
    requires e.hay == ""
    ensures Answer(n, e, width, 0).Some? <==> MinLen(n) == 0
  {
    hide Results, MinLen;
    var ms, s := AllMatches(n, e, width), Start(0, width).s;
    assert Leftmost(ms, 1) == None;
    EmptyTextMatches(Node.Group(Some(0), n), e, s);
    GroupIsAsLong(n);
  }

  // ----- the text between the matches -----

  function Since(cuts: seq<(nat, nat)>, i: nat): nat
    requires i <= |cuts|
  {
    if i == 0 then 0 else cuts[i - 1].1
  }

  function Until(cuts: seq<(nat, nat)>, i: nat, length: nat): nat
    requires i <= |cuts|
  {
    if i < |cuts| then cuts[i].0 else length
  }

  lemma {:induction false} SinceBeforeUntil(cuts: seq<(nat, nat)>, i: nat, length: nat)
    requires InOrder(cuts, length) && i <= |cuts|
    ensures Since(cuts, i) <= Until(cuts, i, length) <= length
  {
    if 0 < i == |cuts| {
      assert cuts[i - 1].1 <= length;
    }
  }

  /** The text before the `i`-th match and after the one before it. */
  function Token(hay: string, cuts: seq<(nat, nat)>, i: nat): string
    requires InOrder(cuts, |hay|) && i <= |cuts|
  {
    SinceBeforeUntil(cuts, i, |hay|);
    hay[Since(cuts, i)..Until(cuts, i, |hay|)]
  }

  function Tokens(hay: string, cuts: seq<(nat, nat)>): (ts: seq<string>)
    requires InOrder(cuts, |hay|)
    ensures |ts| == |cuts| + 1 && forall i :: 0 <= i <= |cuts| ==> ts[i] == Token(hay, cuts, i)
  {
    seq(|cuts| + 1, i requires 0 <= i <= |cuts| => Token(hay, cuts, i))
  }

  /** Tokens with texts between them. */
  function Woven(tokens: seq<string>, texts: seq<string>, k: nat): string
    requires |tokens| == |texts| + 1 && k < |tokens|
  {
    if k == 0 then tokens[0] else Woven(tokens, texts, k - 1) + texts[k - 1] + tokens[k]
  }

  function Texts(hay: string, cuts: seq<(nat, nat)>): (ts: seq<string>)
    requires InOrder(cuts, |hay|)
    ensures |ts| == |cuts| && forall i :: 0 <= i < |cuts| ==> ts[i] == hay[cuts[i].0..cuts[i].1]
  {
    seq(|cuts|, i requires 0 <= i < |cuts| => hay[cuts[i].0..cuts[i].1])
  }

  /** The tokens with the matches between them are the text. */
  lemma {:induction false} TokensRebuild(hay: string, cuts: seq<(nat, nat)>, k: nat)
    requires InOrder(cuts, |hay|) && k <= |cuts|
    ensures Until(cuts, k, |hay|) <= |hay|
    ensures Woven(Tokens(hay, cuts), Texts(hay, cuts), k) == hay[..Until(cuts, k, |hay|)]
    decreases k
  {
    hide InOrder;
    SinceBeforeUntil(cuts, k, |hay|);
    if k > 0 {
      TokensRebuild(hay, cuts, k - 1);
      CutsInOrder(hay, cuts, k - 1);
      JoinThree(hay, cuts[k - 1].0, cuts[k - 1].1, Until(cuts, k, |hay|));
    }
  }

  lemma CutsInOrder(hay: string, cuts: seq<(nat, nat)>, i: nat)
    requires InOrder(cuts, |hay|) && i < |cuts|
    ensures cuts[i].0 <= cuts[i].1 <= |hay|
  {
  }

  lemma JoinThree(hay: string, a: nat, b: nat, c: nat)
    requires a <= b <= c <= |hay|
    ensures hay[..a] + hay[a..b] + hay[b..c] == hay[..c]
  {
  }

  /** `fn:tokenize`: the text between the matches. */
  method Tokenize(r: Regex, e: Env, ghost n: Node) returns (res: Result<seq<string>>, ghost found: seq<State>)
    requires Whole(r, n) && Flagged(r, e)
    ensures e.hay == "" ==> res == Ok([])
    ensures e.hay != "" ==> (res == Err(MatchesEmptyString) <==> MinLen(n) == 0)
    ensures e.hay != "" ==> (res == Err(OverLimit) <==> MinLen(n) > 0 && r.program.None? && MinLen(n) <= |e.hay|)
    ensures res != Err(InvalidReplacement)
    ensures e.hay != "" && res.Ok? ==>
              && Successive(n, e, AllSlots(r), found) && LeftToRight(n, e, AllSlots(r), found) && InOrder(Cuts(found), |e.hay|)
              && res.value == Tokens(e.hay, Cuts(found))
  {
    hide Answer, RequiredOf, Begins, Consistent, EmitProgram, Branching, Parented, Successive, LeftToRight, MinLen, Tracked, Bounds;
    found := [];
    if e.hay == "" {
      return Ok([]), found;
    }
    if r.minLen == 0 {
      return Err(MatchesEmptyString), found;
    }
    var call := new Call(Need.Bounds);
    var all;
    all, found := ForEachMatch(r, call, e, n);
    if all.None? {
      return Err(OverLimit), found;
    }
    SuccessiveInOrder(n, e, r.groupParent, found);
    var out: seq<string> := [];
    var last := 0;
    for i := 0 to |all.value|
      invariant |out| == i && last == Since(Cuts(found), i)
      invariant forall j :: 0 <= j < i ==> out[j] == Token(e.hay, Cuts(found), j)
    {
      ReportedBounds(r, Need.Bounds, n, e, found, i);
      var cut := Bounds(all.value[i]);
      SinceBeforeUntil(Cuts(found), i, |e.hay|);
      out := out + [e.hay[last..cut.0]];
      last := cut.1;
    }
    SinceBeforeUntil(Cuts(found), |found|, |e.hay|);
    assert e.hay[last..] == Token(e.hay, Cuts(found), |found|);
    out := out + [e.hay[last..]];
    assert out == Tokens(e.hay, Cuts(found));
    res := Ok(out);
  }

  lemma ReportedBounds(r: Regex, need: Need, n: Node, e: Env, found: seq<State>, i: nat)
    requires Whole(r, n) && need != Exists && Successive(n, e, AllSlots(r), found) && i < |found|
    ensures Bounds(Tracked(r, need, found[i].slots)) == Cuts(found)[i]
  {
    hide Answer, Built, Parented, Successive, Tracked, WellCaptured;
    SuccessiveFound(n, e, r.groupParent, found, i);
    TrackedBounds(r, need, found[i].slots);
  }

  // ----- replacing -----

  /** What a replacement string stands for. */
  function Replacing(r: Regex, replacement: string): Option<seq<Piece>> {
    if r.flags.quoted then Some(Letters(replacement)) else Pieces(replacement, 0, r.groupCount)
  }

  /** What each match is replaced by. */
  ghost function Substitutes(ps: seq<Piece>, hay: string, found: seq<State>): (ts: seq<string>)
    ensures |ts| == |found| && forall i :: 0 <= i < |found| ==> ts[i] == Expansion(ps, hay, found[i].slots)
  {
    seq(|found|, i requires 0 <= i < |found| => Expansion(ps, hay, found[i].slots))
  }

  /** Only group 0 is referred to, unless the call needs every group. */
  predicate Needed(parts: seq<Part>, need: Need) {
    need == Groups || (need == Need.Bounds && forall i :: 0 <= i < |parts| && parts[i].Reference? ==> parts[i].nr == 0)
  }

  lemma NeededIsEnough(r: Regex, need: Need, parts: seq<Part>, text: string, hay: string, slots: Slots)
    requires Fits(parts, text) && Needed(parts, need) && |slots| == AllSlots(r)
    ensures Expansion(Flatten(parts, text), hay, Tracked(r, need, slots)) == Expansion(Flatten(parts, text), hay, slots)
  {
    TrackedBounds(r, need, slots);
    SameExpansion(parts, text, hay, Tracked(r, need, slots), slots);
  }

  lemma WovenNext(tokens: seq<string>, texts: seq<string>, k: nat, out: string)
    requires |tokens| == |texts| + 1 && k + 1 < |tokens| && out + tokens[k] == Woven(tokens, texts, k)
    ensures (out + tokens[k] + texts[k]) + tokens[k + 1] == Woven(tokens, texts, k + 1)
  {
  }

  /** `fn:replace`: the text with each match replaced. */
  method Replace(r: Regex, e: Env, replacement: string, ghost n: Node) returns (res: Result<string>, ghost found: seq<State>)
    requires Whole(r, n) && Flagged(r, e)
    ensures res == Err(MatchesEmptyString) <==> MinLen(n) == 0
    ensures res == Err(InvalidReplacement) <==> MinLen(n) > 0 && Replacing(r, replacement).None?
    ensures res == Err(OverLimit) <==>
              MinLen(n) > 0 && Replacing(r, replacement).Some? && r.program.None? && MinLen(n) <= |e.hay|
    ensures res.Ok? ==>
              && Successive(n, e, AllSlots(r), found) && LeftToRight(n, e, AllSlots(r), found) && InOrder(Cuts(found), |e.hay|)
              && res.value == Woven(Tokens(e.hay, Cuts(found)),
                                    Substitutes(Replacing(r, replacement).value, e.hay, found), |found|)
              && forall i, nr :: 0 <= i < |found| && 0 <= nr <= r.groupCount ==> RefExpands(e.hay, found[i].slots, nr)
  {
    hide Answer, RequiredOf, Begins, Consistent, EmitProgram, Branching, Parented, Successive, LeftToRight, MinLen, Tracked, Bounds,
         Pieces, Expansion, Flatten, Woven, Capture, RefExpands;
    found := [];
    if r.minLen == 0 {
      return Err(MatchesEmptyString), found;
    }
    var parsed := Parse(replacement, r.groupCount, r.flags.quoted);
    if parsed.None? {
      return Err(InvalidReplacement), found;
    }
    var parts := parsed.value;
    ghost var ps := Flatten(parts, replacement);
    assert Replacing(r, replacement) == Some(ps);
    var need :=
      if exists i :: 0 <= i < |parts| && parts[i].Reference? && parts[i].nr > 0 then Groups else Need.Bounds;
    var call := new Call(need);
    var all;
    all, found := ForEachMatch(r, call, e, n);
    if all.None? {
      return Err(OverLimit), found;
    }
    SuccessiveInOrder(n, e, r.groupParent, found);
    ghost var tokens, texts := Tokens(e.hay, Cuts(found)), Substitutes(ps, e.hay, found);
    var out, last := "", 0;
    WovenFirst(tokens, texts);
    for i := 0 to |all.value|
      invariant last == Since(Cuts(found), i) && out + tokens[i] == Woven(tokens, texts, i)
    {
      ReportedBounds(r, need, n, e, found, i);
      FoundSlots(r, n, e, found, i);
      NeededIsEnough(r, need, parts, replacement, e.hay, found[i].slots);
      var cut := Bounds(all.value[i]);
      SinceBeforeUntil(Cuts(found), i, |e.hay|);
      var text := Expand(parts, replacement, e.hay, all.value[i]);
      WovenNext(tokens, texts, i, out);
      out := out + e.hay[last..cut.0] + text;
      last := cut.1;
    }
    SinceBeforeUntil(Cuts(found), |found|, |e.hay|);
    assert e.hay[last..] == tokens[|found|];
    forall i, nr | 0 <= i < |found| && 0 <= nr <= r.groupCount ensures RefExpands(e.hay, found[i].slots, nr) {
      GroupExpands(n, e, r.groupParent, found, i, nr);
    }
    res := Ok(out + e.hay[last..]);
  }

  /** In every match, a reference to a group that took part stands for its capture. */
  lemma GroupExpands(n: Node, e: Env, parents: seq<nat>, found: seq<State>, i: nat, nr: nat)
    requires IsForest(parents) && Parented(n, 0, parents) && Successive(n, e, 2 * |parents|, found) && i < |found|
    ensures RefExpands(e.hay, found[i].slots, nr)
  {
    hide Successive, Parented, Compatible;
    SuccessiveFound(n, e, parents, found, i);
    ExpansionRef(nr, e.hay, found[i].slots);
  }

  lemma WovenFirst(tokens: seq<string>, texts: seq<string>)
    requires |tokens| == |texts| + 1
    ensures "" + tokens[0] == Woven(tokens, texts, 0)
  {
    assert "" + tokens[0] == tokens[0];
  }

  lemma FoundSlots(r: Regex, n: Node, e: Env, found: seq<State>, i: nat)
    requires Whole(r, n) && Successive(n, e, AllSlots(r), found) && i < |found|
    ensures |found[i].slots| == AllSlots(r)
  {
    hide Built, Successive, WellCaptured, Parented;
    SuccessiveFound(n, e, r.groupParent, found, i);
  }

  /** Replacing each match by `$0` changes nothing. */
  lemma ReplacingByItself(n: Node, e: Env, parents: seq<nat>, found: seq<State>)
    requires IsForest(parents) && Parented(n, 0, parents) && Successive(n, e, 2 * |parents|, found)
    ensures InOrder(Cuts(found), |e.hay|)
    ensures Woven(Tokens(e.hay, Cuts(found)), Substitutes([Ref(0)], e.hay, found), |found|) == e.hay
  {
    hide Successive, Parented, WellCaptured, Woven;
    SuccessiveInOrder(n, e, parents, found);
    var cuts := Cuts(found);
    forall i | 0 <= i < |found| ensures Substitutes([Ref(0)], e.hay, found)[i] == Texts(e.hay, cuts)[i] {
      SuccessiveFound(n, e, parents, found, i);
      FoundCapture(parents, found[i].slots, cuts[i].0, cuts[i].1);
      ExpansionRef(0, e.hay, found[i].slots);
    }
    assert Substitutes([Ref(0)], e.hay, found) == Texts(e.hay, cuts);
    TokensRebuild(e.hay, cuts, |cuts|);
  }

  lemma FoundCapture(parents: seq<nat>, slots: Slots, q: nat, pos: nat)
    requires IsForest(parents) && WellCaptured(parents, slots, q, pos)
    ensures Capture(slots, 0) == Some((q, pos))
  {
  }

  // ----- analyzing -----

  datatype AnalyzeEntry = Match(content: seq<MatchEntry>) | NonMatch(text: string)

  function AnalysisText(es: seq<AnalyzeEntry>): string {
    if es == [] then "" else
      var n := |es| - 1;
      AnalysisText(es[..n]) + match es[n] {
        case Match(content) => TextOf(content)
        case NonMatch(text) => text
      }
  }

  /** The contents of the matches. */
  function Trees(es: seq<AnalyzeEntry>): seq<seq<MatchEntry>> {
    if es == [] then [] else
      var n := |es| - 1;
      Trees(es[..n]) + if es[n].Match? then [es[n].content] else []
  }

  /** Text between matches is not empty and is one entry. */
  predicate Alternates(es: seq<AnalyzeEntry>) {
    && (forall i :: 0 <= i < |es| && es[i].NonMatch? ==> es[i].text != "")
    && (forall i :: 0 < i < |es| ==> es[i - 1].Match? || es[i].Match?)
  }

  /** The tree of a match: its text and captures, with every group that took part, each where it belongs. */
  ghost predicate IsTreeOf(tree: seq<MatchEntry>, hay: string, parents: seq<nat>, t: State) {
    && IsTree(tree, hay, t.slots, Bounds(t.slots).0, Bounds(t.slots).1)
    && IsForest(parents) && Nested(parents, t.slots, 0, tree) && Ascending(t.slots, tree)
    && forall x: nat :: x in Numbers(tree) <==> 0 < x < |parents| && Capture(t.slots, x).Some?
  }

  lemma AnalysisMore(es: seq<AnalyzeEntry>, entry: AnalyzeEntry)
    ensures AnalysisText(es + [entry]) == AnalysisText(es) + match entry {
        case Match(content) => TextOf(content)
        case NonMatch(text) => text
      }
    ensures Trees(es + [entry]) == Trees(es) + if entry.Match? then [entry.content] else []
  {
    assert (es + [entry])[..|es|] == es;
  }

  /** The text before a match joins an analysis. */
  lemma AnalysisBetween(es: seq<AnalyzeEntry>, hay: string, a: nat, b: nat)
    requires a < b <= |hay| && AnalysisText(es) == hay[..a] && Alternates(es) && (es != [] ==> es[|es| - 1].Match?)
    ensures var es' := es + [NonMatch(hay[a..b])];
            AnalysisText(es') == hay[..b] && Alternates(es') && Trees(es') == Trees(es)
  {
    hide AnalysisText, Trees;
    AnalysisMore(es, NonMatch(hay[a..b]));
    assert hay[..a] + hay[a..b] == hay[..b];
    assert Trees(es) + [] == Trees(es);
  }

  /** A match joins an analysis. */
  lemma AnalysisMatch(es: seq<AnalyzeEntry>, hay: string, a: nat, b: nat, tree: seq<MatchEntry>, slots: Slots)
    requires a <= b <= |hay| && AnalysisText(es) == hay[..a] && Alternates(es) && IsTree(tree, hay, slots, a, b)
    ensures var es' := es + [Match(tree)];
            AnalysisText(es') == hay[..b] && Alternates(es') && Trees(es') == Trees(es) + [tree]
  {
    hide AnalysisText, Trees, Faithful;
    AnalysisMore(es, Match(tree));
    assert hay[..a] + hay[a..b] == hay[..b];
  }

  /** `fn:analyze-string`: all of the text, as matches with their groups and the text between them. */
  method Analyze(r: Regex, e: Env, ghost n: Node) returns (res: Result<seq<AnalyzeEntry>>, ghost found: seq<State>)
    requires Whole(r, n) && Flagged(r, e)
    ensures res == Err(MatchesEmptyString) <==> MinLen(n) == 0
    ensures res == Err(OverLimit) <==> MinLen(n) > 0 && r.program.None? && MinLen(n) <= |e.hay|
    ensures res != Err(InvalidReplacement)
    ensures res.Ok? ==>
              && Successive(n, e, AllSlots(r), found) && LeftToRight(n, e, AllSlots(r), found)
              && AnalysisText(res.value) == e.hay && Alternates(res.value)
              && |Trees(res.value)| == |found|
              && forall i :: 0 <= i < |found| ==> IsTreeOf(Trees(res.value)[i], e.hay, r.groupParent, found[i])
  {
    hide Answer, RequiredOf, Begins, Consistent, EmitProgram, Branching, Parented, Successive, LeftToRight, MinLen, Tracked, Bounds,
         AnalysisText, Trees, IsTree, IsTreeOf, Alternates, WellCaptured, Capture, Nested, Ascending;
    found := [];
    if r.minLen == 0 {
      return Err(MatchesEmptyString), found;
    }
    var call := new Call(Groups);
    var all;
    all, found := ForEachMatch(r, call, e, n);
    if all.None? {
      return Err(OverLimit), found;
    }
    var out: seq<AnalyzeEntry>, last := [], 0;
    NothingAnalyzed(e.hay);
    for i := 0 to |all.value|
      invariant last == Since(Cuts(found), i) <= |e.hay| && AnalysisText(out) == e.hay[..last]
      invariant Alternates(out) && (out != [] ==> out[|out| - 1].Match?)
      invariant |Trees(out)| == i && forall j :: 0 <= j < i ==> IsTreeOf(Trees(out)[j], e.hay, r.groupParent, found[j])
    {
      var slots := all.value[i];
      SlotsAreFound(r, n, e, found, i);
      var cut := Bounds(slots);
      FoundInOrder(r, n, e, found, i);
      if cut.0 > last {
        AnalysisBetween(out, e.hay, last, cut.0);
        out := out + [NonMatch(e.hay[last..cut.0])];
      }
      var tree := GroupTree(e.hay, r.groupParent, slots, cut.0, cut.1);
      AnalysisMatch(out, e.hay, cut.0, cut.1, tree, slots);
      TreeOf(tree, e.hay, r.groupParent, found[i]);
      out := out + [Match(tree)];
      last := cut.1;
    }
    if last < |e.hay| {
      AnalysisBetween(out, e.hay, last, |e.hay|);
      out := out + [NonMatch(e.hay[last..])];
    }
    assert e.hay[..|e.hay|] == e.hay;
    res := Ok(out);
  }

  lemma NothingAnalyzed(hay: string)
    ensures AnalysisText([]) == hay[..0] && Trees([]) == [] && Alternates([])
  {
  }

  lemma TreeOf(tree: seq<MatchEntry>, hay: string, parents: seq<nat>, t: State)
    requires IsTree(tree, hay, t.slots, Bounds(t.slots).0, Bounds(t.slots).1)
    requires IsForest(parents) && Nested(parents, t.slots, 0, tree) && Ascending(t.slots, tree)
    requires forall x: nat :: x in Numbers(tree) <==> 0 < x < |parents| && Capture(t.slots, x).Some?
    ensures IsTreeOf(tree, hay, parents, t)
  {
  }

  /** A call that needs every group reports the match's own slots. */
  lemma SlotsAreFound(r: Regex, n: Node, e: Env, found: seq<State>, i: nat)
    requires Whole(r, n) && Successive(n, e, AllSlots(r), found) && i < |found|
    ensures Tracked(r, Groups, found[i].slots) == found[i].slots
  {
    hide Built, Successive;
    FoundSlots(r, n, e, found, i);
  }

  lemma FoundInOrder(r: Regex, n: Node, e: Env, found: seq<State>, i: nat)
    requires Whole(r, n) && Successive(n, e, AllSlots(r), found) && i < |found|
    ensures Since(Cuts(found), i) <= Bounds(found[i].slots).0 <= Bounds(found[i].slots).1 <= |e.hay|
    ensures WellCaptured(r.groupParent, found[i].slots, Bounds(found[i].slots).0, Bounds(found[i].slots).1)
  {
    hide Built, Successive, WellCaptured, Parented, Bounds;
    SuccessiveFound(n, e, r.groupParent, found, i);
    if i > 0 {
      SuccessiveFound(n, e, r.groupParent, found, i - 1);
    }
  }
}
