/** Replacing matches by the groups they consist of changes nothing. */
module RoundTrips {
  import opened Options
  import opened Syntax
  import opened Denotation
  import opened Paths
  import opened Captures
  import opened GroupNumbers
  import opened Searches
  import opened Finding
  import opened Replacements
  import opened Spelling
  import opened Operations
  import Prefilter

  /** A concatenation of groups. */
  predicate AreGroups(parts: seq<Node>) {
    forall i :: 0 <= i < |parts| ==> parts[i].Group? && parts[i].capture.Some?
  }

  /** The groups' numbers. */
  function NumbersOf(parts: seq<Node>): (ns: seq<nat>)
    requires AreGroups(parts)
    ensures |ns| == |parts| && forall i :: 0 <= i < |parts| ==> ns[i] == parts[i].capture.value
  {
    seq(|parts|, i requires 0 <= i < |parts| => parts[i].capture.value)
  }

  /** Every slot of the groups is tracked. */
  ghost predicate Tracks(parts: seq<Node>, slots: Slots)
    requires AreGroups(parts)
  {
    forall i :: 0 <= i < |parts| ==> 2 * parts[i].capture.value + 1 < |slots|
  }

  lemma SameCapture(a: Slots, b: Slots, nr: nat)
    requires SameSlots(a, b, nr)
    ensures Capture(a, nr) == Capture(b, nr)
  {
  }

  /** The groups' captures, one after the other, are all that was matched. */
  lemma {:induction false} GroupsCover(parts: seq<Node>, k: nat, e: Env, s: State, t: State, slots: Slots)
    requires AreGroups(parts) && AllNumbered(parts, k).Some? && Tracks(parts, s.slots) && PathThrough(parts, e, s, t)
    requires s.pos <= |e.hay| && forall nr: nat :: AnyHas(parts, nr) ==> SameSlots(t.slots, slots, nr)
    ensures s.pos <= t.pos <= |e.hay| && Expansion(Refs(NumbersOf(parts)), e.hay, slots) == e.hay[s.pos..t.pos]
    decreases |parts|
  {
    hide Path, Has, Numbered, Expansion, Capture;
    if parts == [] {
      NothingExpands(e.hay, slots);
      assert Refs(NumbersOf(parts)) == [];
    } else {
      var m := FirstPart(parts, e, s, t);
      var first, rest := parts[0], parts[1..];
      var nr := first.capture.value;
      var next := Numbered(first, k).value;
      FirstCaptured(first, k, e, s, m);
      NumbersAre(first, k);
      AllNumbersAre(rest, next);
      HasItself(first, nr);
      assert !AnyHas(rest, nr) && AnyHas(parts, nr);
      ThroughKeepsOthers(rest, next, e, m, t, nr);
      SameCapture(m.slots, t.slots, nr);
      SameCapture(t.slots, slots, nr);
      PathKeepsLength(first, e, s, m);
      PathKeepsOthers(first, k, e, s, m, next);
      GroupsCover(rest, next, e, m, t, slots);
      ExpansionRef(nr, e.hay, slots);
      CapturedText(e.hay, slots, nr, s.pos, m.pos);
      assert Refs(NumbersOf(parts)) == [Ref(nr)] + Refs(NumbersOf(rest));
      ExpansionAppend([Ref(nr)], Refs(NumbersOf(rest)), e.hay, slots);
      assert e.hay[s.pos..m.pos] + e.hay[m.pos..t.pos] == e.hay[s.pos..t.pos];
    }
  }

  lemma NothingExpands(hay: string, slots: Slots)
    ensures Expansion([], hay, slots) == ""
  {
  }

  lemma CapturedText(hay: string, slots: Slots, nr: nat, a: nat, b: nat)
    requires Capture(slots, nr) == Some((a, b)) && a <= b <= |hay|
    ensures CaptureText(hay, slots, nr) == hay[a..b]
  {
  }

  lemma HasItself(n: Node, nr: nat)
    requires n.Group? && n.capture == Some(nr)
    ensures Has(n, nr)
  {
  }

  lemma FirstCaptured(n: Node, k: nat, e: Env, s: State, m: State)
    requires n.Group? && n.capture.Some? && Numbered(n, k).Some? && 2 * n.capture.value + 1 < |s.slots| && Path(n, e, s, m)
    ensures Capture(m.slots, n.capture.value) == Some((s.pos, m.pos))
  {
    hide Path;
    GroupIsCaptured(k, n.inner, e, s, m);
  }

  lemma PathKeepsLength(n: Node, e: Env, s: State, t: State)
    requires Path(n, e, s, t)
    ensures s.pos <= t.pos <= |e.hay|
  {
    Prefilter.PathIsOnward(n, e, s, t);
  }

  /** In a match of a concatenation of groups, the groups' captures are the match. */
  lemma MatchIsItsGroups(parts: seq<Node>, e: Env, parents: seq<nat>, found: seq<State>, i: nat)
    requires IsForest(parents) && Parented(Concat(parts), 0, parents) && Successive(Concat(parts), e, 2 * |parents|, found) && i < |found|
    requires AreGroups(parts) && Numbered(Concat(parts), 1).Some?
    ensures var cut := Operations.Bounds(found[i].slots);
            cut.0 <= cut.1 <= |e.hay| && Expansion(Refs(NumbersOf(parts)), e.hay, found[i].slots) == e.hay[cut.0..cut.1]
  {
    hide Path, Parented, Successive, Numbered, Has, Expansion, AllMatches, From, WellCaptured, Capture;
    var n, width := Concat(parts), 2 * |parents|;
    SuccessiveFound(n, e, parents, found, i);
    NextBegins(n, e, parents, found, i);
    var t, q := found[i], Operations.Bounds(found[i].slots).0;
    MatchIsPath(n, e, width, q);
    var s := Saved(Start(q, width).s, 0);
    var m := InsideGroup(0, n, e, Start(q, width).s, t);
    ConcatIsThrough(parts, e, s, m);
    NumbersAre(n, 1);
    forall nr: nat | AnyHas(parts, nr) ensures SameSlots(m.slots, t.slots, nr) {
      ConcatHas(parts, nr);
    }
    GroupsAreTracked(parts, parents);
    NumberedParts(parts);
    GroupsCover(parts, 1, e, s, m, t.slots);
  }

  lemma ConcatHas(parts: seq<Node>, nr: nat)
    ensures Has(Concat(parts), nr) <==> AnyHas(parts, nr)
  {
  }

  lemma NumberedParts(parts: seq<Node>)
    ensures Numbered(Concat(parts), 1) == AllNumbered(parts, 1)
  {
  }

  lemma ConcatIsThrough(parts: seq<Node>, e: Env, s: State, t: State)
    requires Path(Concat(parts), e, s, t)
    ensures PathThrough(parts, e, s, t) && s.pos <= |e.hay|
  {
  }

  lemma GroupsAreTracked(parts: seq<Node>, parents: seq<nat>)
    requires IsForest(parents) && Parented(Concat(parts), 0, parents) && AreGroups(parts)
    ensures forall i :: 0 <= i < |parts| ==> 2 * parts[i].capture.value + 1 < 2 * |parents|
  {
    forall i | 0 <= i < |parts| ensures parts[i].capture.value < |parents| {
      EachParented(parts, i, 0, parents);
    }
  }

  /** Replacing each match of a concatenation of groups by all the groups, as in `$1$2`, changes nothing. */
  lemma ReplacingByItsGroups(parts: seq<Node>, e: Env, parents: seq<nat>, found: seq<State>)
    requires IsForest(parents) && Parented(Concat(parts), 0, parents) && Successive(Concat(parts), e, 2 * |parents|, found)
    requires AreGroups(parts) && Numbered(Concat(parts), 1) == Some(|parents|)
    ensures InOrder(Cuts(found), |e.hay|)
    ensures Pieces(Dollars(NumbersOf(parts)), 0, |parents| - 1) == Some(Refs(NumbersOf(parts)))
    ensures Woven(Tokens(e.hay, Cuts(found)), Substitutes(Refs(NumbersOf(parts)), e.hay, found), |found|) == e.hay
  {
    hide Successive, Parented, Woven, Numbered, Pieces, Expansion, Dollars, Refs, NumbersOf;
    SuccessiveInOrder(Concat(parts), e, parents, found);
    DollarsOfGroups(parts, parents);
    forall i | 0 <= i < |found|
      ensures IsText(e.hay, Cuts(found)[i], Substitutes(Refs(NumbersOf(parts)), e.hay, found)[i])
    {
      MatchIsItsGroups(parts, e, parents, found, i);
    }
    ItselfWoven(e.hay, Cuts(found), Substitutes(Refs(NumbersOf(parts)), e.hay, found));
  }

  lemma DollarsOfGroups(parts: seq<Node>, parents: seq<nat>)
    requires IsForest(parents) && Parented(Concat(parts), 0, parents) && AreGroups(parts)
    ensures Pieces(Dollars(NumbersOf(parts)), 0, |parents| - 1) == Some(Refs(NumbersOf(parts)))
  {
    hide Parented, Pieces, Dollars, Refs;
    GroupsAreTracked(parts, parents);
    var ns := NumbersOf(parts);
    assert Dollars(ns)[0..] == Dollars(ns);
    DollarsRead(ns, Dollars(ns), 0, |parents| - 1);
  }

  /** Each match replaced by its own text. */
  lemma ItselfWoven(hay: string, cuts: seq<(nat, nat)>, texts: seq<string>)
    requires InOrder(cuts, |hay|) && |texts| == |cuts|
    requires forall i :: 0 <= i < |cuts| ==> IsText(hay, cuts[i], texts[i])
    ensures Woven(Tokens(hay, cuts), texts, |cuts|) == hay
  {
    hide Woven, InOrder;
    forall i | 0 <= i < |cuts| ensures texts[i] == Texts(hay, cuts)[i] {
      assert IsText(hay, cuts[i], texts[i]);
    }
    assert texts == Texts(hay, cuts);
    TokensRebuild(hay, cuts, |cuts|);
    assert hay[..|hay|] == hay;
  }

  predicate IsText(hay: string, cut: (nat, nat), text: string) {
    cut.0 <= cut.1 <= |hay| && text == hay[cut.0..cut.1]
  }

  /** So does replacing each match of a group by `$1`. */
  lemma ReplacingByTheGroup(inner: Node, e: Env, parents: seq<nat>, found: seq<State>)
    requires var n := Group(Some(1), inner);
             && IsForest(parents) && Parented(n, 0, parents) && Successive(n, e, 2 * |parents|, found)
             && Numbered(n, 1) == Some(|parents|)
    ensures InOrder(Cuts(found), |e.hay|)
    ensures Woven(Tokens(e.hay, Cuts(found)), Substitutes([Ref(1)], e.hay, found), |found|) == e.hay
  {
    hide Successive, Parented, Woven, Numbered, Expansion;
    SuccessiveInOrder(Group(Some(1), inner), e, parents, found);
    forall i | 0 <= i < |found|
      ensures IsText(e.hay, Cuts(found)[i], Substitutes([Ref(1)], e.hay, found)[i])
    {
      MatchIsItsGroup(inner, e, parents, found, i);
    }
    ItselfWoven(e.hay, Cuts(found), Substitutes([Ref(1)], e.hay, found));
  }

  lemma MatchIsItsGroup(inner: Node, e: Env, parents: seq<nat>, found: seq<State>, i: nat)
    requires var n := Group(Some(1), inner);
             && IsForest(parents) && Parented(n, 0, parents) && Successive(n, e, 2 * |parents|, found) && i < |found|
             && Numbered(n, 1).Some?
    ensures var cut := Operations.Bounds(found[i].slots);
            cut.0 <= cut.1 <= |e.hay| && Expansion([Ref(1)], e.hay, found[i].slots) == e.hay[cut.0..cut.1]
  {
    hide Path, Successive, Has, Expansion, AllMatches, From, WellCaptured, Capture, Numbered;
    var n, width := Group(Some(1), inner), 2 * |parents|;
    SuccessiveFound(n, e, parents, found, i);
    NextBegins(n, e, parents, found, i);
    var t, q := found[i], Operations.Bounds(found[i].slots).0;
    MatchIsPath(n, e, width, q);
    var s := Saved(Start(q, width).s, 0);
    var m := InsideGroup(0, n, e, Start(q, width).s, t);
    GroupParented(inner, parents);
    FirstCaptured(n, 1, e, s, m);
    SameCapture(m.slots, t.slots, 1);
    ExpansionRef(1, e.hay, t.slots);
    CapturedText(e.hay, t.slots, 1, q, t.pos);
  }

  lemma GroupParented(inner: Node, parents: seq<nat>)
    requires IsForest(parents) && Parented(Group(Some(1), inner), 0, parents)
    ensures |parents| > 1
  {
  }
}
