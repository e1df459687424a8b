/** The tree of groups `fn:analyze-string` reports for a match. */
module GroupTrees {
  import opened Options
  import opened Denotation
  import opened Captures

  datatype MatchEntry =
    | Text(text: string)
    | Group(nr: nat, value: seq<MatchEntry>)

  /** A group that took part: the group it nests under, its capture and its number. */
  datatype Placed = Placed(parent: nat, start: nat, end: nat, nr: nat)

  // ----- what a tree says -----

  function TextOf(es: seq<MatchEntry>): string {
    if es == [] then "" else EntryText(es[0]) + TextOf(es[1..])
  }

  function EntryText(e: MatchEntry): string {
    match e
    case Text(text) => text
    case Group(_, value) => TextOf(value)
  }

  /** The numbers of the groups in a tree, an outer one first. */
  function Numbers(es: seq<MatchEntry>): seq<nat> {
    if es == [] then [] else EntryNumbers(es[0]) + Numbers(es[1..])
  }

  function EntryNumbers(e: MatchEntry): seq<nat> {
    match e
    case Text(_) => []
    case Group(nr, value) => [nr] + Numbers(value)
  }

  /** Each group's text is its capture. */
  predicate Faithful(es: seq<MatchEntry>, hay: string, slots: Slots) {
    es == [] || (EntryFaithful(es[0], hay, slots) && Faithful(es[1..], hay, slots))
  }

  predicate EntryFaithful(e: MatchEntry, hay: string, slots: Slots) {
    match e
    case Text(text) => text != ""
    case Group(nr, value) =>
      && Faithful(value, hay, slots)
      && var c := Capture(slots, nr);
         c.Some? && c.value.0 <= c.value.1 <= |hay| && TextOf(value) == hay[c.value.0..c.value.1]
  }

  lemma {:induction false} TextAppend(es: seq<MatchEntry>, e: MatchEntry)
    ensures TextOf(es + [e]) == TextOf(es) + EntryText(e)
    decreases |es|
  {
    if es == [] {
      assert [e][1..] == [];
    } else {
      assert (es + [e])[1..] == es[1..] + [e];
      TextAppend(es[1..], e);
    }
  }

  lemma {:induction false} NumbersAppend(es: seq<MatchEntry>, e: MatchEntry)
    ensures Numbers(es + [e]) == Numbers(es) + EntryNumbers(e)
    decreases |es|
  {
    if es == [] {
      assert [e][1..] == [];
    } else {
      assert (es + [e])[1..] == es[1..] + [e];
      NumbersAppend(es[1..], e);
    }
  }

  lemma {:induction false} FaithfulAppend(es: seq<MatchEntry>, e: MatchEntry, hay: string, slots: Slots)
    requires Faithful(es, hay, slots) && EntryFaithful(e, hay, slots)
    ensures Faithful(es + [e], hay, slots)
    decreases |es|
  {
    if es != [] {
      assert (es + [e])[1..] == es[1..] + [e];
      FaithfulAppend(es[1..], e, hay, slots);
    }
  }

  // ----- placing -----

  predicate Contains(slots: Slots, p: nat, a: nat, b: nat) {
    Capture(slots, p).Some? && Capture(slots, p).value.0 <= a && b <= Capture(slots, p).value.1
  }

  /** The first of `p` and the groups around it whose capture contains the stretch, or 0. */
  function Nearest(parents: seq<nat>, slots: Slots, p: nat, a: nat, b: nat): (near: nat)
    requires |parents| > 0 && forall y :: 0 < y < |parents| ==> parents[y] < y
    requires p < |parents|
    ensures near <= p && (near > 0 ==> Contains(slots, near, a, b))
    decreases p
  {
    if p == 0 || Contains(slots, p, a, b) then p else Nearest(parents, slots, parents[p], a, b)
  }

  lemma {:induction false} NearestIsAround(parents: seq<nat>, slots: Slots, p: nat, a: nat, b: nat, n: nat)
    requires IsForest(parents) && p < n < |parents| && (parents[n] == p || Around(parents, p, n))
    ensures var near := Nearest(parents, slots, p, a, b);
            near < n && Around(parents, near, n) && (near > 0 ==> Contains(slots, near, a, b))
    decreases p
  {
    if !(p == 0 || Contains(slots, p, a, b)) {
      ParentIsAround(parents, parents[p], p);
      AroundTrans(parents, parents[p], p, n);
      NearestIsAround(parents, slots, parents[p], a, b, n);
    } else if parents[n] == p {
      ParentIsAround(parents, p, n);
    }
  }

  /** A group around whose capture contains the stretch is not passed by. */
  lemma {:induction false} NearestStops(parents: seq<nat>, slots: Slots, p: nat, a: nat, b: nat, x: nat)
    requires IsForest(parents) && p < |parents| && x > 0 && Contains(slots, x, a, b)
    requires x == p || Around(parents, x, p)
    ensures Nearest(parents, slots, p, a, b) >= x
    decreases p
  {
    if x == p {
    } else {
      AroundIsLess(parents, x, p);
      if !Contains(slots, p, a, b) {
        NearestStops(parents, slots, parents[p], a, b, x);
      }
    }
  }

  /** Where a group is placed. */
  predicate IsPlaced(parents: seq<nat>, slots: Slots, x: Placed)
    requires |parents| > 0 && forall y :: 0 < y < |parents| ==> parents[y] < y
  {
    && 0 < x.nr < |parents| && Capture(slots, x.nr) == Some((x.start, x.end))
    && x.parent == Nearest(parents, slots, parents[x.nr], x.start, x.end)
  }

  /** Each group directly in the tree of group `p`, or of the match if `p` is 0, belongs there, and so on inside it. */
  ghost predicate Nested(parents: seq<nat>, slots: Slots, p: nat, es: seq<MatchEntry>)
    requires IsForest(parents)
    decreases es
  {
    es == [] || (EntryNested(parents, slots, p, es[0]) && Nested(parents, slots, p, es[1..]))
  }

  /** A group belongs directly under the nearest group around it that took part and contains its capture. */
  ghost predicate EntryNested(parents: seq<nat>, slots: Slots, p: nat, e: MatchEntry)
    requires IsForest(parents)
    decreases e
  {
    match e
    case Text(_) => true
    case Group(nr, value) =>
      && Capture(slots, nr).Some?
      && IsPlaced(parents, slots, Placed(p, Capture(slots, nr).value.0, Capture(slots, nr).value.1, nr))
      && Nested(parents, slots, nr, value)
  }

  lemma {:induction false} NestedAppend(parents: seq<nat>, slots: Slots, p: nat, es: seq<MatchEntry>, e: MatchEntry)
    requires IsForest(parents) && Nested(parents, slots, p, es) && EntryNested(parents, slots, p, e)
    ensures Nested(parents, slots, p, es + [e])
    decreases |es|
  {
    if es != [] {
      assert (es + [e])[1..] == es[1..] + [e];
      NestedAppend(parents, slots, p, es[1..], e);
    }
  }

  lemma NestedText(parents: seq<nat>, slots: Slots, p: nat, es: seq<MatchEntry>, text: string)
    requires IsForest(parents) && Nested(parents, slots, p, es)
    ensures Nested(parents, slots, p, es + [Text(text)])
  {
    NestedAppend(parents, slots, p, es, Text(text));
  }

  lemma NestedGroup(parents: seq<nat>, slots: Slots, x: Placed, value: seq<MatchEntry>)
    requires IsForest(parents) && IsPlaced(parents, slots, x) && Nested(parents, slots, x.nr, value)
    ensures EntryNested(parents, slots, x.parent, Group(x.nr, value))
  {
  }

  predicate Before(x: Placed, y: Placed) {
    || x.parent < y.parent
    || (x.parent == y.parent && x.start < y.start)
    || (x.parent == y.parent && x.start == y.start && x.end < y.end)
    || (x.parent == y.parent && x.start == y.start && x.end == y.end && x.nr <= y.nr)
  }

  predicate Sorted(xs: seq<Placed>) {
    forall i, j :: 0 <= i < j < |xs| ==> Before(xs[i], xs[j])
  }

  /** The groups that took part, each placed once. */
  ghost predicate PlacedAll(parents: seq<nat>, slots: Slots, xs: seq<Placed>)
    requires IsForest(parents)
  {
    && (forall i :: 0 <= i < |xs| ==> IsPlaced(parents, slots, xs[i]))
    && (forall i, j :: 0 <= i < j < |xs| ==> xs[i].nr != xs[j].nr)
    && (forall n :: 0 < n < |parents| && Capture(slots, n).Some? ==> exists i :: 0 <= i < |xs| && xs[i].nr == n)
  }

  /** Siblings in order do not overlap: every capture lies on the one path the match took. */
  lemma SiblingsAreApart(parents: seq<nat>, slots: Slots, q: nat, pos: nat, x: Placed, y: Placed)
    requires IsForest(parents) && WellCaptured(parents, slots, q, pos)
    requires IsPlaced(parents, slots, x) && IsPlaced(parents, slots, y)
    requires x.nr != y.nr && x.parent == y.parent && Before(x, y)
    ensures q <= x.start <= x.end <= y.start <= y.end <= pos
  {
    hide Around;
    assert Compatible(parents, slots, x.nr, y.nr);
    ParentIsAround(parents, parents[x.nr], x.nr);
    ParentIsAround(parents, parents[y.nr], y.nr);
    NearestIsAround(parents, slots, parents[x.nr], x.start, x.end, x.nr);
    NearestIsAround(parents, slots, parents[y.nr], y.start, y.end, y.nr);
    if Around(parents, x.nr, y.nr) && Contains(slots, x.nr, y.start, y.end) {
      AroundStep(parents, x.nr, y.nr);
      NearestStops(parents, slots, parents[y.nr], y.start, y.end, x.nr);
    }
    if Around(parents, y.nr, x.nr) && Contains(slots, y.nr, x.start, x.end) {
      AroundStep(parents, y.nr, x.nr);
      NearestStops(parents, slots, parents[x.nr], x.start, x.end, y.nr);
    }
  }

  lemma AroundStep(parents: seq<nat>, x: nat, y: nat)
    requires IsForest(parents) && Around(parents, x, y)
    ensures x == parents[y] || Around(parents, x, parents[y])
  {
  }

  // ----- the order of siblings -----

  /** A group's capture is before another's: it begins earlier, or else ends earlier, or else its group has the lower number. */
  predicate Ahead(slots: Slots, x: nat, y: nat) {
    var a, b := Capture(slots, x), Capture(slots, y);
    && a.Some? && b.Some? && a.value.0 <= b.value.0
    && (a.value.0 == b.value.0 ==> a.value.1 <= b.value.1 && (a.value.1 == b.value.1 ==> x < y))
  }

  /** The groups next to each other in a tree are in that order, and so on inside each. */
  ghost predicate Ascending(slots: Slots, es: seq<MatchEntry>)
    decreases es
  {
    && (forall i, j :: 0 <= i < j < |es| && es[i].Group? && es[j].Group? ==> Ahead(slots, es[i].nr, es[j].nr))
    && forall i :: 0 <= i < |es| && es[i].Group? ==> Ascending(slots, es[i].value)
  }

  lemma AscendingText(slots: Slots, es: seq<MatchEntry>, text: string)
    requires Ascending(slots, es)
    ensures Ascending(slots, es + [Text(text)])
  {
    hide Ahead;
  }

  lemma AscendingGroup(slots: Slots, es: seq<MatchEntry>, nr: nat, value: seq<MatchEntry>)
    requires Ascending(slots, es) && Ascending(slots, value)
    requires forall i :: 0 <= i < |es| && es[i].Group? ==> Ahead(slots, es[i].nr, nr)
    ensures Ascending(slots, es + [Group(nr, value)])
  {
    hide Ahead;
  }

  /** The groups next to each other in a tree are placed from `from` on and before `i`. */
  ghost predicate Drawn(xs: seq<Placed>, from: nat, i: nat, es: seq<MatchEntry>)
    requires from <= i <= |xs|
  {
    forall k :: 0 <= k < |es| && es[k].Group? ==> exists j :: from <= j < i && xs[j].nr == es[k].nr
  }

  lemma DrawnText(xs: seq<Placed>, from: nat, i: nat, es: seq<MatchEntry>, text: string)
    requires from <= i <= |xs| && Drawn(xs, from, i, es)
    ensures Drawn(xs, from, i, es + [Text(text)])
  {
  }

  lemma DrawnGroup(xs: seq<Placed>, from: nat, i: nat, es: seq<MatchEntry>, value: seq<MatchEntry>)
    requires from <= i < |xs| && Drawn(xs, from, i, es)
    ensures Drawn(xs, from, i + 1, es + [Group(xs[i].nr, value)])
  {
    var all := es + [Group(xs[i].nr, value)];
    forall k | 0 <= k < |all| && all[k].Group? ensures exists j :: from <= j < i + 1 && xs[j].nr == all[k].nr {
      if k < |es| {
        var j :| from <= j < i && xs[j].nr == es[k].nr;
      } else {
        assert xs[i].nr == all[k].nr;
      }
    }
  }

  /** The next sibling is behind those before it. */
  lemma NextIsBehind(parents: seq<nat>, slots: Slots, xs: seq<Placed>, from: nat, i: nat, es: seq<MatchEntry>)
    requires IsForest(parents) && PlacedAll(parents, slots, xs) && Sorted(xs) && from <= i < |xs| && Drawn(xs, from, i, es)
    requires forall j :: from <= j <= i ==> xs[j].parent == xs[i].parent
    ensures forall k :: 0 <= k < |es| && es[k].Group? ==> Ahead(slots, es[k].nr, xs[i].nr)
  {
    hide Nearest, Capture;
    forall k | 0 <= k < |es| && es[k].Group? ensures Ahead(slots, es[k].nr, xs[i].nr) {
      var j :| from <= j < i && xs[j].nr == es[k].nr;
      assert IsPlaced(parents, slots, xs[j]) && IsPlaced(parents, slots, xs[i]) && Before(xs[j], xs[i]);
    }
  }

  // ----- which groups are where in the tree -----

  /** In the tree, group `x` is below group `p`, or below the match if `p` is 0. */
  ghost predicate Below(parents: seq<nat>, slots: Slots, p: nat, x: nat)
    requires IsForest(parents)
    decreases x
  {
    && 0 < x < |parents| && Capture(slots, x).Some?
    && var c := Capture(slots, x).value;
       var t := Nearest(parents, slots, parents[x], c.0, c.1);
       t == p || Below(parents, slots, p, t)
  }

  lemma {:induction false} BelowIsLess(parents: seq<nat>, slots: Slots, p: nat, x: nat)
    requires IsForest(parents) && Below(parents, slots, p, x)
    ensures p < x
    decreases x
  {
    var c := Capture(slots, x).value;
    var t := Nearest(parents, slots, parents[x], c.0, c.1);
    if t != p {
      BelowIsLess(parents, slots, p, t);
    }
  }

  lemma {:induction false} BelowTrans(parents: seq<nat>, slots: Slots, p: nat, x: nat, y: nat)
    requires IsForest(parents) && Below(parents, slots, p, x) && Below(parents, slots, x, y)
    ensures Below(parents, slots, p, y)
    decreases y
  {
    var c := Capture(slots, y).value;
    var t := Nearest(parents, slots, parents[y], c.0, c.1);
    if t != x {
      BelowTrans(parents, slots, p, x, t);
    }
  }

  /** Every group that took part is below the match. */
  lemma {:induction false} AllBelow(parents: seq<nat>, slots: Slots, x: nat)
    requires IsForest(parents) && 0 < x < |parents| && Capture(slots, x).Some?
    ensures Below(parents, slots, 0, x)
    decreases x
  {
    var c := Capture(slots, x).value;
    var t := Nearest(parents, slots, parents[x], c.0, c.1);
    if t > 0 {
      AllBelow(parents, slots, t);
    }
  }

  /** Of two groups one is below, one is below the other. */
  lemma {:induction false} BelowBoth(parents: seq<nat>, slots: Slots, p: nat, q: nat, x: nat)
    requires IsForest(parents) && Below(parents, slots, p, x) && Below(parents, slots, q, x)
    ensures p == q || Below(parents, slots, p, q) || Below(parents, slots, q, p)
    decreases x
  {
    var c := Capture(slots, x).value;
    var t := Nearest(parents, slots, parents[x], c.0, c.1);
    if t != p && t != q {
      BelowBoth(parents, slots, p, q, t);
    }
  }

  lemma PlacedIsBelow(parents: seq<nat>, slots: Slots, x: Placed)
    requires IsForest(parents) && IsPlaced(parents, slots, x)
    ensures Below(parents, slots, x.parent, x.nr) && x.parent < x.nr
  {
  }

  /** Siblings have nothing below both. */
  lemma SiblingsShareNothing(parents: seq<nat>, slots: Slots, x: Placed, y: Placed, n: nat)
    requires IsForest(parents) && IsPlaced(parents, slots, x) && IsPlaced(parents, slots, y)
    requires x.parent == y.parent && x.nr != y.nr
    requires n == x.nr || Below(parents, slots, x.nr, n)
    ensures n != y.nr && !Below(parents, slots, y.nr, n)
  {
    SiblingIsNotBelow(parents, slots, x, y);
    SiblingIsNotBelow(parents, slots, y, x);
    if n != x.nr && Below(parents, slots, y.nr, n) {
      BelowBoth(parents, slots, x.nr, y.nr, n);
    }
  }

  lemma SiblingIsNotBelow(parents: seq<nat>, slots: Slots, x: Placed, y: Placed)
    requires IsForest(parents) && IsPlaced(parents, slots, x) && IsPlaced(parents, slots, y) && x.parent == y.parent
    ensures !Below(parents, slots, x.nr, y.nr)
  {
    if Below(parents, slots, x.nr, x.parent) {
      BelowIsLess(parents, slots, x.nr, x.parent);
    }
  }

  /** The groups below `p` are the ones placed there, and those below them. */
  lemma {:induction false} BelowSplits(parents: seq<nat>, slots: Slots, xs: seq<Placed>, p: nat, n: nat) returns (j: nat)
    requires IsForest(parents) && PlacedAll(parents, slots, xs) && Below(parents, slots, p, n)
    ensures j < |xs| && xs[j].parent == p && (xs[j].nr == n || Below(parents, slots, xs[j].nr, n))
    decreases n
  {
    var c := Capture(slots, n).value;
    var t := Nearest(parents, slots, parents[n], c.0, c.1);
    if t == p {
      j :| 0 <= j < |xs| && xs[j].nr == n;
      assert IsPlaced(parents, slots, xs[j]);
    } else {
      j := BelowSplits(parents, slots, xs, p, t);
    }
  }

  // ----- building the tree -----

  function Insert(x: Placed, xs: seq<Placed>): seq<Placed> {
    if xs == [] || Before(x, xs[0]) then [x] + xs else [xs[0]] + Insert(x, xs[1..])
  }

  function Arrange(xs: seq<Placed>): seq<Placed> {
    if xs == [] then [] else Insert(xs[0], Arrange(xs[1..]))
  }

  ghost predicate Distinct(xs: seq<Placed>) {
    forall i, j :: 0 <= i < j < |xs| ==> xs[i].nr != xs[j].nr
  }

  lemma {:induction false} InsertArranges(x: Placed, xs: seq<Placed>)
    requires Sorted(xs) && Distinct(xs) && forall i :: 0 <= i < |xs| ==> xs[i].nr != x.nr
    ensures Sorted(Insert(x, xs)) && Distinct(Insert(x, xs))
    ensures forall y :: y in Insert(x, xs) <==> y == x || y in xs
    decreases |xs|
  {
    if !(xs == [] || Before(x, xs[0])) {
      var rest := Insert(x, xs[1..]);
      InsertArranges(x, xs[1..]);
      forall j | 0 <= j < |rest| ensures Before(xs[0], rest[j]) && xs[0].nr != rest[j].nr {
        assert rest[j] in rest;
      }
    }
  }

  lemma {:induction false} ArrangeArranges(xs: seq<Placed>)
    requires Distinct(xs)
    ensures Sorted(Arrange(xs)) && Distinct(Arrange(xs)) && forall y :: y in Arrange(xs) <==> y in xs
    decreases |xs|
  {
    hide Insert, Before;
    if xs != [] {
      ArrangeArranges(xs[1..]);
      var rest := Arrange(xs[1..]);
      forall i | 0 <= i < |rest| ensures rest[i].nr != xs[0].nr {
        assert rest[i] in rest;
      }
      InsertArranges(xs[0], rest);
    }
  }

  lemma ArrangedIsPlaced(parents: seq<nat>, slots: Slots, xs: seq<Placed>)
    requires IsForest(parents) && PlacedAll(parents, slots, xs)
    ensures PlacedAll(parents, slots, Arrange(xs)) && Sorted(Arrange(xs))
  {
    hide Arrange, IsPlaced, Before;
    ArrangeArranges(xs);
    var ys := Arrange(xs);
    forall i | 0 <= i < |ys| ensures IsPlaced(parents, slots, ys[i]) {
      assert ys[i] in ys;
    }
    forall n | 0 < n < |parents| && Capture(slots, n).Some? ensures exists i :: 0 <= i < |ys| && ys[i].nr == n {
      var i :| 0 <= i < |xs| && xs[i].nr == n;
      assert xs[i] in ys;
    }
  }

  /** The groups that took part, each under its nearest enclosing group that contains its capture. */
  method Place(parents: seq<nat>, slots: Slots) returns (xs: seq<Placed>)
    requires IsForest(parents)
    ensures PlacedAll(parents, slots, xs)
  {
    xs := [];
    for n := 1 to |parents|
      invariant forall i :: 0 <= i < |xs| ==> IsPlaced(parents, slots, xs[i]) && xs[i].nr < n
      invariant Distinct(xs)
      invariant forall m :: 0 < m < n && Capture(slots, m).Some? ==> exists i :: 0 <= i < |xs| && xs[i].nr == m
    {
      var c := Capture(slots, n);
      if c.Some? {
        var p: nat := parents[n];
        while p != 0 && !Contains(slots, p, c.value.0, c.value.1)
          invariant p < |parents|
          invariant Nearest(parents, slots, p, c.value.0, c.value.1) == Nearest(parents, slots, parents[n], c.value.0, c.value.1)
          decreases p
        {
          p := parents[p];
        }
        ghost var was := xs;
        xs := xs + [Placed(p, c.value.0, c.value.1, n)];
        assert xs[|xs| - 1].nr == n;
        assert forall i :: 0 <= i < |was| ==> xs[i] == was[i];
      }
    }
  }

  /** The first entry whose parent is at least `bound`. */
  method LowerBound(xs: seq<Placed>, bound: nat) returns (k: nat)
    requires Sorted(xs)
    ensures k <= |xs|
    ensures forall i :: 0 <= i < |xs| ==> (xs[i].parent < bound <==> i < k)
  {
    var lo, hi := 0, |xs|;
    while lo < hi
      invariant 0 <= lo <= hi <= |xs|
      invariant forall i :: 0 <= i < lo ==> xs[i].parent < bound
      invariant forall i :: hi <= i < |xs| ==> xs[i].parent >= bound
    {
      var mid := (lo + hi) / 2;
      if xs[mid].parent < bound {
        lo := mid + 1;
      } else {
        hi := mid;
      }
    }
    k := lo;
  }

  ghost predicate NoRepeats(s: seq<nat>) {
    forall i, j :: 0 <= i < j < |s| ==> s[i] != s[j]
  }

  lemma NoRepeatsAppend(a: seq<nat>, b: seq<nat>)
    requires NoRepeats(a) && NoRepeats(b) && forall x :: x in a ==> x !in b
    ensures NoRepeats(a + b)
  {
    forall i, j | 0 <= i < |a| && 0 <= j < |b| ensures a[i] != b[j] {
      assert a[i] in a && b[j] in b;
    }
  }

  /** Where the tree below `parent` lies in the text. */
  ghost predicate LiesAt(slots: Slots, q: nat, pos: nat, parent: nat, s: nat, e: nat) {
    if parent == 0 then s == q && e == pos else Capture(slots, parent) == Some((s, e)) && q <= s <= e <= pos
  }

  /** A tree's text, faithful to the captures, with the groups of `below` once each. */
  ghost predicate IsTree(es: seq<MatchEntry>, hay: string, slots: Slots, s: nat, e: nat) {
    s <= e <= |hay| && TextOf(es) == hay[s..e] && Faithful(es, hay, slots) && NoRepeats(Numbers(es))
  }

  lemma TextJoins(es: seq<MatchEntry>, entry: MatchEntry, hay: string, s: nat, m: nat, e: nat)
    requires s <= m <= e <= |hay| && TextOf(es) == hay[s..m] && EntryText(entry) == hay[m..e]
    ensures TextOf(es + [entry]) == hay[s..e]
  {
    TextAppend(es, entry);
    assert hay[s..m] + hay[m..e] == hay[s..e];
  }

  /** Text between groups joins a tree. */
  lemma AddText(es: seq<MatchEntry>, hay: string, slots: Slots, s: nat, m: nat, e: nat)
    requires IsTree(es, hay, slots, s, m) && m < e <= |hay|
    ensures IsTree(es + [Text(hay[m..e])], hay, slots, s, e)
    ensures Numbers(es + [Text(hay[m..e])]) == Numbers(es)
  {
    hide Faithful, NoRepeats;
    TextJoins(es, Text(hay[m..e]), hay, s, m, e);
    FaithfulAppend(es, Text(hay[m..e]), hay, slots);
    NumbersAppend(es, Text(hay[m..e]));
    assert Numbers(es) + [] == Numbers(es);
  }

  /** A group with its tree joins a tree. */
  lemma AddGroup(es: seq<MatchEntry>, nr: nat, value: seq<MatchEntry>, hay: string, slots: Slots, s: nat, m: nat, e: nat)
    requires IsTree(es, hay, slots, s, m) && IsTree(value, hay, slots, m, e) && Capture(slots, nr) == Some((m, e))
    requires nr !in Numbers(es) && nr !in Numbers(value)
    requires forall x :: x in Numbers(es) ==> x !in Numbers(value)
    ensures IsTree(es + [Group(nr, value)], hay, slots, s, e)
    ensures Numbers(es + [Group(nr, value)]) == Numbers(es) + ([nr] + Numbers(value))
  {
    hide Faithful;
    TextJoins(es, Group(nr, value), hay, s, m, e);
    FaithfulAppend(es, Group(nr, value), hay, slots);
    NumbersAppend(es, Group(nr, value));
    NoRepeatsAppend([nr], Numbers(value));
    NoRepeatsAppend(Numbers(es), [nr] + Numbers(value));
  }

  /** The next sibling begins where the one before it ended or later, and ends inside their parent. */
  lemma SiblingFits(parents: seq<nat>, slots: Slots, q: nat, pos: nat, xs: seq<Placed>, i: nat, from: nat, s: nat, e: nat)
    requires IsForest(parents) && WellCaptured(parents, slots, q, pos) && PlacedAll(parents, slots, xs) && Sorted(xs)
    requires from <= i < |xs| && LiesAt(slots, q, pos, xs[i].parent, s, e)
    requires from < i ==> xs[i - 1].parent == xs[i].parent
    ensures (if i == from then s else xs[i - 1].end) <= xs[i].start <= xs[i].end <= e
    ensures LiesAt(slots, q, pos, xs[i].nr, xs[i].start, xs[i].end)
  {
    hide Compatible, Nearest, Before;
    var x := xs[i];
    assert IsPlaced(parents, slots, x);
    PlacedInParent(parents, slots, x);
    if from < i {
      assert IsPlaced(parents, slots, xs[i - 1]) && Before(xs[i - 1], x) && xs[i - 1].nr != x.nr;
      SiblingsAreApart(parents, slots, q, pos, xs[i - 1], x);
    }
  }

  lemma PlacedInParent(parents: seq<nat>, slots: Slots, x: Placed)
    requires IsForest(parents) && IsPlaced(parents, slots, x)
    ensures x.parent > 0 ==> Contains(slots, x.parent, x.start, x.end)
  {
  }

  /** The numbers in the tree of the siblings before the `i`-th. */
  ghost predicate Holds(parents: seq<nat>, slots: Slots, xs: seq<Placed>, from: nat, i: nat, ns: seq<nat>)
    requires IsForest(parents) && from <= i <= |xs|
  {
    forall n :: n in ns <==> exists j :: from <= j < i && (n == xs[j].nr || Below(parents, slots, xs[j].nr, n))
  }

  lemma HoldsNext(parents: seq<nat>, slots: Slots, xs: seq<Placed>, from: nat, i: nat, ns: seq<nat>, more: seq<nat>)
    requires IsForest(parents) && PlacedAll(parents, slots, xs) && from <= i < |xs|
    requires forall j :: from <= j <= i ==> xs[j].parent == xs[i].parent
    requires Holds(parents, slots, xs, from, i, ns)
    requires forall n :: n in more <==> Below(parents, slots, xs[i].nr, n)
    ensures xs[i].nr !in ns && xs[i].nr !in more && forall n :: n in ns ==> n !in more
    ensures Holds(parents, slots, xs, from, i + 1, ns + ([xs[i].nr] + more))
  {
    hide Below, IsPlaced;
    var all := ns + ([xs[i].nr] + more);
    forall n | n in ns ensures n != xs[i].nr && n !in more {
      var j :| from <= j < i && (n == xs[j].nr || Below(parents, slots, xs[j].nr, n));
      SiblingsShareNothing(parents, slots, xs[j], xs[i], n);
    }
    if xs[i].nr in more {
      BelowIsLess(parents, slots, xs[i].nr, xs[i].nr);
    }
    forall n ensures n in all <==> exists j :: from <= j < i + 1 && (n == xs[j].nr || Below(parents, slots, xs[j].nr, n)) {
      if n in ns {
        var j :| from <= j < i && (n == xs[j].nr || Below(parents, slots, xs[j].nr, n));
      }
      if j :| from <= j < i + 1 && (n == xs[j].nr || Below(parents, slots, xs[j].nr, n)) {
        assert j < i ==> n in ns;
      }
    }
  }

  lemma HoldsAll(parents: seq<nat>, slots: Slots, xs: seq<Placed>, from: nat, to: nat, ns: seq<nat>, p: nat)
    requires IsForest(parents) && PlacedAll(parents, slots, xs) && from <= to <= |xs|
    requires forall j :: 0 <= j < |xs| ==> (xs[j].parent == p <==> from <= j < to)
    requires Holds(parents, slots, xs, from, to, ns)
    ensures forall n: nat :: n in ns <==> Below(parents, slots, p, n)
  {
    hide Below, IsPlaced;
    forall n: nat ensures n in ns <==> Below(parents, slots, p, n) {
      if n in ns {
        var j :| from <= j < to && (n == xs[j].nr || Below(parents, slots, xs[j].nr, n));
        PlacedIsBelow(parents, slots, xs[j]);
        if n != xs[j].nr {
          BelowTrans(parents, slots, p, xs[j].nr, n);
        }
      }
      if Below(parents, slots, p, n) {
        var j := BelowSplits(parents, slots, xs, p, n);
      }
    }
  }

  /** The content of group `parent`, or of the match: text, and the groups placed there with theirs. */
  method Emit(hay: string, parents: seq<nat>, slots: Slots, xs: seq<Placed>, parent: nat, s: nat, e: nat,
              ghost q: nat, ghost pos: nat)
    returns (out: seq<MatchEntry>)
    requires IsForest(parents) && WellCaptured(parents, slots, q, pos) && pos <= |hay|
    requires PlacedAll(parents, slots, xs) && Sorted(xs) && LiesAt(slots, q, pos, parent, s, e) && parent < |parents|
    ensures IsTree(out, hay, slots, s, e) && Nested(parents, slots, parent, out) && Ascending(slots, out)
    ensures forall n: nat :: n in Numbers(out) <==> Below(parents, slots, parent, n)
    decreases |parents| - parent
  {
    hide IsTree, Below, Before, IsPlaced, WellCaptured, Holds, EntryNested, Ascending, Drawn, Ahead;
    var from := LowerBound(xs, parent);
    var to := LowerBound(xs, parent + 1);
    assert from > 0 ==> xs[from - 1].parent < parent;
    out := [];
    var cursor := s;
    StartTree(hay, parents, slots, xs, from, s, e, q, pos);
    for i := from to to
      invariant cursor == if i == from then s else xs[i - 1].end
      invariant s <= cursor <= e && IsTree(out, hay, slots, s, cursor)
      invariant Holds(parents, slots, xs, from, i, Numbers(out)) && Nested(parents, slots, parent, out)
      invariant Ascending(slots, out) && Drawn(xs, from, i, out)
    {
      var x := xs[i];
      SiblingFits(parents, slots, q, pos, xs, i, from, s, e);
      PlacedIsBelow(parents, slots, x);
      if x.start > cursor {
        AddText(out, hay, slots, s, cursor, x.start);
        NestedText(parents, slots, parent, out, hay[cursor..x.start]);
        AscendingText(slots, out, hay[cursor..x.start]);
        DrawnText(xs, from, i, out, hay[cursor..x.start]);
        out := out + [Text(hay[cursor..x.start])];
      }
      var value := Emit(hay, parents, slots, xs, x.nr, x.start, x.end, q, pos);
      HoldsNext(parents, slots, xs, from, i, Numbers(out), Numbers(value));
      AddGroup(out, x.nr, value, hay, slots, s, x.start, x.end);
      NestedGroup(parents, slots, x, value);
      NestedAppend(parents, slots, parent, out, Group(x.nr, value));
      NextIsBehind(parents, slots, xs, from, i, out);
      AscendingGroup(slots, out, x.nr, value);
      DrawnGroup(xs, from, i, out, value);
      out := out + [Group(x.nr, value)];
      cursor := x.end;
    }
    if cursor < e {
      AddText(out, hay, slots, s, cursor, e);
      NestedText(parents, slots, parent, out, hay[cursor..e]);
      AscendingText(slots, out, hay[cursor..e]);
      out := out + [Text(hay[cursor..e])];
    }
    HoldsAll(parents, slots, xs, from, to, Numbers(out), parent);
  }

  lemma StartTree(hay: string, parents: seq<nat>, slots: Slots, xs: seq<Placed>, from: nat, s: nat, e: nat, q: nat, pos: nat)
    requires IsForest(parents) && from <= |xs| && WellCaptured(parents, slots, q, pos) && pos <= |hay|
    requires exists p :: LiesAt(slots, q, pos, p, s, e)
    ensures s <= e <= |hay| && IsTree([], hay, slots, s, s) && Holds(parents, slots, xs, from, from, Numbers([]))
    ensures Ascending(slots, []) && Drawn(xs, from, from, [])
  {
  }

  /**
   * The match's content: its text, every group that took part once, each with its capture as its text, under the
   * nearest group around it that contains it, and those next to each other in the order of their captures.
   */
  method GroupTree(hay: string, parents: seq<nat>, slots: Slots, ghost q: nat, ghost pos: nat) returns (out: seq<MatchEntry>)
    requires IsForest(parents) && WellCaptured(parents, slots, q, pos) && pos <= |hay|
    ensures IsTree(out, hay, slots, q, pos) && Nested(parents, slots, 0, out) && Ascending(slots, out)
    ensures forall n: nat :: n in Numbers(out) <==> 0 < n < |parents| && Capture(slots, n).Some?
  {
    hide IsTree, Below, IsPlaced, PlacedAll, Sorted, Nested, Ascending;
    var xs := Place(parents, slots);
    ArrangedIsPlaced(parents, slots, xs);
    var c := Capture(slots, 0).value;
    out := Emit(hay, parents, slots, Arrange(xs), 0, c.0, c.1, q, pos);
    forall n: nat ensures Below(parents, slots, 0, n) <==> 0 < n < |parents| && Capture(slots, n).Some? {
      BelowAny(parents, slots, n);
    }
  }

  lemma BelowAny(parents: seq<nat>, slots: Slots, n: nat)
    requires IsForest(parents)
    ensures Below(parents, slots, 0, n) <==> 0 < n < |parents| && Capture(slots, n).Some?
  {
    if 0 < n < |parents| && Capture(slots, n).Some? {
      AllBelow(parents, slots, n);
    }
  }
}
