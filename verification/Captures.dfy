/**
 * Captures nest: those of two groups lie apart, or one inside the other if the groups are so in the pattern. Every
 * capture lies on the one path the match took, and one from an earlier iteration lies before the later ones.
 */
module Captures {
  import opened Options
  import opened CharSets
  import opened Syntax
  import opened Denotation
  import opened Paths

  /** For each group the nearest group around it, or 0. */
  ghost predicate IsForest(parents: seq<nat>) {
    |parents| > 0 && forall y :: 0 < y < |parents| ==> parents[y] < y
  }

  /** `x` is around `y`. */
  ghost predicate Around(parents: seq<nat>, x: nat, y: nat)
    requires IsForest(parents)
    decreases y
  {
    0 < y < |parents| && (parents[y] == x || Around(parents, x, parents[y]))
  }

  lemma {:induction false} AroundTrans(parents: seq<nat>, x: nat, y: nat, z: nat)
    requires IsForest(parents) && Around(parents, x, y) && Around(parents, y, z)
    ensures Around(parents, x, z)
    decreases z
  {
    if parents[z] != y {
      AroundTrans(parents, x, y, parents[z]);
    }
  }

  lemma {:induction false} AroundIsLess(parents: seq<nat>, x: nat, y: nat)
    requires IsForest(parents) && Around(parents, x, y)
    ensures x < y
    decreases y
  {
    if parents[y] != x {
      AroundIsLess(parents, x, parents[y]);
    }
  }

  /** The groups of a node, directly inside group `p` where no other group is between, have the parents listed. */
  ghost predicate Parented(n: Node, p: nat, parents: seq<nat>) {
    match n
    case Group(Some(nr), inner) => p < nr < |parents| && parents[nr] == p && Parented(inner, nr, parents)
    case Group(None, inner) => Parented(inner, p, parents)
    case Concat(parts) => AllParented(parts, p, parents)
    case Alt(branches) => AllParented(branches, p, parents)
    case Repeat(body, _, _, _) => Parented(body, p, parents)
    case _ => true
  }

  ghost predicate AllParented(ns: seq<Node>, p: nat, parents: seq<nat>) {
    ns == [] || (Parented(ns[0], p, parents) && AllParented(ns[1..], p, parents))
  }

  lemma {:induction false} SpanIsInside(n: Node, p: nat, parents: seq<nat>)
    requires Parented(n, p, parents)
    ensures GroupSpan(n).Some? ==> p < GroupSpan(n).value.0
  {
    match n
    case Group(Some(nr), inner) => SpanIsInside(inner, nr, parents);
    case Group(None, inner) => SpanIsInside(inner, p, parents);
    case Concat(parts) => SpansAreInside(parts, p, parents);
    case Alt(branches) => SpansAreInside(branches, p, parents);
    case Repeat(body, _, _, _) => SpanIsInside(body, p, parents);
    case _ =>
  }

  lemma {:induction false} SpansAreInside(ns: seq<Node>, p: nat, parents: seq<nat>)
    requires AllParented(ns, p, parents)
    ensures GroupSpans(ns).Some? ==> p < GroupSpans(ns).value.0
  {
    if ns != [] {
      SpanIsInside(ns[0], p, parents);
      SpansAreInside(ns[1..], p, parents);
    }
  }

  // ----- captures on one path -----

  /** The start and the end of a group's capture, if it took part. */
  function Capture(slots: Slots, x: nat): Option<(nat, nat)> {
    if 2 * x + 1 < |slots| && slots[2 * x].Some? && slots[2 * x + 1].Some? then
      Some((slots[2 * x].value, slots[2 * x + 1].value))
    else None
  }

  /** What the captures of two groups have to do with each other. */
  ghost predicate Compatible(parents: seq<nat>, slots: Slots, x: nat, y: nat)
    requires IsForest(parents)
  {
    match (Capture(slots, x), Capture(slots, y))
    case (Some(a), Some(b)) =>
      if Around(parents, x, y) then (a.0 <= b.0 && b.1 <= a.1) || b.1 <= a.0
      else if Around(parents, y, x) then (b.0 <= a.0 && a.1 <= b.1) || a.1 <= b.0
      else a.1 <= b.0 || b.1 <= a.0
    case _ => true
  }

  /** A group that is open inside group `p`, or `p`. */
  ghost predicate Open(parents: seq<nat>, p: nat, x: nat)
    requires IsForest(parents)
  {
    x == p || Around(parents, x, p)
  }

  /** The captures of the groups not open here are complete, behind this position, and nest. */
  ghost predicate Laminar(parents: seq<nat>, p: nat, s: State)
    requires IsForest(parents)
  {
    && (forall x: nat :: !Open(parents, p, x) && Capture(s.slots, x).Some? ==>
          Capture(s.slots, x).value.0 <= Capture(s.slots, x).value.1 <= s.pos)
    && (forall x: nat, y: nat :: !Open(parents, p, x) && !Open(parents, p, y) && x != y ==> Compatible(parents, s.slots, x, y))
  }

  /** A capture of `x` that `t` has and `s` has not began after `s`, inside `p`. */
  ghost predicate OldOrInside(parents: seq<nat>, p: nat, s: State, t: State, x: nat)
    requires IsForest(parents)
  {
    Capture(t.slots, x).Some? ==>
      Capture(t.slots, x) == Capture(s.slots, x) || (s.pos <= Capture(t.slots, x).value.0 && Around(parents, p, x))
  }

  /** What a path inside group `p` does to the captures. */
  ghost predicate Moves(parents: seq<nat>, p: nat, s: State, t: State)
    requires IsForest(parents)
  {
    && s.pos <= t.pos && |t.slots| == |s.slots|
    && (forall k :: 0 <= k < |s.slots| && k < 2 * p + 2 ==> t.slots[k] == s.slots[k])
    && (forall x: nat :: !Open(parents, p, x) ==> OldOrInside(parents, p, s, t, x))
  }

  lemma MovesTrans(parents: seq<nat>, p: nat, s: State, m: State, t: State)
    requires IsForest(parents) && Moves(parents, p, s, m) && Moves(parents, p, m, t)
    ensures Moves(parents, p, s, t)
  {
    hide Around, Open;
    forall x: nat | !Open(parents, p, x) ensures OldOrInside(parents, p, s, t, x) {
      assert OldOrInside(parents, p, s, m, x) && OldOrInside(parents, p, m, t, x);
    }
  }

  lemma MovesOn(parents: seq<nat>, p: nat, s: State, pos: nat)
    requires IsForest(parents) && Laminar(parents, p, s) && s.pos <= pos
    ensures Laminar(parents, p, s.(pos := pos)) && Moves(parents, p, s, s.(pos := pos))
  {
    hide Around, Open;
    var t := s.(pos := pos);
    forall x: nat, y: nat | !Open(parents, p, x) && !Open(parents, p, y) && x != y ensures Compatible(parents, t.slots, x, y) {
      assert Compatible(parents, s.slots, x, y);
    }
  }

  lemma MovesSkipped(parents: seq<nat>, p: nat, s: State, zero: Span)
    requires IsForest(parents) && Laminar(parents, p, s) && (zero.Some? ==> p < zero.value.0)
    ensures Laminar(parents, p, Skipped(s, zero)) && Moves(parents, p, s, Skipped(s, zero))
  {
    hide Around, Open;
    var t := Skipped(s, zero);
    forall x: nat ensures Capture(t.slots, x).Some? ==> Capture(t.slots, x) == Capture(s.slots, x) {
    }
    forall x: nat, y: nat | !Open(parents, p, x) && !Open(parents, p, y) && x != y ensures Compatible(parents, t.slots, x, y) {
      assert Compatible(parents, s.slots, x, y);
    }
  }

  // ----- a group opens and closes -----

  lemma OpensInside(parents: seq<nat>, p: nat, nr: nat, x: nat)
    requires IsForest(parents) && p < nr < |parents| && parents[nr] == p
    ensures Open(parents, nr, x) <==> x == nr || Open(parents, p, x)
    ensures !Open(parents, p, nr)
  {
    if Around(parents, nr, p) {
      AroundIsLess(parents, nr, p);
    }
  }

  lemma CaptureSaved(s: State, k: nat, x: nat)
    requires x != k / 2
    ensures Capture(Saved(s, k).slots, x) == Capture(s.slots, x)
  {
  }

  lemma Opened(parents: seq<nat>, p: nat, nr: nat, s: State)
    requires IsForest(parents) && Laminar(parents, p, s) && p < nr < |parents| && parents[nr] == p
    ensures Laminar(parents, nr, Saved(s, 2 * nr))
  {
    hide Around, Open;
    var t := Saved(s, 2 * nr);
    forall x: nat | !Open(parents, nr, x) ensures x != nr && !Open(parents, p, x) && Capture(t.slots, x) == Capture(s.slots, x) {
      OpensInside(parents, p, nr, x);
      CaptureSaved(s, 2 * nr, x);
    }
    forall x: nat, y: nat | !Open(parents, nr, x) && !Open(parents, nr, y) && x != y ensures Compatible(parents, t.slots, x, y) {
      assert Compatible(parents, s.slots, x, y);
    }
  }

  /** The capture of a group that closes holds the captures made inside it, and lies past all others. */
  lemma ClosedFits(parents: seq<nat>, p: nat, nr: nat, s: State, m: State, y: nat)
    requires IsForest(parents) && Laminar(parents, p, s) && p < nr < |parents| && parents[nr] == p
    requires 2 * nr + 1 < |s.slots| && Moves(parents, nr, Saved(s, 2 * nr), m) && Laminar(parents, nr, m)
    requires !Open(parents, p, y) && y != nr
    ensures var t := Saved(m, 2 * nr + 1);
            Compatible(parents, t.slots, nr, y) && Compatible(parents, t.slots, y, nr) && OldOrInside(parents, p, s, t, y)
  {
    hide Around, Open;
    var t := Saved(m, 2 * nr + 1);
    OpensInside(parents, p, nr, y);
    CaptureSaved(s, 2 * nr, y);
    CaptureSaved(m, 2 * nr + 1, y);
    assert OldOrInside(parents, nr, Saved(s, 2 * nr), m, y);
    assert Capture(t.slots, nr) == Some((s.pos, m.pos));
    NotAround(parents, p, nr, y);
    if Around(parents, nr, y) {
      InsideOuter(parents, p, nr, y);
    }
  }

  lemma NotAround(parents: seq<nat>, p: nat, nr: nat, y: nat)
    requires IsForest(parents) && p < nr < |parents| && parents[nr] == p && !Open(parents, p, y)
    ensures !Around(parents, y, nr)
  {
  }

  lemma InsideOuter(parents: seq<nat>, p: nat, nr: nat, y: nat)
    requires IsForest(parents) && p < nr < |parents| && parents[nr] == p && Around(parents, nr, y)
    ensures Around(parents, p, y)
  {
    AroundTrans(parents, p, nr, y);
  }

  lemma ClosedIsLaminar(parents: seq<nat>, p: nat, nr: nat, s: State, m: State)
    requires IsForest(parents) && Laminar(parents, p, s) && p < nr < |parents| && parents[nr] == p
    requires 2 * nr + 1 < |s.slots| && Moves(parents, nr, Saved(s, 2 * nr), m) && Laminar(parents, nr, m)
    ensures Laminar(parents, p, Saved(m, 2 * nr + 1)) && Moves(parents, p, s, Saved(m, 2 * nr + 1))
  {
    hide Around, Open;
    var t := Saved(m, 2 * nr + 1);
    assert Capture(t.slots, nr) == Some((s.pos, m.pos));
    forall x: nat | !Open(parents, p, x)
      ensures Capture(t.slots, x).Some? ==> Capture(t.slots, x).value.0 <= Capture(t.slots, x).value.1 <= t.pos
      ensures OldOrInside(parents, p, s, t, x)
    {
      OpensInside(parents, p, nr, x);
      if x != nr {
        CaptureSaved(m, 2 * nr + 1, x);
        ClosedFits(parents, p, nr, s, m, x);
      } else {
        ParentIsAround(parents, p, nr);
      }
    }
    forall x: nat, y: nat | !Open(parents, p, x) && !Open(parents, p, y) && x != y ensures Compatible(parents, t.slots, x, y) {
      OpensInside(parents, p, nr, x);
      OpensInside(parents, p, nr, y);
      if x == nr {
        ClosedFits(parents, p, nr, s, m, y);
      } else if y == nr {
        ClosedFits(parents, p, nr, s, m, x);
      } else {
        CaptureSaved(m, 2 * nr + 1, x);
        CaptureSaved(m, 2 * nr + 1, y);
        assert Compatible(parents, m.slots, x, y);
      }
    }
  }

  lemma ParentIsAround(parents: seq<nat>, p: nat, nr: nat)
    requires IsForest(parents) && 0 < nr < |parents| && parents[nr] == p
    ensures Around(parents, p, nr)
  {
  }

  // ----- every path -----

  lemma {:induction false} PathIsLaminar(n: Node, p: nat, parents: seq<nat>, e: Env, s: State, t: State)
    requires IsForest(parents) && Parented(n, p, parents) && 2 * |parents| <= |s.slots|
    requires Path(n, e, s, t) && Laminar(parents, p, s)
    ensures Laminar(parents, p, t) && Moves(parents, p, s, t)
    decreases n, 0, 0
  {
    hide Laminar, Moves;
    MovesOn(parents, p, s, s.pos);
    match n
    case Class(_) => MovesOn(parents, p, s, s.pos + 1);
    case Backref(nr) => MovesOn(parents, p, s, t.pos);
    case Group(Some(nr), inner) =>
      var m :| Path(inner, e, Saved(s, 2 * nr), m) && t == Saved(m, 2 * nr + 1);
      Opened(parents, p, nr, s);
      PathIsLaminar(inner, nr, parents, e, Saved(s, 2 * nr), m);
      ClosedIsLaminar(parents, p, nr, s, m);
    case Group(None, inner) => PathIsLaminar(inner, p, parents, e, s, t);
    case Concat(parts) => ThroughIsLaminar(parts, p, parents, e, s, t);
    case Alt(branches) =>
      if branches != [] {
        var i :| 0 <= i < |branches| && Path(branches[i], e, s, t);
        EachParented(branches, i, p, parents);
        PathIsLaminar(branches[i], p, parents, e, s, t);
      }
    case Repeat(body, min, max, _) =>
      if min == 0 && t == Skipped(s, GroupSpan(body)) {
        SpanIsInside(body, p, parents);
        MovesSkipped(parents, p, s, GroupSpan(body));
      } else {
        var k: nat :| Allowed(k, min, max) && PathBy(body, k, e, s, t);
        ByIsLaminar(body, k, p, parents, e, s, t);
      }
    case _ =>
  }

  lemma {:induction false} EachParented(ns: seq<Node>, i: nat, p: nat, parents: seq<nat>)
    requires AllParented(ns, p, parents) && i < |ns|
    ensures Parented(ns[i], p, parents)
  {
    if i > 0 {
      EachParented(ns[1..], i - 1, p, parents);
    }
  }

  lemma {:induction false} ThroughIsLaminar(parts: seq<Node>, p: nat, parents: seq<nat>, e: Env, s: State, t: State)
    requires IsForest(parents) && AllParented(parts, p, parents) && 2 * |parents| <= |s.slots|
    requires PathThrough(parts, e, s, t) && Laminar(parents, p, s)
    ensures Laminar(parents, p, t) && Moves(parents, p, s, t)
    decreases parts, 0, 0
  {
    hide Laminar, Path, Around;
    if parts == [] {
      MovesOn(parents, p, s, s.pos);
    } else {
      var m :| Path(parts[0], e, s, m) && PathThrough(parts[1..], e, m, t);
      PathIsLaminar(parts[0], p, parents, e, s, m);
      ThroughIsLaminar(parts[1..], p, parents, e, m, t);
      MovesTrans(parents, p, s, m, t);
    }
  }

  lemma {:induction false} ByIsLaminar(body: Node, k: nat, p: nat, parents: seq<nat>, e: Env, s: State, t: State)
    requires IsForest(parents) && Parented(body, p, parents) && 2 * |parents| <= |s.slots|
    requires PathBy(body, k, e, s, t) && Laminar(parents, p, s)
    ensures Laminar(parents, p, t) && Moves(parents, p, s, t)
    decreases body, 1, k
  {
    hide Laminar, Path, Around;
    if k == 0 {
      MovesOn(parents, p, s, s.pos);
    } else {
      var m :| Path(body, e, s, m) && PathBy(body, k - 1, e, m, t);
      PathIsLaminar(body, p, parents, e, s, m);
      ByIsLaminar(body, k - 1, p, parents, e, m, t);
      MovesTrans(parents, p, s, m, t);
    }
  }

  // ----- a match's captures -----

  /** The captures of a match from `q` to `pos`: those of its groups lie inside it, and nest as their groups do. */
  ghost predicate WellCaptured(parents: seq<nat>, slots: Slots, q: nat, pos: nat)
    requires IsForest(parents)
  {
    && Capture(slots, 0) == Some((q, pos)) && q <= pos
    && (forall x: nat :: x > 0 && Capture(slots, x).Some? ==>
          q <= Capture(slots, x).value.0 <= Capture(slots, x).value.1 <= pos)
    && (forall x: nat, y: nat :: 0 < x && 0 < y && x != y ==> Compatible(parents, slots, x, y))
  }

  lemma MatchIsWellCaptured(n: Node, parents: seq<nat>, e: Env, s: State, t: State)
    requires IsForest(parents) && Parented(n, 0, parents)
    requires |s.slots| == 2 * |parents| && forall k :: 0 <= k < |s.slots| ==> s.slots[k] == None
    requires Path(Group(Some(0), n), e, s, t)
    ensures WellCaptured(parents, t.slots, s.pos, t.pos)
  {
    hide Path, Around;
    var m := InsideGroup(0, n, e, s, t);
    var s1 := Saved(s, 0);
    forall x: nat | x > 0 ensures Capture(s1.slots, x) == None {
    }
    forall x: nat ensures Open(parents, 0, x) <==> x == 0 {
      NothingAroundAll(parents, x);
    }
    assert Laminar(parents, 0, s1);
    PathIsLaminar(n, 0, parents, e, s1, m);
    forall x: nat | x > 0 ensures Capture(t.slots, x) == Capture(m.slots, x) {
      CaptureSaved(m, 1, x);
    }
    forall x: nat | x > 0 && Capture(t.slots, x).Some? ensures s.pos <= Capture(t.slots, x).value.0 {
      assert OldOrInside(parents, 0, s1, m, x);
    }
    forall x: nat, y: nat | 0 < x && 0 < y && x != y ensures Compatible(parents, t.slots, x, y) {
      assert Compatible(parents, m.slots, x, y);
    }
    assert m.slots[0] == s1.slots[0];
  }

  lemma NothingAroundAll(parents: seq<nat>, x: nat)
    requires IsForest(parents)
    ensures !Around(parents, x, 0)
  {
  }
}
