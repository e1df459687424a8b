/**
 * The pattern as a relation, without an order: which states a node can lead to from which. A search tries its
 * paths in the order of preference; it finds a match exactly when there is a path.
 */
module Paths {
  import opened Options
  import opened CharSets
  import opened Syntax
  import opened Denotation

  /** The iterations a quantifier allows. */
  predicate Allowed(k: nat, min: nat, max: Option<nat>) {
    min <= k && (max.Some? ==> k <= min || k <= max.value)
  }

  ghost predicate Path(n: Node, e: Env, s: State, t: State)
    decreases n, 0, 0
  {
    s.pos <= |e.hay| && match n {
      case Empty => t == s
      case Class(chars) => ClassMatches(e, chars, s.pos) && t == s.(pos := s.pos + 1)
      case Bol => AtLineStart(e, s.pos) && t == s
      case Eol => AtLineEnd(e, s.pos) && t == s
      case Backref(nr) => var end := BackrefTarget(e, s, nr); end.Some? && t == s.(pos := end.value)
      case Group(Some(nr), inner) => exists m :: Path(inner, e, Saved(s, 2 * nr), m) && t == Saved(m, 2 * nr + 1)
      case Group(None, inner) => Path(inner, e, s, t)
      case Concat(parts) => PathThrough(parts, e, s, t)
      case Alt(branches) => (branches == [] && t == s) || exists i :: 0 <= i < |branches| && Path(branches[i], e, s, t)
      case Repeat(body, min, max, _) =>
        || (min == 0 && t == Skipped(s, GroupSpan(body)))
        || exists k: nat :: Allowed(k, min, max) && PathBy(body, k, e, s, t)
    }
  }

  ghost predicate PathThrough(parts: seq<Node>, e: Env, s: State, t: State)
    decreases parts, 0, 0
  {
    if parts == [] then t == s
    else exists m :: Path(parts[0], e, s, m) && PathThrough(parts[1..], e, m, t)
  }

  /** By `k` iterations. */
  ghost predicate PathBy(body: Node, k: nat, e: Env, s: State, t: State)
    decreases body, 1, k
  {
    if k == 0 then t == s else exists m :: Path(body, e, s, m) && PathBy(body, k - 1, e, m, t)
  }

  lemma FirstPart(parts: seq<Node>, e: Env, s: State, t: State) returns (m: State)
    requires parts != [] && PathThrough(parts, e, s, t)
    ensures Path(parts[0], e, s, m) && PathThrough(parts[1..], e, m, t)
  {
    hide Path;
    m :| Path(parts[0], e, s, m) && PathThrough(parts[1..], e, m, t);
  }

  lemma FirstIteration(body: Node, k: nat, e: Env, s: State, t: State) returns (m: State)
    requires k > 0 && PathBy(body, k, e, s, t)
    ensures Path(body, e, s, m) && PathBy(body, k - 1, e, m, t)
  {
    hide Path;
    m :| Path(body, e, s, m) && PathBy(body, k - 1, e, m, t);
  }

  lemma InsideGroup(nr: nat, inner: Node, e: Env, s: State, t: State) returns (m: State)
    requires Path(Group(Some(nr), inner), e, s, t)
    ensures Path(inner, e, Saved(s, 2 * nr), m) && t == Saved(m, 2 * nr + 1)
  {
    m :| Path(inner, e, Saved(s, 2 * nr), m) && t == Saved(m, 2 * nr + 1);
  }

  lemma {:induction false} PathByMore(body: Node, k: nat, j: nat, e: Env, s: State, m: State, t: State)
    requires PathBy(body, k, e, s, m) && PathBy(body, j, e, m, t)
    ensures PathBy(body, k + j, e, s, t)
    decreases k
  {
    hide Path;
    if k > 0 {
      var x :| Path(body, e, s, x) && PathBy(body, k - 1, e, x, m);
      PathByMore(body, k - 1, j, e, x, m, t);
    }
  }

  // ----- every result is reached by a path -----

  lemma {:induction false} ResultsAreReached(n: Node, e: Env, s: State, t: State)
    requires s.pos <= |e.hay| && t in Results(n, e, s)
    ensures Path(n, e, s, t)
    decreases n, 0, 0, 0
  {
    match n
    case Group(Some(nr), inner) =>
      var inside := Results(inner, e, Saved(s, 2 * nr));
      var i :| 0 <= i < |inside| && t == Saved(inside[i], 2 * nr + 1);
      ResultsAreReached(inner, e, Saved(s, 2 * nr), inside[i]);
    case Group(None, inner) => ResultsAreReached(inner, e, s, t);
    case Concat(parts) =>
      var o := ConcatIsReached(parts, e, [s], t);
    case Alt(branches) =>
      if branches != [] {
        AltIsReached(branches, e, s, t);
      }
    case Repeat(body, min, max, greedy) => RepeatIsReached(body, min, max, greedy, e, s, t);
    case _ =>
  }

  lemma {:induction false} RepeatIsReached(body: Node, min: nat, max: Option<nat>, greedy: bool, e: Env, s: State, t: State)
    requires s.pos <= |e.hay| && t in Results(Repeat(body, min, max, greedy), e, s)
    ensures Path(Repeat(body, min, max, greedy), e, s, t)
    decreases body, 5, 0, 0
  {
    var zero := if min == 0 then GroupSpan(body) else None;
    var copies := CopyResults(body, min, e, [s]);
    if max.Some? && Silent(body) {
      var o := CopiesAreReached(body, min, e, [s], t);
      assert Allowed(min, min, max) && PathBy(body, min, e, s, t);
    } else {
      var m := OptionalsAreReached(body, OptionalCopies(min, max), greedy, zero, e, copies, t);
      var o := CopiesAreReached(body, min, e, [s], m);
      var j := OptionalIsReached(body, OptionalCopies(min, max), greedy, zero, e, m, t);
      if j.Some? {
        PathByMore(body, min, j.value, e, s, m, t);
        assert Allowed(min + j.value, min, max) && PathBy(body, min + j.value, e, s, t);
      } else if min == 0 {
        assert m == s;
      } else {
        assert Allowed(min, min, max) && PathBy(body, min, e, s, t);
      }
    }
  }

  lemma {:induction false} AllIsReached(n: Node, e: Env, ss: seq<State>, t: State) returns (s: State)
    requires AllWithin(e, ss) && t in ResultsAll(n, e, ss)
    ensures s in ss && Path(n, e, s, t)
    decreases n, 1, |ss|, 0
  {
    hide Path, Results;
    if t in Results(n, e, ss[0]) {
      s := ss[0];
      ResultsAreReached(n, e, s, t);
    } else {
      s := AllIsReached(n, e, ss[1..], t);
    }
  }

  lemma {:induction false} ConcatIsReached(parts: seq<Node>, e: Env, ss: seq<State>, t: State) returns (s: State)
    requires AllWithin(e, ss) && t in ConcatResults(parts, e, ss)
    ensures s in ss && PathThrough(parts, e, s, t)
    decreases parts, 0, 0, 0
  {
    hide Path, ResultsAll;
    if parts == [] {
      s := t;
    } else {
      var m := ConcatIsReached(parts[1..], e, ResultsAll(parts[0], e, ss), t);
      s := AllIsReached(parts[0], e, ss, m);
    }
  }

  lemma {:induction false} AltIsReached(branches: seq<Node>, e: Env, s: State, t: State)
    requires s.pos <= |e.hay| && t in AltResults(branches, e, s)
    ensures exists i :: 0 <= i < |branches| && Path(branches[i], e, s, t)
    decreases branches, 0, 0, 0
  {
    hide Path, Results;
    if t in Results(branches[0], e, s) {
      ResultsAreReached(branches[0], e, s, t);
    } else {
      AltIsReached(branches[1..], e, s, t);
      var i :| 0 <= i < |branches[1..]| && Path(branches[1..][i], e, s, t);
      assert branches[i + 1] == branches[1..][i];
    }
  }

  lemma {:induction false} CopiesAreReached(body: Node, k: nat, e: Env, ss: seq<State>, t: State) returns (s: State)
    requires AllWithin(e, ss) && t in CopyResults(body, k, e, ss)
    ensures s in ss && PathBy(body, k, e, s, t)
    decreases body, 2, k, 0
  {
    hide Path, ResultsAll;
    if k == 0 {
      s := t;
    } else {
      var m := CopiesAreReached(body, k - 1, e, ResultsAll(body, e, ss), t);
      s := AllIsReached(body, e, ss, m);
    }
  }

  /** The number of iterations taken; none if the quantifier's exit unset its groups. */
  lemma {:induction false} OptionalIsReached(body: Node, left: Option<nat>, greedy: bool, zero: Span, e: Env, s: State, t: State)
    returns (k: Option<nat>)
    requires s.pos <= |e.hay| && t in OptionalResults(body, left, greedy, zero, e, s)
    ensures k.Some? ==> (left.Some? ==> k.value <= left.value) && PathBy(body, k.value, e, s, t)
    ensures k.None? ==> t == Skipped(s, zero)
    decreases body, 3, |e.hay| - s.pos, 1
  {
    hide Path, Results;
    if left == Some(0) {
      k := Some(0);
    } else if t == Skipped(s, zero) {
      k := None;
    } else {
      k := IterationIsReached(body, left, greedy, e, s, Results(body, e, s), t);
    }
  }

  lemma {:induction false} IterationIsReached(body: Node, left: Option<nat>, greedy: bool, e: Env, s: State, rs: seq<State>,
                                              t: State)
    returns (k: Option<nat>)
    requires s.pos <= |e.hay| && left != Some(0) && AllOnward(e, s, rs)
    requires forall i :: 0 <= i < |rs| ==> rs[i] in Results(body, e, s)
    requires t in IterationResults(body, left, greedy, e, s, rs)
    ensures k.Some? && (left.Some? ==> k.value <= left.value) && PathBy(body, k.value, e, s, t)
    decreases body, 3, |e.hay| - s.pos, 0, |rs|
  {
    hide Path, Results;
    var r := rs[0];
    assert r in Results(body, e, s) && Onward(e, s, r);
    if t in IterationResults(body, left, greedy, e, s, rs[1..]) {
      k := IterationIsReached(body, left, greedy, e, s, rs[1..], t);
    } else {
      ResultsAreReached(body, e, s, r);
      if r.pos == s.pos {
        k := Some(1);
        assert PathBy(body, 0, e, r, t);
      } else {
        var j := OptionalIsReached(body, OneLess(left), greedy, None, e, r, t);
        k := Some(1 + if j.Some? then j.value else 0);
        assert PathBy(body, k.value - 1, e, r, t);
      }
    }
  }

  lemma {:induction false} OptionalsAreReached(body: Node, left: Option<nat>, greedy: bool, zero: Span, e: Env, ss: seq<State>,
                                               t: State)
    returns (s: State)
    requires AllWithin(e, ss) && t in OptionalResultsAll(body, left, greedy, zero, e, ss)
    ensures s in ss && s.pos <= |e.hay| && t in OptionalResults(body, left, greedy, zero, e, s)
    decreases |ss|
  {
    hide OptionalResults;
    if t in OptionalResults(body, left, greedy, zero, e, ss[0]) {
      s := ss[0];
    } else {
      s := OptionalsAreReached(body, left, greedy, zero, e, ss[1..], t);
    }
  }

  // ----- every path's end is found -----

  /** A back-reference somewhere inside. */
  predicate Refers(n: Node) {
    match n
    case Backref(_) => true
    case Group(_, inner) => Refers(inner)
    case Concat(parts) => AnyRefers(parts)
    case Alt(branches) => AnyRefers(branches)
    case Repeat(body, _, _, _) => Refers(body)
    case _ => false
  }

  predicate AnyRefers(ns: seq<Node>) {
    ns != [] && (Refers(ns[0]) || AnyRefers(ns[1..]))
  }

  lemma {:induction false} PathByFirst(body: Node, k: nat, j: nat, e: Env, s: State, t: State) returns (m: State)
    requires PathBy(body, k + j, e, s, t)
    ensures PathBy(body, k, e, s, m) && PathBy(body, j, e, m, t)
    decreases k
  {
    hide Path;
    if k == 0 {
      m := s;
    } else {
      var x :| Path(body, e, s, x) && PathBy(body, k - 1 + j, e, x, t);
      m := PathByFirst(body, k - 1, j, e, x, t);
    }
  }

  /** A node that compiles to nothing leads nowhere else. */
  lemma {:induction false} SilentStays(n: Node, e: Env, s: State, t: State)
    requires Silent(n) && Path(n, e, s, t)
    ensures t.pos == s.pos
    decreases n, 0, 0
  {
    match n
    case Group(None, inner) => SilentStays(inner, e, s, t);
    case Concat(parts) => SilentThrough(parts, e, s, t);
    case Alt(branches) =>
      if |branches| == 1 {
        SilentStays(branches[0], e, s, t);
      }
    case Repeat(body, min, max, _) =>
      if !(min == 0 && t == Skipped(s, GroupSpan(body))) {
        var k: nat :| Allowed(k, min, max) && PathBy(body, k, e, s, t);
        SilentBy(body, k, e, s, t);
      }
    case _ =>
  }

  lemma {:induction false} SilentThrough(parts: seq<Node>, e: Env, s: State, t: State)
    requires AllSilent(parts) && PathThrough(parts, e, s, t)
    ensures t.pos == s.pos
    decreases parts, 0, 0
  {
    if parts != [] {
      var m :| Path(parts[0], e, s, m) && PathThrough(parts[1..], e, m, t);
      SilentStays(parts[0], e, s, m);
      SilentThrough(parts[1..], e, m, t);
    }
  }

  lemma {:induction false} SilentBy(body: Node, k: nat, e: Env, s: State, t: State)
    requires (k > 0 ==> Silent(body)) && PathBy(body, k, e, s, t)
    ensures t.pos == s.pos
    decreases body, 1, k
  {
    if k > 0 {
      var m :| Path(body, e, s, m) && PathBy(body, k - 1, e, m, t);
      SilentStays(body, e, s, m);
      SilentBy(body, k - 1, e, m, t);
    }
  }

  /**
   * Without back-references, wherever a path from a position ends, a result from that position ends too: neither
   * the order of preference nor the rule for empty iterations loses an end.
   */
  lemma {:induction false} EndsAreFound(n: Node, e: Env, s: State, t: State, o: State) returns (r: State)
    requires !Refers(n) && Path(n, e, s, t) && o.pos == s.pos
    ensures o.pos <= |e.hay| && r in Results(n, e, o) && r.pos == t.pos
    decreases n, 0, 0, 0
  {
    r := State(t.pos, o.slots);
    match n {
      case Group(Some(nr), inner) =>
        var m :| Path(inner, e, Saved(s, 2 * nr), m) && t == Saved(m, 2 * nr + 1);
        var x := EndsAreFound(inner, e, Saved(s, 2 * nr), m, Saved(o, 2 * nr));
        var inside := Results(inner, e, Saved(o, 2 * nr));
        var i :| 0 <= i < |inside| && inside[i] == x;
        r := Saved(x, 2 * nr + 1);
        assert Closed(inside, 2 * nr + 1)[i] == r;
      case Group(None, inner) => r := EndsAreFound(inner, e, s, t, o);
      case Concat(parts) => r := ThroughIsFound(parts, e, s, t, [o], o);
      case Alt(branches) =>
        if branches != [] {
          var i :| 0 <= i < |branches| && Path(branches[i], e, s, t);
          r := BranchIsFound(branches, i, e, s, t, o);
        }
      case Repeat(body, min, max, greedy) =>
        var k: nat;
        if min == 0 && t == Skipped(s, GroupSpan(body)) {
          k := 0;
          assert PathBy(body, 0, e, s, s);
          r := RepeatIsFound(body, min, max, greedy, e, s, s, k, o);
        } else {
          k :| Allowed(k, min, max) && PathBy(body, k, e, s, t);
          r := RepeatIsFound(body, min, max, greedy, e, s, t, k, o);
        }
      case _ =>
    }
  }

  lemma {:induction false} BranchIsFound(branches: seq<Node>, i: nat, e: Env, s: State, t: State, o: State) returns (r: State)
    requires i < |branches| && !AnyRefers(branches) && Path(branches[i], e, s, t) && o.pos == s.pos
    ensures o.pos <= |e.hay| && r in AltResults(branches, e, o) && r.pos == t.pos
    decreases branches, 0, 0, 0
  {
    if i == 0 {
      r := EndsAreFound(branches[0], e, s, t, o);
    } else {
      assert branches[i] == branches[1..][i - 1];
      r := BranchIsFound(branches[1..], i - 1, e, s, t, o);
    }
  }

  lemma {:induction false} AllIsFound(n: Node, e: Env, s: State, t: State, os: seq<State>, o: State) returns (r: State)
    requires AllWithin(e, os) && o in os && !Refers(n) && Path(n, e, s, t) && o.pos == s.pos
    ensures r in ResultsAll(n, e, os) && r.pos == t.pos
    decreases n, 1, |os|, 0
  {
    hide Path, Results;
    if os[0] == o {
      r := EndsAreFound(n, e, s, t, o);
    } else {
      r := AllIsFound(n, e, s, t, os[1..], o);
    }
  }

  lemma {:induction false} ThroughIsFound(parts: seq<Node>, e: Env, s: State, t: State, os: seq<State>, o: State) returns (r: State)
    requires AllWithin(e, os) && o in os && !AnyRefers(parts) && PathThrough(parts, e, s, t) && o.pos == s.pos
    ensures r in ConcatResults(parts, e, os) && r.pos == t.pos
    decreases parts, 0, 0, 0
  {
    hide Path, ResultsAll;
    if parts == [] {
      r := o;
    } else {
      var m :| Path(parts[0], e, s, m) && PathThrough(parts[1..], e, m, t);
      var x := AllIsFound(parts[0], e, s, m, os, o);
      r := ThroughIsFound(parts[1..], e, m, t, ResultsAll(parts[0], e, os), x);
    }
  }

  lemma {:induction false} CopiesAreFound(body: Node, k: nat, e: Env, s: State, t: State, os: seq<State>, o: State) returns (r: State)
    requires AllWithin(e, os) && o in os && !Refers(body) && PathBy(body, k, e, s, t) && o.pos == s.pos
    ensures r in CopyResults(body, k, e, os) && r.pos == t.pos
    decreases body, 2, k, 0
  {
    hide Path, ResultsAll;
    if k == 0 {
      r := o;
    } else {
      var m :| Path(body, e, s, m) && PathBy(body, k - 1, e, m, t);
      var x := AllIsFound(body, e, s, m, os, o);
      r := CopiesAreFound(body, k - 1, e, m, t, ResultsAll(body, e, os), x);
    }
  }

  lemma {:induction false} RepeatIsFound(body: Node, min: nat, max: Option<nat>, greedy: bool, e: Env, s: State, t: State, k: nat,
                                         o: State)
    returns (r: State)
    requires !Refers(body) && s.pos <= |e.hay| && Allowed(k, min, max) && PathBy(body, k, e, s, t) && o.pos == s.pos
    ensures r in Results(Repeat(body, min, max, greedy), e, o) && r.pos == t.pos
    decreases body, 5, 0, 0
  {
    hide Path, PathBy, CopyResults, OptionalResults, OptionalResultsAll, Silent, GroupSpan;
    var zero := if min == 0 then GroupSpan(body) else None;
    var m := PathByFirst(body, min, k - min, e, s, t);
    var x := CopiesAreFound(body, min, e, s, m, [o], o);
    if max.Some? && Silent(body) {
      SilentBy(body, k - min, e, m, t);
      r := x;
    } else {
      var left := OptionalCopies(min, max);
      var y := OptionalIsFound(body, left, greedy, zero, e, k - min, m, t, x);
      r := y;
      InOptionals(body, left, greedy, zero, e, CopyResults(body, min, e, [o]), x, r);
    }
  }

  lemma {:induction false} InOptionals(body: Node, left: Option<nat>, greedy: bool, zero: Span, e: Env, ss: seq<State>, s: State,
                                       r: State)
    requires AllWithin(e, ss) && s in ss
    requires s.pos <= |e.hay| && r in OptionalResults(body, left, greedy, zero, e, s)
    ensures r in OptionalResultsAll(body, left, greedy, zero, e, ss)
    decreases |ss|
  {
    hide OptionalResults;
    if ss[0] != s {
      InOptionals(body, left, greedy, zero, e, ss[1..], s, r);
    }
  }

  /** An iteration of the path that matched nothing is left out. */
  lemma {:induction false} OptionalIsFound(body: Node, left: Option<nat>, greedy: bool, zero: Span, e: Env, k: nat, s: State,
                                           t: State, o: State)
    returns (r: State)
    requires !Refers(body) && (left.Some? ==> k <= left.value) && PathBy(body, k, e, s, t)
    requires o.pos == s.pos && o.pos <= |e.hay|
    ensures r in OptionalResults(body, left, greedy, zero, e, o) && r.pos == t.pos
    decreases body, 3, k, 0
  {
    hide Path, Results, IterationResults;
    if k == 0 {
      r := if left == Some(0) then o else Skipped(o, zero);
    } else {
      var m :| Path(body, e, s, m) && PathBy(body, k - 1, e, m, t);
      if m.pos == s.pos {
        r := OptionalIsFound(body, left, greedy, zero, e, k - 1, m, t, o);
      } else {
        var x := EndsAreFound(body, e, s, m, o);
        var rs := Results(body, e, o);
        var i :| 0 <= i < |rs| && rs[i] == x;
        assert Onward(e, o, rs[i]);
        r := OptionalIsFound(body, OneLess(left), greedy, None, e, k - 1, m, t, x);
        InIterations(body, left, greedy, e, o, rs, i, r);
      }
    }
  }

  lemma {:induction false} InIterations(body: Node, left: Option<nat>, greedy: bool, e: Env, s: State, rs: seq<State>, i: nat,
                                        r: State)
    requires s.pos <= |e.hay| && left != Some(0) && AllOnward(e, s, rs) && i < |rs|
    requires rs[i].pos > s.pos && Onward(e, s, rs[i]) && r in OptionalResults(body, OneLess(left), greedy, None, e, rs[i])
    ensures r in IterationResults(body, left, greedy, e, s, rs)
    decreases |rs|
  {
    hide OptionalResults;
    if i > 0 {
      InIterations(body, left, greedy, e, s, rs[1..], i - 1, r);
    }
  }

  /** Without back-references, the ends of the results are the ends of the paths. */
  lemma EndsAreExact(n: Node, e: Env, s: State, pos: nat)
    requires !Refers(n) && s.pos <= |e.hay|
    ensures (exists r :: r in Results(n, e, s) && r.pos == pos) <==> (exists t :: Path(n, e, s, t) && t.pos == pos)
  {
    hide Path, Results;
    if r :| r in Results(n, e, s) && r.pos == pos {
      ResultsAreReached(n, e, s, r);
    }
    if t :| Path(n, e, s, t) && t.pos == pos {
      var r := EndsAreFound(n, e, s, t, s);
    }
  }
}
