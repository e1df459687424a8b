/** What a search rules out before a matcher runs, and why that changes no answer. */
module Prefilter {
  import opened Options
  import opened CharSets
  import opened Syntax
  import opened Denotation
  import opened Scan
  import opened Paths
  import opened Literals

  const MAX_REQUIRED_CHARS: nat := 16

  /** A choice has a branch: one without branches is not parsed. */
  predicate Branching(n: Node) {
    match n
    case Group(_, inner) => Branching(inner)
    case Concat(parts) => AllBranching(parts)
    case Alt(branches) => branches != [] && AllBranching(branches)
    case Repeat(body, _, _, _) => Branching(body)
    case _ => true
  }

  predicate AllBranching(ns: seq<Node>) {
    ns == [] || (Branching(ns[0]) && AllBranching(ns[1..]))
  }

  lemma {:induction false} EachBranching(ns: seq<Node>, i: nat)
    requires AllBranching(ns) && i < |ns|
    ensures Branching(ns[i])
  {
    if i > 0 {
      EachBranching(ns[1..], i - 1);
    }
  }

  lemma {:induction false} PathIsOnward(n: Node, e: Env, s: State, t: State)
    requires Path(n, e, s, t)
    ensures s.pos <= t.pos <= |e.hay|
    decreases n, 0, 0
  {
    match n
    case Group(Some(nr), inner) =>
      var m :| Path(inner, e, Saved(s, 2 * nr), m) && t == Saved(m, 2 * nr + 1);
      PathIsOnward(inner, e, Saved(s, 2 * nr), m);
    case Group(None, inner) => PathIsOnward(inner, e, s, t);
    case Concat(parts) => ThroughIsOnward(parts, e, s, t);
    case Alt(branches) =>
      if branches != [] {
        var i :| 0 <= i < |branches| && Path(branches[i], e, s, t);
        PathIsOnward(branches[i], e, s, t);
      }
    case Repeat(body, min, max, _) =>
      if !(min == 0 && t == Skipped(s, GroupSpan(body))) {
        var k: nat :| Allowed(k, min, max) && PathBy(body, k, e, s, t);
        ByIsOnward(body, k, e, s, t);
      }
    case _ =>
  }

  lemma {:induction false} ThroughIsOnward(parts: seq<Node>, e: Env, s: State, t: State)
    requires s.pos <= |e.hay| && PathThrough(parts, e, s, t)
    ensures s.pos <= t.pos <= |e.hay|
    decreases parts, 0, 0
  {
    if parts != [] {
      var m :| Path(parts[0], e, s, m) && PathThrough(parts[1..], e, m, t);
      PathIsOnward(parts[0], e, s, m);
      ThroughIsOnward(parts[1..], e, m, t);
    }
  }

  lemma {:induction false} ByIsOnward(body: Node, k: nat, e: Env, s: State, t: State)
    requires s.pos <= |e.hay| && PathBy(body, k, e, s, t)
    ensures s.pos <= t.pos <= |e.hay|
    decreases body, 1, k
  {
    if k > 0 {
      var m :| Path(body, e, s, m) && PathBy(body, k - 1, e, m, t);
      PathIsOnward(body, e, s, m);
      ByIsOnward(body, k - 1, e, m, t);
    }
  }

  // ----- anchored -----

  /** Every match passes a `^`. */
  predicate Anchored(n: Node) {
    match n
    case Bol => true
    case Group(_, inner) => Anchored(inner)
    case Concat(parts) => AnyAnchored(parts)
    case Alt(branches) => AllAnchored(branches)
    case Repeat(body, min, _, _) => min > 0 && Anchored(body)
    case _ => false
  }

  predicate AnyAnchored(ns: seq<Node>) {
    ns != [] && (Anchored(ns[0]) || AnyAnchored(ns[1..]))
  }

  predicate AllAnchored(ns: seq<Node>) {
    ns == [] || (Anchored(ns[0]) && AllAnchored(ns[1..]))
  }

  lemma {:induction false} EachAnchored(ns: seq<Node>, i: nat)
    requires AllAnchored(ns) && i < |ns|
    ensures Anchored(ns[i])
  {
    if i > 0 {
      EachAnchored(ns[1..], i - 1);
    }
  }

  /** Outside multi-line mode, an anchored pattern matches nowhere but from the start. */
  lemma {:induction false} AnchoredBegins(n: Node, e: Env, s: State, t: State)
    requires Branching(n) && Anchored(n) && !e.multiline && Path(n, e, s, t)
    ensures s.pos == 0
    decreases n, 0
  {
    match n
    case Group(Some(nr), inner) =>
      var m :| Path(inner, e, Saved(s, 2 * nr), m) && t == Saved(m, 2 * nr + 1);
      AnchoredBegins(inner, e, Saved(s, 2 * nr), m);
    case Group(None, inner) => AnchoredBegins(inner, e, s, t);
    case Concat(parts) => AnchoredThrough(parts, e, s, t);
    case Alt(branches) =>
      var i :| 0 <= i < |branches| && Path(branches[i], e, s, t);
      EachAnchored(branches, i);
      EachBranching(branches, i);
      AnchoredBegins(branches[i], e, s, t);
    case Repeat(body, min, max, _) =>
      var k: nat :| Allowed(k, min, max) && PathBy(body, k, e, s, t);
      var m := FirstIteration(body, k, e, s, t);
      AnchoredBegins(body, e, s, m);
    case _ =>
  }

  lemma {:induction false} AnchoredThrough(parts: seq<Node>, e: Env, s: State, t: State)
    requires AllBranching(parts) && AnyAnchored(parts) && !e.multiline && PathThrough(parts, e, s, t)
    ensures s.pos == 0
    decreases parts, 0
  {
    var m :| Path(parts[0], e, s, m) && PathThrough(parts[1..], e, m, t);
    PathIsOnward(parts[0], e, s, m);
    if Anchored(parts[0]) {
      AnchoredBegins(parts[0], e, s, m);
    } else {
      AnchoredThrough(parts[1..], e, m, t);
    }
  }

  // ----- required -----

  /** Between these positions the text has a character of the set. */
  ghost predicate HoldsOne(e: Env, from: nat, to: nat, chars: CharSet) {
    exists q :: from <= q < to && HeldAt(e.hay, q, chars)
  }

  /** Every match of the node has a character of the set. */
  ghost predicate RequiredOf(n: Node, chars: CharSet) {
    forall e, s, t :: Path(n, e, s, t) ==> HoldsOne(e, s.pos, t.pos, chars)
  }

  /** The number of characters in a set. */
  function CharCount(chars: seq<Range>): int {
    if chars == [] then 0 else chars[0].hi - chars[0].lo + 1 + CharCount(chars[1..])
  }

  predicate Small(chars: CharSet) {
    CharCount(chars) <= MAX_REQUIRED_CHARS
  }

  /** The order in which the sets of a concatenation's parts are preferred. */
  predicate Smaller(a: CharSet, b: CharSet) {
    CharCount(a) < CharCount(b) || (CharCount(a) == CharCount(b) && |a| < |b|)
  }

  lemma HoldsOneWithin(e: Env, from: nat, to: nat, from': nat, to': nat, chars: CharSet)
    requires HoldsOne(e, from, to, chars) && from' <= from && to <= to'
    ensures HoldsOne(e, from', to', chars)
  {
  }

  lemma RequiredOfClass(chars: CharSet)
    ensures RequiredOf(Class(chars), chars)
  {
    forall e, s, t | Path(Class(chars), e, s, t) ensures HoldsOne(e, s.pos, t.pos, chars) {
      assert HeldAt(e.hay, s.pos, chars);
    }
  }

  lemma RequiredOfGroup(capture: Option<nat>, inner: Node, chars: CharSet)
    requires RequiredOf(inner, chars)
    ensures RequiredOf(Group(capture, inner), chars)
  {
    hide HoldsOne;
    var n := Group(capture, inner);
    forall e, s, t | Path(n, e, s, t) ensures HoldsOne(e, s.pos, t.pos, chars) {
      match capture
      case Some(nr) =>
        var m := InsideGroup(nr, inner, e, s, t);
        assert HoldsOne(e, Saved(s, 2 * nr).pos, m.pos, chars);
      case None =>
        assert Path(inner, e, s, t);
    }
  }

  lemma {:induction false} RequiredThrough(parts: seq<Node>, i: nat, chars: CharSet, e: Env, s: State, t: State)
    requires i < |parts| && RequiredOf(parts[i], chars) && PathThrough(parts, e, s, t) && s.pos <= |e.hay|
    ensures HoldsOne(e, s.pos, t.pos, chars)
    decreases i
  {
    hide HoldsOne, Path;
    var m :| Path(parts[0], e, s, m) && PathThrough(parts[1..], e, m, t);
    PathIsOnward(parts[0], e, s, m);
    ThroughIsOnward(parts[1..], e, m, t);
    if i == 0 {
      HoldsOneWithin(e, s.pos, m.pos, s.pos, t.pos, chars);
    } else {
      assert parts[i] == parts[1..][i - 1];
      RequiredThrough(parts[1..], i - 1, chars, e, m, t);
      HoldsOneWithin(e, m.pos, t.pos, s.pos, t.pos, chars);
    }
  }

  lemma RequiredOfConcat(parts: seq<Node>, i: nat, chars: CharSet)
    requires i < |parts| && RequiredOf(parts[i], chars)
    ensures RequiredOf(Concat(parts), chars)
  {
    hide HoldsOne;
    forall e, s, t | Path(Concat(parts), e, s, t) ensures HoldsOne(e, s.pos, t.pos, chars) {
      RequiredThrough(parts, i, chars, e, s, t);
    }
  }

  lemma RequiredOfMore(n: Node, chars: CharSet, more: CharSet)
    requires RequiredOf(n, chars) && forall c :: Holds(chars, c) ==> Holds(more, c)
    ensures RequiredOf(n, more)
  {
    hide Path;
    forall e, s, t | Path(n, e, s, t) ensures HoldsOne(e, s.pos, t.pos, more) {
      var q :| s.pos <= q < t.pos && HeldAt(e.hay, q, chars);
      assert HeldAt(e.hay, q, more);
    }
  }

  lemma RequiredOfAlt(branches: seq<Node>, chars: CharSet)
    requires branches != [] && forall i :: 0 <= i < |branches| ==> RequiredOf(branches[i], chars)
    ensures RequiredOf(Alt(branches), chars)
  {
    hide HoldsOne;
    forall e, s, t | Path(Alt(branches), e, s, t) ensures HoldsOne(e, s.pos, t.pos, chars) {
      var i :| 0 <= i < |branches| && Path(branches[i], e, s, t);
      assert RequiredOf(branches[i], chars);
    }
  }

  lemma RequiredOfRepeat(body: Node, min: nat, max: Option<nat>, greedy: bool, chars: CharSet)
    requires min > 0 && RequiredOf(body, chars)
    ensures RequiredOf(Repeat(body, min, max, greedy), chars)
  {
    hide HoldsOne;
    forall e, s, t | Path(Repeat(body, min, max, greedy), e, s, t) ensures HoldsOne(e, s.pos, t.pos, chars) {
      var k: nat :| Allowed(k, min, max) && PathBy(body, k, e, s, t);
      var m := FirstIteration(body, k, e, s, t);
      PathIsOnward(body, e, s, m);
      ByIsOnward(body, k - 1, e, m, t);
      HoldsOneWithin(e, s.pos, m.pos, s.pos, t.pos, chars);
    }
  }

  lemma {:induction false} CountOfNothing(chars: CharSet)
    ensures chars == [] ==> CharCount(chars) == 0
  {
  }

  /** The set the rules find for a node, if they find one. */
  ghost predicate Finds(n: Node, r: Option<CharSet>)
    decreases n, 0
  {
    match n
    case Class(chars) => r == if Small(chars) then Some(chars) else None
    case Group(_, inner) => Finds(inner, r)
    case Concat(parts) => exists rs :: FindsFirst(parts, rs) && |rs| == |parts| && FirstSmallest(rs, r)
    case Alt(branches) => exists rs :: FindsFirst(branches, rs) && SmallUnion(rs, |branches|, r)
    case Repeat(body, min, _, _) => if min > 0 then Finds(body, r) else r == None
    case _ => r == None
  }

  /** What the rules find for the first nodes. */
  ghost predicate FindsFirst(ns: seq<Node>, rs: seq<Option<CharSet>>)
    decreases ns, 0
  {
    |rs| <= |ns| && forall i :: 0 <= i < |rs| ==> Finds(ns[i], rs[i])
  }

  /** The first of the smallest sets. */
  predicate FirstSmallest(rs: seq<Option<CharSet>>, r: Option<CharSet>) {
    if r.None? then forall i :: 0 <= i < |rs| ==> rs[i].None?
    else exists i :: 0 <= i < |rs| && rs[i] == r && IsFirst(rs, i)
  }

  predicate IsFirst(rs: seq<Option<CharSet>>, i: nat)
    requires i < |rs| && rs[i].Some?
  {
    forall j :: 0 <= j < |rs| && rs[j].Some? ==>
      && !Smaller(rs[j].value, rs[i].value)
      && (j < i ==> Smaller(rs[i].value, rs[j].value))
  }

  /** Any of the sets has the character. */
  predicate AnyHolds(rs: seq<Option<CharSet>>, c: int) {
    exists i :: 0 <= i < |rs| && rs[i].Some? && Holds(rs[i].value, c)
  }

  ghost predicate IsUnion(rs: seq<Option<CharSet>>, u: CharSet) {
    forall c :: Holds(u, c) <==> AnyHolds(rs, c)
  }

  /** The union of the sets of all branches; none from the first branch on that has no set, or makes the union too large. */
  ghost predicate SmallUnion(rs: seq<Option<CharSet>>, branches: nat, r: Option<CharSet>) {
    if r.None? then StopsUnion(rs, |rs|) else |rs| == branches && UnionSoFar(rs, r.value)
  }

  ghost predicate StopsUnion(rs: seq<Option<CharSet>>, k: nat)
    requires k <= |rs|
  {
    (k > 0 && rs[k - 1].None?) || exists u :: IsUnion(rs[..k], u) && !Small(u)
  }

  lemma NoneSmallest()
    ensures FirstSmallest([], None)
  {
  }

  /** One more part: its set is taken only if it is smaller. */
  lemma NextSmallest(rs: seq<Option<CharSet>>, r: Option<CharSet>, one: Option<CharSet>)
    requires FirstSmallest(rs, r)
    ensures FirstSmallest(rs + [one], if one.Some? && (r.None? || Smaller(one.value, r.value)) then one else r)
  {
    hide CharCount;
    var more := rs + [one];
    if one.Some? && (r.None? || Smaller(one.value, r.value)) {
      assert more[|rs|] == one && IsFirst(more, |rs|);
    } else if r.Some? {
      var i :| 0 <= i < |rs| && rs[i] == r && IsFirst(rs, i);
      assert more[i] == r && IsFirst(more, i);
    }
  }

  lemma FindsMore(ns: seq<Node>, rs: seq<Option<CharSet>>, one: Option<CharSet>)
    requires |rs| < |ns| && FindsFirst(ns, rs) && Finds(ns[|rs|], one)
    ensures FindsFirst(ns, rs + [one])
  {
    hide Finds;
  }

  /** So far the union is of all the sets, and nothing stopped it. */
  ghost predicate UnionSoFar(rs: seq<Option<CharSet>>, all: CharSet) {
    IsUnion(rs, all) && forall k :: 0 <= k <= |rs| ==> !StopsUnion(rs, k)
  }

  lemma NoUnion(all: CharSet)
    requires all == []
    ensures UnionSoFar([], all)
  {
    assert Small(all);
    forall u: CharSet | IsUnion([][..0], u) ensures Small(u) {
      UnionIsOne([], u, all);
    }
  }

  lemma UnionIsOne(rs: seq<Option<CharSet>>, u: CharSet, v: CharSet)
    requires IsUnion(rs, u) && IsUnion(rs, v)
    ensures u == v
  {
    hide Holds, AnyHolds;
    assert forall c :: Holds(u, c) <==> AnyHolds(rs, c);
    CanonicalIsUnique(u, v);
  }

  lemma NextUnion(rs: seq<Option<CharSet>>, all: CharSet, one: Option<CharSet>, more: CharSet, branches: nat)
    requires UnionSoFar(rs, all) && one.Some? && forall c :: Holds(more, c) <==> Holds(all, c) || Holds(one.value, c)
    ensures IsUnion(rs + [one], more)
    ensures Small(more) ==> UnionSoFar(rs + [one], more)
    ensures !Small(more) ==> SmallUnion(rs + [one], branches, None)
  {
    hide Holds, CharCount;
    var next := rs + [one];
    forall c ensures Holds(more, c) <==> AnyHolds(next, c) {
      AnyOfNext(rs, one, c);
    }
    assert next[..|rs| + 1] == next;
    if Small(more) {
      forall k | 0 <= k <= |rs| + 1 ensures !StopsUnion(next, k) {
        if k <= |rs| {
          assert next[..k] == rs[..k] && !StopsUnion(rs, k);
        } else {
          forall u: CharSet | IsUnion(next[..k], u) ensures Small(u) {
            UnionIsOne(next, u, more);
          }
        }
      }
    }
  }

  lemma AnyOfNext(rs: seq<Option<CharSet>>, one: Option<CharSet>, c: int)
    requires one.Some?
    ensures AnyHolds(rs + [one], c) <==> AnyHolds(rs, c) || Holds(one.value, c)
  {
    hide Holds;
    var next := rs + [one];
    if AnyHolds(rs, c) {
      var i :| 0 <= i < |rs| && rs[i].Some? && Holds(rs[i].value, c);
      assert next[i] == rs[i];
    }
    if Holds(one.value, c) {
      assert next[|rs|] == one;
    }
  }

  lemma NoneStops(rs: seq<Option<CharSet>>, branches: nat)
    ensures SmallUnion(rs + [None], branches, None)
  {
  }

  lemma WholeUnion(rs: seq<Option<CharSet>>, branches: nat, all: CharSet)
    requires |rs| == branches && UnionSoFar(rs, all)
    ensures SmallUnion(rs, branches, Some(all))
  {
  }

  lemma FindsNone(ns: seq<Node>)
    ensures FindsFirst(ns, [])
  {
  }

  /** The rules find one set, or none. */
  lemma {:induction false} FindsOne(n: Node, a: Option<CharSet>, b: Option<CharSet>)
    requires Finds(n, a) && Finds(n, b)
    ensures a == b
    decreases n, 0
  {
    hide FirstSmallest, SmallUnion;
    match n
    case Group(_, inner) => FindsOne(inner, a, b);
    case Concat(parts) =>
      var rs :| FindsFirst(parts, rs) && |rs| == |parts| && FirstSmallest(rs, a);
      var qs :| FindsFirst(parts, qs) && |qs| == |parts| && FirstSmallest(qs, b);
      FindsAlike(parts, rs, qs);
      assert rs == qs;
      SmallestIsOne(rs, a, b);
    case Alt(branches) =>
      var rs :| FindsFirst(branches, rs) && SmallUnion(rs, |branches|, a);
      var qs :| FindsFirst(branches, qs) && SmallUnion(qs, |branches|, b);
      FindsAlike(branches, rs, qs);
      SmallUnionIsOne(rs, qs, |branches|, a, b);
    case Repeat(body, min, _, _) =>
      if min > 0 {
        FindsOne(body, a, b);
      }
    case _ =>
  }

  lemma {:induction false} FindsAlike(ns: seq<Node>, rs: seq<Option<CharSet>>, qs: seq<Option<CharSet>>)
    requires FindsFirst(ns, rs) && FindsFirst(ns, qs)
    ensures forall i :: 0 <= i < |rs| && i < |qs| ==> rs[i] == qs[i]
    decreases ns, 0
  {
    hide Finds;
    forall i | 0 <= i < |rs| && i < |qs| ensures rs[i] == qs[i] {
      FindsOne(ns[i], rs[i], qs[i]);
    }
  }

  lemma SmallestIsOne(rs: seq<Option<CharSet>>, a: Option<CharSet>, b: Option<CharSet>)
    requires FirstSmallest(rs, a) && FirstSmallest(rs, b)
    ensures a == b
  {
    hide CharCount;
    if a.Some? && b.Some? {
      var i :| 0 <= i < |rs| && rs[i] == a && IsFirst(rs, i);
      var j :| 0 <= j < |rs| && rs[j] == b && IsFirst(rs, j);
      assert i < j || j < i || i == j;
    }
  }

  /** More branches after the one that stops the union stop it too. */
  lemma StopsAlike(rs: seq<Option<CharSet>>, qs: seq<Option<CharSet>>)
    requires StopsUnion(rs, |rs|) && |rs| <= |qs| && forall i :: 0 <= i < |rs| ==> rs[i] == qs[i]
    ensures StopsUnion(qs, |rs|)
  {
    hide IsUnion, Small;
    assert qs[..|rs|] == rs[..|rs|];
  }

  lemma SmallUnionIsOne(rs: seq<Option<CharSet>>, qs: seq<Option<CharSet>>, branches: nat, a: Option<CharSet>, b: Option<CharSet>)
    requires SmallUnion(rs, branches, a) && SmallUnion(qs, branches, b) && |rs| <= branches && |qs| <= branches
    requires forall i :: 0 <= i < |rs| && i < |qs| ==> rs[i] == qs[i]
    ensures a == b
  {
    hide IsUnion, Small;
    if a.None? && b.Some? {
      StopsAlike(rs, qs);
    } else if a.Some? && b.None? {
      StopsAlike(qs, rs);
    } else if a.Some? {
      assert rs == qs;
      UnionIsOne(rs, a.value, b.value);
    }
  }

  /** The set the rules find, if they find one: small, and every match of the node has a character of it. */
  method Required(n: Node) returns (r: Option<CharSet>)
    requires Branching(n)
    ensures r.Some? ==> RequiredOf(n, r.value) && Small(r.value) && CharCount(r.value) <= 16
    ensures Finds(n, r)
    decreases n
  {
    hide RequiredOf, CharCount, FindsFirst, FirstSmallest, SmallUnion, UnionSoFar, StopsUnion;
    r := None;
    match n {
      case Class(chars) =>
        RequiredOfClass(chars);
        if Small(chars) {
          r := Some(chars);
        }
      case Group(capture, inner) =>
        r := Required(inner);
        if r.Some? {
          RequiredOfGroup(capture, inner, r.value);
        }
      case Concat(parts) =>
        ghost var rs: seq<Option<CharSet>> := [];
        NoneSmallest();
        FindsNone(parts);
        for i := 0 to |parts|
          invariant r.Some? ==> RequiredOf(n, r.value) && Small(r.value)
          invariant |rs| == i && FindsFirst(parts, rs) && FirstSmallest(rs, r)
        {
          EachBranching(parts, i);
          var one := Required(parts[i]);
          FindsMore(parts, rs, one);
          NextSmallest(rs, r, one);
          rs := rs + [one];
          if one.Some? && (r.None? || Smaller(one.value, r.value)) {
            RequiredOfConcat(parts, i, one.value);
            r := one;
          }
        }
      case Alt(branches) =>
        var all: CharSet := [];
        CountOfNothing(all);
        ghost var rs: seq<Option<CharSet>> := [];
        FindsNone(branches);
        NoUnion(all);
        for i := 0 to |branches|
          invariant Small(all) && |rs| == i && FindsFirst(branches, rs) && UnionSoFar(rs, all)
          invariant forall j :: 0 <= j < i ==> RequiredOf(branches[j], all)
        {
          EachBranching(branches, i);
          var one := Required(branches[i]);
          FindsMore(branches, rs, one);
          if one.None? {
            NoneStops(rs, |branches|);
            return;
          }
          ghost var was := all;
          all := Union(all, one.value);
          NextUnion(rs, was, one, all, |branches|);
          rs := rs + [one];
          forall j | 0 <= j <= i ensures RequiredOf(branches[j], all) {
            RequiredOfMore(branches[j], if j < i then was else one.value, all);
          }
          if !Small(all) {
            return;
          }
        }
        RequiredOfAlt(branches, all);
        WholeUnion(rs, |branches|, all);
        r := Some(all);
      case Repeat(body, min, max, greedy) =>
        if min > 0 {
          r := Required(body);
          if r.Some? {
            RequiredOfRepeat(body, min, max, greedy, r.value);
          }
        }
      case _ =>
    }
  }

  // ----- prefix -----

  /** Every match of the node begins with the text, and is the text if `whole`. */
  ghost predicate Begins(n: Node, text: string, whole: bool) {
    forall e, s, t :: Path(n, e, s, t) ==> BeginsAt(e, s.pos, t.pos, text, whole)
  }

  ghost predicate BeginsAt(e: Env, from: nat, to: nat, text: string, whole: bool) {
    OccursAt(e.hay, from, text) && (if whole then to == from + |text| else to >= from + |text|)
  }

  ghost predicate BeginsThrough(parts: seq<Node>, text: string, whole: bool) {
    forall e: Env, s: State, t: State :: s.pos <= |e.hay| && PathThrough(parts, e, s, t) ==> BeginsAt(e, s.pos, t.pos, text, whole)
  }

  /** A text read on past the text before it. */
  lemma OccursOn(hay: string, q: nat, a: string, b: string)
    requires OccursAt(hay, q, a) && OccursAt(hay, q + |a|, b)
    ensures OccursAt(hay, q, a + b)
  {
    assert hay[q..q + |a + b|] == hay[q..q + |a|] + hay[q + |a|..q + |a| + |b|];
  }

  lemma OccursLess(hay: string, q: nat, a: string, k: nat)
    requires OccursAt(hay, q, a) && k <= |a|
    ensures OccursAt(hay, q, a[..k])
  {
    assert hay[q..q + k] == hay[q..q + |a|][..k];
  }

  lemma BeginsLess(n: Node, text: string, whole: bool, k: nat)
    requires Begins(n, text, whole) && k <= |text|
    ensures Begins(n, text[..k], whole && k == |text|)
  {
    hide Path, OccursAt;
    assert text[..|text|] == text;
    forall e, s, t | Path(n, e, s, t) ensures BeginsAt(e, s.pos, t.pos, text[..k], whole && k == |text|) {
      OccursLess(e.hay, s.pos, text, k);
    }
  }

  lemma BeginsNothing(n: Node)
    ensures Begins(n, "", false)
  {
    hide Path;
    forall e, s, t | Path(n, e, s, t) ensures BeginsAt(e, s.pos, t.pos, "", false) {
      PathIsOnward(n, e, s, t);
    }
  }

  lemma {:induction false} PathThroughFirst(parts: seq<Node>, i: nat, e: Env, s: State, t: State) returns (m: State)
    requires i <= |parts| && s.pos <= |e.hay| && PathThrough(parts, e, s, t)
    ensures m.pos <= |e.hay| && PathThrough(parts[..i], e, s, m) && PathThrough(parts[i..], e, m, t)
    decreases i
  {
    hide Path;
    if i == 0 {
      m := s;
    } else {
      var x :| Path(parts[0], e, s, x) && PathThrough(parts[1..], e, x, t);
      PathIsOnward(parts[0], e, s, x);
      m := PathThroughFirst(parts[1..], i - 1, e, x, t);
      assert parts[1..][i - 1..] == parts[i..] && parts[..i][1..] == parts[1..][..i - 1];
    }
  }

  lemma PathOfOne(n: Node, e: Env, s: State, t: State)
    requires PathThrough([n], e, s, t)
    ensures Path(n, e, s, t)
  {
    hide Path;
    var m :| Path([n][0], e, s, m) && PathThrough([n][1..], e, m, t);
  }

  /** The text of a concatenation's parts so far, and the next one's. */
  lemma BeginsNext(parts: seq<Node>, i: nat, out: string, text: string, whole: bool)
    requires i < |parts| && BeginsThrough(parts[..i], out, true) && Begins(parts[i], text, whole)
    ensures BeginsThrough(parts[..i + 1], out + text, whole)
  {
    hide Path, OccursAt, PathThrough;
    var some := parts[..i + 1];
    assert some[..i] == parts[..i] && some[i..] == [parts[i]];
    forall e: Env, s: State, t: State | s.pos <= |e.hay| && PathThrough(some, e, s, t) ensures BeginsAt(e, s.pos, t.pos, out + text, whole) {
      var m := PathThroughFirst(some, i, e, s, t);
      PathOfOne(parts[i], e, m, t);
      assert BeginsAt(e, s.pos, m.pos, out, true) && BeginsAt(e, m.pos, t.pos, text, whole);
      OccursOn(e.hay, s.pos, out, text);
    }
  }

  lemma BeginsConcat(parts: seq<Node>, i: nat, text: string, whole: bool)
    requires i <= |parts| && BeginsThrough(parts[..i], text, whole)
    ensures Begins(Concat(parts), text, whole && i == |parts|)
  {
    hide OccursAt, PathThrough;
    forall e, s, t | Path(Concat(parts), e, s, t) ensures BeginsAt(e, s.pos, t.pos, text, whole && i == |parts|) {
      var m := PathThroughFirst(parts, i, e, s, t);
      ThroughIsOnward(parts[i..], e, m, t);
      assert BeginsAt(e, s.pos, m.pos, text, whole);
      if i == |parts| {
        assert parts[..i] == parts;
      }
    }
  }

  lemma {:induction false} RepeatedLess(text: string, j: nat, k: nat)
    requires j <= k
    ensures |Repeated(text, j)| <= |Repeated(text, k)| && Repeated(text, k)[..|Repeated(text, j)|] == Repeated(text, j)
    decreases j
  {
    if j > 0 {
      RepeatedLess(text, j - 1, k - 1);
    }
  }

  lemma {:induction false} BeginsBy(body: Node, text: string, k: nat, e: Env, s: State, t: State)
    requires s.pos <= |e.hay| && Begins(body, text, true) && PathBy(body, k, e, s, t)
    ensures BeginsAt(e, s.pos, t.pos, Repeated(text, k), true)
    decreases k
  {
    hide Path, OccursAt;
    if k == 0 {
      EmptyOccurs(e.hay, s.pos);
    } else {
      var m := FirstIteration(body, k, e, s, t);
      PathIsOnward(body, e, s, m);
      BeginsBy(body, text, k - 1, e, m, t);
      assert BeginsAt(e, s.pos, m.pos, text, true);
      OccursOn(e.hay, s.pos, text, Repeated(text, k - 1));
    }
  }

  lemma EmptyOccurs(hay: string, q: nat)
    requires q <= |hay|
    ensures OccursAt(hay, q, "")
  {
  }

  /** At least `copies` iterations of a literal; if exactly so many, nothing but them. */
  lemma BeginsCopies(body: Node, min: nat, max: Option<nat>, greedy: bool, text: string, copies: nat, exact: bool)
    requires Begins(body, text, true) && 0 < copies <= min && (exact ==> max == Some(min) && copies == min)
    ensures Begins(Repeat(body, min, max, greedy), Repeated(text, copies), exact)
  {
    hide OccursAt;
    forall e, s, t | Path(Repeat(body, min, max, greedy), e, s, t)
      ensures BeginsAt(e, s.pos, t.pos, Repeated(text, copies), exact)
    {
      var k: nat :| Allowed(k, min, max) && PathBy(body, k, e, s, t);
      BeginsBy(body, text, k, e, s, t);
      RepeatedLess(text, copies, k);
      OccursLess(e.hay, s.pos, Repeated(text, k), |Repeated(text, copies)|);
    }
  }

  lemma BeginsOnce(body: Node, min: nat, max: Option<nat>, greedy: bool, text: string, whole: bool)
    requires min > 0 && Begins(body, text, whole)
    ensures Begins(Repeat(body, min, max, greedy), text, false)
  {
    hide OccursAt;
    forall e, s, t | Path(Repeat(body, min, max, greedy), e, s, t) ensures BeginsAt(e, s.pos, t.pos, text, false) {
      var k: nat :| Allowed(k, min, max) && PathBy(body, k, e, s, t);
      var m := FirstIteration(body, k, e, s, t);
      PathIsOnward(body, e, s, m);
      ByIsOnward(body, k - 1, e, m, t);
      assert BeginsAt(e, s.pos, m.pos, text, whole);
    }
  }

  lemma BeginsGroup(capture: Option<nat>, inner: Node, text: string, whole: bool)
    requires Begins(inner, text, whole)
    ensures Begins(Group(capture, inner), text, whole)
  {
    hide BeginsAt;
    var n := Group(capture, inner);
    forall e, s, t | Path(n, e, s, t) ensures BeginsAt(e, s.pos, t.pos, text, whole) {
      match capture
      case Some(nr) =>
        var m := InsideGroup(nr, inner, e, s, t);
        assert BeginsAt(e, Saved(s, 2 * nr).pos, m.pos, text, whole);
      case None =>
        assert Path(inner, e, s, t);
    }
  }

  lemma BeginsAlt(branches: seq<Node>, text: string, whole: bool)
    requires branches != [] && forall i :: 0 <= i < |branches| ==> Begins(branches[i], text, whole)
    ensures Begins(Alt(branches), text, whole)
  {
    hide BeginsAt;
    forall e, s, t | Path(Alt(branches), e, s, t) ensures BeginsAt(e, s.pos, t.pos, text, whole) {
      var i :| 0 <= i < |branches| && Path(branches[i], e, s, t);
      assert Begins(branches[i], text, whole);
    }
  }

  lemma BeginsChar(chars: CharSet)
    requires OneChar(chars).Some?
    ensures Begins(Class(chars), OneChar(chars).value, true)
  {
    forall e, s, t | Path(Class(chars), e, s, t) ensures BeginsAt(e, s.pos, t.pos, OneChar(chars).value, true) {
      assert e.hay[s.pos] as int == chars[0].lo;
    }
  }

  /** The text cut to at most the longest literal kept, at a character. */
  method Cut(text: string) returns (r: string)
    ensures ByteLen(r) <= 16 && |r| <= |text| && r == text[..|r|]
    ensures |r| < |text| ==> ByteLen(text[..|r| + 1]) > 16
    ensures r == Limited(text)
  {
    hide Limited;
    var end := |text|;
    assert text[..end] == text && text[..0] == "";
    while ByteLen(text[..end]) > MAX_PREFIX_BYTES
      invariant 0 <= end <= |text|
      invariant end < |text| ==> ByteLen(text[..end + 1]) > MAX_PREFIX_BYTES
      decreases end
    {
      end := end - 1;
    }
    r := text[..end];
    LongestIsLimited(text, r);
  }

  lemma LongestIsLimited(text: string, r: string)
    requires ByteLen(r) <= MAX_PREFIX_BYTES && r <= text
    requires |r| < |text| ==> ByteLen(text[..|r| + 1]) > MAX_PREFIX_BYTES
    ensures r == Limited(text)
  {
    hide Limited, ByteLen;
    LimitedIs(r, text);
    var limited := Limited(text);
    if |limited| > |r| {
      assert text[..|r| + 1] <= limited;
      LimitedIs(text[..|r| + 1], text);
    }
  }

  /** How far two texts agree. */
  method CommonLength(a: string, b: string) returns (same: nat)
    ensures same <= |a| && same <= |b| && a[..same] == b[..same]
    ensures same < |a| && same < |b| ==> a[same] != b[same]
  {
    same := 0;
    while same < |a| && same < |b| && a[same] == b[same]
      invariant same <= |a| && same <= |b| && a[..same] == b[..same]
    {
      same := same + 1;
    }
  }

  lemma BeginsWeaker(n: Node, text: string, whole: bool)
    requires Begins(n, text, whole)
    ensures Begins(n, text, false)
  {
    hide Path, OccursAt;
    forall e, s, t | Path(n, e, s, t) ensures BeginsAt(e, s.pos, t.pos, text, false) {
      assert BeginsAt(e, s.pos, t.pos, text, whole);
    }
  }

  /** A node that consumes nothing. */
  lemma BeginsEmpty(n: Node)
    requires n.Empty? || n.Bol? || n.Eol? || n == Alt([])
    ensures Begins(n, "", true)
  {
  }

  lemma BeginsNone(parts: seq<Node>)
    ensures BeginsThrough(parts[..0], "", true)
  {
  }

  lemma NoBytes()
    ensures ByteLen("") == 0
  {
  }

  lemma FewBytes(text: string)
    requires |text| <= 1
    ensures ByteLen(text) <= 4
  {
  }

  lemma SomeBytes(text: string)
    requires text != ""
    ensures ByteLen(text) > 0
  {
  }

  lemma AfterAll(out: string)
    ensures After(out, LiteralThrough([])) == Opening(out, true)
  {
    assert out + "" == out;
  }

  lemma OneLiteral(branches: seq<Node>)
    requires branches != []
    ensures LiteralOfAll(branches[..1]) == Literal(branches[0])
  {
  }

  lemma NextLiteral(branches: seq<Node>, i: nat, text: string, whole: bool, p: string, w: bool, same: nat)
    requires 0 < i < |branches|
    requires Opening(text, whole) == Cropped(LiteralOfAll(branches[..i]))
    requires Opening(p, w) == Cropped(Literal(branches[i]))
    requires same <= |text| && same <= |p| && text[..same] == p[..same] && (same < |text| && same < |p| ==> text[same] != p[same])
    ensures Opening(text[..same], whole && w && same == |text| && same == |p|)
            == Cropped(LiteralOfAll(branches[..i + 1]))
    ensures ByteLen(text[..same]) <= MAX_PREFIX_BYTES
  {
    hide Limited, ByteLen, Common, Literal;
    assert branches[..i + 1][..i] == branches[..i];
    SharedCropped(LiteralOfAll(branches[..i]), Literal(branches[i]));
    CommonAt(text, p, same);
    FewerBytes(text[..same], text);
    assert same == |text| == |p| <==> text == p;
  }

  /** The literal every match of the node begins with, and whether every match is exactly that: what the rules give, cut. */
  method Prefix(n: Node) returns (text: string, whole: bool)
    ensures Begins(n, text, whole) && ByteLen(text) <= 16
    ensures Opening(text, whole) == Cropped(Literal(n))
    decreases n
  {
    hide Begins, BeginsThrough, ByteLen, Limited, Common, Repeated, LiteralThrough, LiteralOfAll, Shared;
    text, whole := "", false;
    BeginsNothing(n);
    NoBytes();
    match n {
      case Backref(_) =>
      case Class(chars) =>
        if OneChar(chars).Some? {
          BeginsChar(chars);
          text, whole := OneChar(chars).value, true;
          FewBytes(text);
          LimitedStays(text);
        }
      case Group(capture, inner) =>
        text, whole := Prefix(inner);
        BeginsGroup(capture, inner, text, whole);
      case Concat(parts) =>
        var out := "";
        BeginsNone(parts);
        assert parts[0..] == parts;
        AfterNothing(LiteralThrough(parts));
        for i := 0 to |parts|
          invariant BeginsThrough(parts[..i], out, true) && ByteLen(out) <= MAX_PREFIX_BYTES
          invariant LiteralThrough(parts) == After(out, LiteralThrough(parts[i..]))
        {
          var p, w := Prefix(parts[i]);
          assert parts[i..][1..] == parts[i + 1..];
          if w {
            PartGoesOn(out, parts[i..]);
          }
          if !w || ByteLen(out + p) > MAX_PREFIX_BYTES {
            PartEnds(out, parts[i..]);
          }
          BeginsNext(parts, i, out, p, w);
          out := out + p;
          BeginsConcat(parts, i + 1, out, w);
          if !w || ByteLen(out) > MAX_PREFIX_BYTES {
            text := Cut(out);
            BeginsLess(n, out, w && i + 1 == |parts|, |text|);
            BeginsWeaker(n, text, w && i + 1 == |parts| && |text| == |out|);
            return text, false;
          }
        }
        BeginsConcat(parts, |parts|, out, true);
        text, whole := out, true;
        AfterAll(out);
        LimitedStays(out);
      case Alt(branches) =>
        if branches == [] {
          BeginsEmpty(n);
          return "", true;
        }
        text, whole := Prefix(branches[0]);
        OneLiteral(branches);
        for i := 1 to |branches|
          invariant ByteLen(text) <= MAX_PREFIX_BYTES
          invariant Opening(text, whole) == Cropped(LiteralOfAll(branches[..i]))
          invariant forall j :: 0 <= j < i ==> Begins(branches[j], text, whole)
        {
          var p, w := Prefix(branches[i]);
          var same := CommonLength(text, p);
          ghost var before, wasWhole := text, whole;
          whole := whole && w && same == |text| && same == |p|;
          text := text[..same];
          forall j | 0 <= j <= i ensures Begins(branches[j], text, whole) {
            if j < i {
              BeginsLess(branches[j], before, wasWhole, same);
              BeginsWeaker(branches[j], text, wasWhole && same == |before|);
            } else {
              BeginsLess(branches[j], p, w, same);
              BeginsWeaker(branches[j], text, w && same == |p|);
            }
          }
          NextLiteral(branches, i, before, wasWhole, p, w, same);
        }
        assert branches[..|branches|] == branches;
        BeginsAlt(branches, text, whole);
      case Repeat(body, min, max, greedy) =>
        if min == 0 {
          return;
        }
        text, whole := Prefix(body);
        ghost var once := Literal(body);
        LimitedNotEmpty(once.text);
        if !whole || text == "" {
          BeginsOnce(body, min, max, greedy, text, whole);
          if once.whole && once.text != "" {
            RepeatedPast(once.text, min, max == Some(min));
          }
          return text, false;
        }
        LimitedStays(once.text);
        SomeBytes(text);
        var copies := Least(min, MAX_PREFIX_BYTES / ByteLen(text) + 1);
        var out := Repeated(text, copies);
        var exact := max == Some(min) && copies == min;
        BeginsCopies(body, min, max, greedy, text, copies, exact);
        whole := exact && ByteLen(out) <= MAX_PREFIX_BYTES;
        text := Cut(out);
        CopiesEnough(once.text, copies, min, max == Some(min));
        BeginsLess(n, out, exact, |text|);
        assert |text| < |out| ==> ByteLen(out) > MAX_PREFIX_BYTES by {
          if |text| < |out| {
            FewerBytes(out[..|text| + 1], out);
          }
        }
        BeginsWeaker(n, text, exact && |text| == |out|);
      case _ =>
        BeginsEmpty(n);
        whole := true;
    }
  }
}
