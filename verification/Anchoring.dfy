/** A pattern that is not marked anchored has matches past the start: the mark is exact. */
module Anchoring {
  import opened Options
  import opened CharSets
  import opened Syntax
  import opened Denotation
  import opened Paths
  import opened LiteralSearch
  import opened Shortest
  import opened Prefilter

  /** No `$`, no back-reference, and a character in every set. */
  predicate Able(n: Node) {
    match n
    case Class(chars) => chars != [] && IsChar(chars[0].lo)
    case Group(_, inner) => Able(inner)
    case Concat(parts) => AllAble(parts)
    case Alt(branches) => AllAble(branches)
    case Repeat(body, _, _, _) => Able(body)
    case Eol => false
    case Backref(_) => false
    case _ => true
  }

  predicate AllAble(ns: seq<Node>) {
    ns == [] || (Able(ns[0]) && AllAble(ns[1..]))
  }

  /** A text matched without passing a `^`. */
  function LooseText(n: Node): string
    requires Able(n) && !Anchored(n)
    decreases n, 0
  {
    match n
    case Empty => ""
    case Class(chars) => [chars[0].lo as char]
    case Group(_, inner) => LooseText(inner)
    case Concat(parts) => LooseTexts(parts)
    case Alt(branches) => LooseBranch(branches)
    case Repeat(body, min, _, _) => if min == 0 then "" else Copies(LooseText(body), min)
  }

  function LooseTexts(ns: seq<Node>): string
    requires AllAble(ns) && !AnyAnchored(ns)
    decreases ns, 0
  {
    if ns == [] then "" else LooseText(ns[0]) + LooseTexts(ns[1..])
  }

  /** That of the first branch that has one. */
  function LooseBranch(ns: seq<Node>): string
    requires AllAble(ns) && !AllAnchored(ns)
    decreases ns, 0
  {
    if Anchored(ns[0]) then LooseBranch(ns[1..]) else LooseText(ns[0])
  }

  lemma {:induction false} LooseMatches(n: Node, e: Env, s: State) returns (t: State)
    requires Able(n) && !Anchored(n) && StandsAt(e.hay, s.pos, LooseText(n))
    ensures Path(n, e, s, t)
    ensures t.pos == s.pos + |LooseText(n)|
    decreases n, 0, 0
  {
    match n
    case Empty => t := s;
    case Class(chars) =>
      assert e.hay[s.pos + 0] == LooseText(n)[0];
      assert chars[0].lo <= e.hay[s.pos] as int <= chars[0].hi;
      t := s.(pos := s.pos + 1);
    case Group(Some(nr), inner) =>
      var m := LooseMatches(inner, e, Saved(s, 2 * nr));
      t := Saved(m, 2 * nr + 1);
    case Group(None, inner) => t := LooseMatches(inner, e, s);
    case Concat(parts) => t := LooseThrough(parts, e, s);
    case Alt(branches) =>
      var i;
      t, i := LooseOfBranches(branches, e, s);
    case Repeat(body, min, max, _) =>
      if min == 0 {
        t := Skipped(s, GroupSpan(body));
      } else {
        t := LooseBy(body, min, e, s);
        assert Allowed(min, min, max);
      }
  }

  lemma {:induction false} LooseThrough(parts: seq<Node>, e: Env, s: State) returns (t: State)
    requires AllAble(parts) && !AnyAnchored(parts) && StandsAt(e.hay, s.pos, LooseTexts(parts))
    ensures PathThrough(parts, e, s, t) && t.pos == s.pos + |LooseTexts(parts)|
    decreases parts, 0, 0
  {
    hide Path, StandsAt;
    if parts == [] {
      t := s;
    } else {
      StandsInParts(e.hay, s.pos, LooseText(parts[0]), LooseTexts(parts[1..]));
      var m := LooseMatches(parts[0], e, s);
      t := LooseThrough(parts[1..], e, m);
    }
  }

  lemma {:induction false} LooseOfBranches(ns: seq<Node>, e: Env, s: State) returns (t: State, i: nat)
    requires AllAble(ns) && !AllAnchored(ns) && StandsAt(e.hay, s.pos, LooseBranch(ns))
    ensures i < |ns| && Path(ns[i], e, s, t) && t.pos == s.pos + |LooseBranch(ns)|
    decreases ns, 0, 0
  {
    hide Path, StandsAt;
    if Anchored(ns[0]) {
      t, i := LooseOfBranches(ns[1..], e, s);
      i := i + 1;
    } else {
      i := 0;
      t := LooseMatches(ns[0], e, s);
    }
  }

  lemma {:induction false} LooseBy(body: Node, k: nat, e: Env, s: State) returns (t: State)
    requires Able(body) && !Anchored(body) && StandsAt(e.hay, s.pos, Copies(LooseText(body), k))
    ensures PathBy(body, k, e, s, t) && t.pos == s.pos + |Copies(LooseText(body), k)|
    decreases body, 1, k
  {
    hide Path, StandsAt;
    if k == 0 {
      t := s;
    } else {
      StandsInParts(e.hay, s.pos, LooseText(body), Copies(LooseText(body), k - 1));
      var m := LooseMatches(body, e, s);
      t := LooseBy(body, k - 1, e, m);
    }
  }

  /** The pattern has a path that begins past the start of some text. */
  ghost predicate BeginsLater(n: Node, e: Env) {
    exists hay: string, s: State, t: State :: s.pos > 0 && Path(n, e.(hay := hay), s, t)
  }

  /** Outside multi-line mode, a pattern is marked anchored exactly if no match of it begins past the start of any text. */
  lemma AnchoredIsExact(n: Node, e: Env)
    requires Branching(n) && Able(n) && !e.multiline
    ensures Anchored(n) <==> !BeginsLater(n, e)
  {
    hide Path, Able, Branching;
    if Anchored(n) {
      forall hay: string, s: State, t: State | s.pos > 0 ensures !Path(n, e.(hay := hay), s, t) {
        if Path(n, e.(hay := hay), s, t) {
          AnchoredBegins(n, e.(hay := hay), s, t);
        }
      }
    } else {
      var later := e.(hay := "a" + LooseText(n));
      var t := LooseMatches(n, later, State(1, []));
      assert Path(n, later, State(1, []), t);
    }
  }

  /** With `$` it is not: of `$a`, which matches nothing, no match begins past the start, and it is not marked. */
  lemma EndThenCharacter(e: Env)
    requires !e.multiline
    ensures var n := Concat([Eol, OneOf('a')]); !Anchored(n) && !BeginsLater(n, e)
  {
    hide BeginsLater;
    var parts := [Eol, OneOf('a')];
    assert parts[1..] == [OneOf('a')] && parts[1..][1..] == [];
    forall hay: string, s: State, t: State ensures !Path(Concat(parts), e.(hay := hay), s, t) {
      NothingAfterTheEnd(e.(hay := hay), s, t);
    }
    NeverLater(Concat(parts), e);
  }

  lemma NothingAfterTheEnd(e: Env, s: State, t: State)
    requires !e.multiline
    ensures !Path(Concat([Eol, OneOf('a')]), e, s, t)
  {
    var parts := [Eol, OneOf('a')];
    if Path(Concat(parts), e, s, t) {
      var m := FirstPart(parts, e, s, t);
      var k := FirstPart(parts[1..], e, m, t);
    }
  }

  lemma NeverLater(n: Node, e: Env)
    requires forall hay: string, s: State, t: State :: !Path(n, e.(hay := hay), s, t)
    ensures !BeginsLater(n, e)
  {
  }
}
