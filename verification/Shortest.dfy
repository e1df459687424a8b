/** The minimum length is the least there is: the shortest texts a pattern matches. */
module Shortest {
  import opened Options
  import opened CharSets
  import opened Syntax
  import opened Denotation
  import opened Paths
  import opened LiteralSearch

  /** No anchor, no back-reference, a branch in every choice and a character in every set. */
  predicate Plain(n: Node) {
    match n
    case Empty => true
    case Class(chars) => chars != [] && IsChar(chars[0].lo)
    case Group(_, inner) => Plain(inner)
    case Concat(parts) => AllPlain(parts)
    case Alt(branches) => branches != [] && AllPlain(branches)
    case Repeat(body, _, _, _) => Plain(body)
    case _ => false
  }

  predicate AllPlain(ns: seq<Node>) {
    ns == [] || (Plain(ns[0]) && AllPlain(ns[1..]))
  }

  predicate IsChar(c: int) {
    0 <= c < 0xD800 || 0xE000 <= c < 0x110000
  }

  /** A text as short as any the pattern matches. */
  function ShortestText(n: Node): string
    requires Plain(n)
    decreases n, 0
  {
    match n
    case Empty => ""
    case Class(chars) => [chars[0].lo as char]
    case Group(_, inner) => ShortestText(inner)
    case Concat(parts) => ShortestOfAll(parts)
    case Alt(branches) => ShortestOfAny(branches)
    case Repeat(body, min, _, _) => Copies(ShortestText(body), min)
  }

  function ShortestOfAll(ns: seq<Node>): string
    requires AllPlain(ns)
    decreases ns, 0
  {
    if ns == [] then "" else ShortestText(ns[0]) + ShortestOfAll(ns[1..])
  }

  function ShortestOfAny(ns: seq<Node>): string
    requires AllPlain(ns) && ns != []
    decreases ns, 0
  {
    var first := ShortestText(ns[0]);
    if |ns| == 1 then first
    else
      var rest := ShortestOfAny(ns[1..]);
      if |first| <= |rest| then first else rest
  }

  function Copies(text: string, k: nat): string {
    if k == 0 then "" else text + Copies(text, k - 1)
  }

  lemma {:induction false} CopiesLength(text: string, k: nat)
    ensures |Copies(text, k)| == Times(k, |text|)
  {
    if k > 0 {
      CopiesLength(text, k - 1);
    }
  }

  lemma SaturateTimes(k: nat, m: nat)
    ensures Saturate(Times(k, Saturate(m))) == Saturate(Times(k, m))
  {
    if m >= MAX_LEN && k > 0 {
      TimesIsProduct(k, m);
      TimesIsProduct(k, MAX_LEN);
      ManyAreMore(k, m);
      ManyAreMore(k, MAX_LEN);
    }
  }

  lemma ManyAreMore(k: nat, m: nat)
    requires k > 0
    ensures k * m >= m
  {
  }

  /** Its length is the minimum length, but for saturation. */
  lemma {:induction false} ShortestIsMinimum(n: Node)
    requires Plain(n)
    ensures Saturate(|ShortestText(n)|) == MinLen(n)
    decreases n, 0
  {
    match n
    case Empty =>
    case Class(_) =>
    case Group(_, inner) => ShortestIsMinimum(inner);
    case Concat(parts) => ShortestAll(parts);
    case Alt(branches) => ShortestAny(branches);
    case Repeat(body, min, _, _) =>
      ShortestIsMinimum(body);
      CopiesLength(ShortestText(body), min);
      SaturateTimes(min, |ShortestText(body)|);
  }

  lemma {:induction false} ShortestAll(ns: seq<Node>)
    requires AllPlain(ns)
    ensures Saturate(|ShortestOfAll(ns)|) == MinLenAll(ns)
    decreases ns, 0
  {
    if ns != [] {
      ShortestIsMinimum(ns[0]);
      ShortestAll(ns[1..]);
    }
  }

  lemma {:induction false} ShortestAny(ns: seq<Node>)
    requires AllPlain(ns) && ns != []
    ensures Saturate(|ShortestOfAny(ns)|) == MinLenAny(ns)
    decreases ns, 0
  {
    ShortestIsMinimum(ns[0]);
    if |ns| > 1 {
      ShortestAny(ns[1..]);
    }
  }

  // ----- where it stands, it is matched -----

  lemma StandsInParts(hay: string, q: nat, a: string, b: string)
    requires StandsAt(hay, q, a + b)
    ensures StandsAt(hay, q, a) && StandsAt(hay, q + |a|, b)
  {
    forall i | 0 <= i < |a| ensures hay[q + i] == a[i] {
      assert (a + b)[i] == a[i];
    }
    forall i | 0 <= i < |b| ensures hay[q + |a| + i] == b[i] {
      assert hay[q + (|a| + i)] == (a + b)[|a| + i];
    }
  }

  lemma {:induction false} ShortestMatches(n: Node, e: Env, s: State) returns (t: State)
    requires Plain(n) && StandsAt(e.hay, s.pos, ShortestText(n))
    ensures Path(n, e, s, t) && t.pos == s.pos + |ShortestText(n)|
    decreases n, 0, 0
  {
    match n
    case Empty => t := s;
    case Class(chars) =>
      assert e.hay[s.pos + 0] == ShortestText(n)[0];
      assert chars[0].lo <= e.hay[s.pos] as int <= chars[0].hi;
      t := s.(pos := s.pos + 1);
    case Group(Some(nr), inner) =>
      var m := ShortestMatches(inner, e, Saved(s, 2 * nr));
      t := Saved(m, 2 * nr + 1);
    case Group(None, inner) => t := ShortestMatches(inner, e, s);
    case Concat(parts) => t := ShortestThrough(parts, e, s);
    case Alt(branches) =>
      var i;
      t, i := ShortestBranch(branches, e, s);
    case Repeat(body, min, max, _) =>
      t := ShortestBy(body, min, e, s);
      assert Allowed(min, min, max);
  }

  lemma {:induction false} ShortestThrough(parts: seq<Node>, e: Env, s: State) returns (t: State)
    requires AllPlain(parts) && StandsAt(e.hay, s.pos, ShortestOfAll(parts))
    ensures PathThrough(parts, e, s, t) && t.pos == s.pos + |ShortestOfAll(parts)|
    decreases parts, 0, 0
  {
    hide Path, StandsAt;
    if parts == [] {
      t := s;
    } else {
      StandsInParts(e.hay, s.pos, ShortestText(parts[0]), ShortestOfAll(parts[1..]));
      var m := ShortestMatches(parts[0], e, s);
      t := ShortestThrough(parts[1..], e, m);
    }
  }

  lemma {:induction false} ShortestBranch(ns: seq<Node>, e: Env, s: State) returns (t: State, i: nat)
    requires AllPlain(ns) && ns != [] && StandsAt(e.hay, s.pos, ShortestOfAny(ns))
    ensures i < |ns| && Path(ns[i], e, s, t) && t.pos == s.pos + |ShortestOfAny(ns)|
    decreases ns, 0, 0
  {
    hide Path, StandsAt;
    if |ns| == 1 || |ShortestText(ns[0])| <= |ShortestOfAny(ns[1..])| {
      i := 0;
      t := ShortestMatches(ns[0], e, s);
    } else {
      t, i := ShortestBranch(ns[1..], e, s);
      i := i + 1;
    }
  }

  lemma {:induction false} ShortestBy(body: Node, k: nat, e: Env, s: State) returns (t: State)
    requires Plain(body) && StandsAt(e.hay, s.pos, Copies(ShortestText(body), k))
    ensures PathBy(body, k, e, s, t) && t.pos == s.pos + |Copies(ShortestText(body), k)|
    decreases body, 1, k
  {
    hide Path, StandsAt;
    if k == 0 {
      t := s;
    } else {
      StandsInParts(e.hay, s.pos, ShortestText(body), Copies(ShortestText(body), k - 1));
      var m := ShortestMatches(body, e, s);
      t := ShortestBy(body, k - 1, e, m);
    }
  }

  /** The pattern matches all of its shortest text, which is as long as the minimum length unless that is saturated. */
  lemma MinimumIsReached(n: Node, e: Env) returns (t: State)
    requires Plain(n) && e.hay == ShortestText(n)
    ensures Path(n, e, State(0, []), t) && t.pos == |e.hay|
    ensures MinLen(n) == |e.hay| || (MinLen(n) == 0xFFFF_FFFF_FFFF_FFFF && |e.hay| >= 0xFFFF_FFFF_FFFF_FFFF)
  {
    hide Path, Plain;
    ShortestIsMinimum(n);
    t := ShortestMatches(n, e, State(0, []));
  }
}
