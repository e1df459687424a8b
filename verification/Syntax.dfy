/** The parsed pattern, and what compiling and searching read off it. */
module Syntax {
  import opened Options
  import opened CharSets

  datatype Node =
    | Empty
    | Class(chars: CharSet)
    | Bol
    | Eol
    | Backref(nr: nat)
    | Group(capture: Option<nat>, inner: Node)
    | Concat(parts: seq<Node>)
    | Alt(branches: seq<Node>)
    | Repeat(body: Node, min: nat, max: Option<nat>, greedy: bool)

  /** The largest `u64`, at which minimum lengths saturate. */
  const MAX_LEN: nat := 0xFFFF_FFFF_FFFF_FFFF

  function Saturate(n: nat): nat {
    if n < MAX_LEN then n else MAX_LEN
  }

  function Least(a: nat, b: nat): nat {
    if a < b then a else b
  }

  /** `k * m`, by repeated addition. */
  function Times(k: nat, m: nat): nat {
    if k == 0 then 0 else m + Times(k - 1, m)
  }

  lemma {:induction false} TimesIsProduct(k: nat, m: nat)
    ensures Times(k, m) == k * m
  {
    if k > 0 {
      TimesIsProduct(k - 1, m);
    }
  }

  lemma TimesZero(k: nat, m: nat)
    ensures Times(k, m) == 0 <==> k == 0 || m == 0
  {
    TimesIsProduct(k, m);
  }

  lemma TimesAdd(a: nat, b: nat, m: nat)
    ensures Times(a + b, m) == Times(a, m) + Times(b, m)
  {
    TimesIsProduct(a, m);
    TimesIsProduct(b, m);
    TimesIsProduct(a + b, m);
  }

  lemma {:induction false} TimesGrows(a: nat, b: nat, m: nat, n: nat)
    requires a <= b && m <= n
    ensures Times(a, m) <= Times(b, n)
    decreases b
  {
    if a > 0 {
      TimesGrows(a - 1, b - 1, m, n);
    }
  }

  lemma {:induction false} TimesSum(k: nat, m: nat, n: nat)
    ensures Times(k, m + n) == Times(k, m) + Times(k, n)
  {
    if k > 0 {
      TimesSum(k - 1, m, n);
    }
  }

  /** The length in characters of the shortest string a node can match, saturating. */
  function MinLen(n: Node): nat {
    match n
    case Class(_) => 1
    case Group(_, inner) => MinLen(inner)
    case Concat(parts) => MinLenAll(parts)
    case Alt(branches) => if branches == [] then 0 else MinLenAny(branches)
    case Repeat(body, min, _, _) => Saturate(Times(min, MinLen(body)))
    case _ => 0
  }

  function MinLenAll(ns: seq<Node>): nat {
    if ns == [] then 0 else Saturate(MinLen(ns[0]) + MinLenAll(ns[1..]))
  }

  function MinLenAny(ns: seq<Node>): nat
    requires ns != []
  {
    if |ns| == 1 then MinLen(ns[0]) else Least(MinLen(ns[0]), MinLenAny(ns[1..]))
  }

  /** A lowest and a highest capturing group. */
  type Span = Option<(nat, nat)>

  function Join(a: Span, b: Span): Span {
    match (a, b)
    case (Some(x), Some(y)) => Some((Least(x.0, y.0), if x.1 < y.1 then y.1 else x.1))
    case (x, None) => x
    case (None, y) => y
  }

  /** The lowest and the highest capturing group inside a node. */
  function GroupSpan(n: Node): Span {
    match n
    case Group(Some(nr), inner) => Join(Some((nr, nr)), GroupSpan(inner))
    case Group(None, inner) => GroupSpan(inner)
    case Concat(parts) => GroupSpans(parts)
    case Alt(branches) => GroupSpans(branches)
    case Repeat(body, _, _, _) => GroupSpan(body)
    case _ => None
  }

  function GroupSpans(ns: seq<Node>): Span {
    if ns == [] then None else Join(GroupSpan(ns[0]), GroupSpans(ns[1..]))
  }

  /** How many iterations past the minimum are allowed, if there is a limit. */
  function OptionalCopies(min: nat, max: Option<nat>): Option<nat> {
    match max
    case None => None
    case Some(m) => Some(if m < min then 0 else m - min)
  }

  predicate CanBeEmpty(n: Node) {
    MinLen(n) == 0
  }

  /** A node that compiles to no instruction. */
  predicate Silent(n: Node) {
    match n
    case Empty => true
    case Group(None, inner) => Silent(inner)
    case Concat(parts) => AllSilent(parts)
    case Alt(branches) => |branches| == 0 || (|branches| == 1 && Silent(branches[0]))
    case Repeat(body, min, Some(max), _) => (min == 0 && max == 0) || Silent(body)
    case _ => false
  }

  predicate AllSilent(ns: seq<Node>) {
    ns == [] || (Silent(ns[0]) && AllSilent(ns[1..]))
  }
}
