/** The literal every match of a pattern begins with, as the rules give it without a limit, and what a limit cuts it to. */
module Literals {
  import opened Options
  import opened CharSets
  import opened Syntax

  const MAX_PREFIX_BYTES: nat := 16

  /** The length of a character in UTF-8. */
  function Utf8Len(c: char): nat {
    if c as int < 0x80 then 1 else if c as int < 0x800 then 2 else if c as int < 0x1_0000 then 3 else 4
  }

  function ByteLen(text: string): nat {
    if text == "" then 0 else ByteLen(text[..|text| - 1]) + Utf8Len(text[|text| - 1])
  }

  /** The character of a set of one, if it is one: a surrogate is not, and no text has one. */
  function OneChar(chars: CharSet): Option<string> {
    if |chars| == 1 && chars[0].lo == chars[0].hi then
      var c := chars[0].lo;
      Some(if c < 0xD800 || 0xE000 <= c then [c as char] else "")
    else None
  }

  function Repeated(text: string, k: nat): string {
    if k == 0 then "" else text + Repeated(text, k - 1)
  }

  /** What two texts have in common from their start. */
  function Common(a: string, b: string): string {
    if a != "" && b != "" && a[0] == b[0] then [a[0]] + Common(a[1..], b[1..]) else ""
  }

  // ----- the rules -----

  /** A literal, and whether it is all there is. */
  datatype Opening = Opening(text: string, whole: bool)

  function Literal(n: Node): Opening
    decreases n, 0
  {
    match n
    case Backref(_) => Opening("", false)
    case Class(chars) => if OneChar(chars).Some? then Opening(OneChar(chars).value, true) else Opening("", false)
    case Group(_, inner) => Literal(inner)
    case Concat(parts) => LiteralThrough(parts)
    case Alt(branches) => if branches == [] then Opening("", true) else LiteralOfAll(branches)
    case Repeat(body, min, max, _) =>
      var once := Literal(body);
      if min == 0 then Opening("", false)
      else if !once.whole || once.text == "" then Opening(once.text, false)
      else Opening(Repeated(once.text, min), max == Some(min))
    case _ => Opening("", true)
  }

  /** A literal goes on past a part that is one. */
  function LiteralThrough(parts: seq<Node>): Opening
    decreases parts, 0
  {
    if parts == [] then Opening("", true)
    else
      var first := Literal(parts[0]);
      if !first.whole then first
      else
        var rest := LiteralThrough(parts[1..]);
        Opening(first.text + rest.text, rest.whole)
  }

  function LiteralOfAll(branches: seq<Node>): Opening
    requires branches != []
    decreases branches, 0
  {
    var n := |branches| - 1;
    if n == 0 then Literal(branches[0]) else Shared(LiteralOfAll(branches[..n]), Literal(branches[n]))
  }

  /** Of two branches: the common start, which is all there is if both are that. */
  function Shared(a: Opening, b: Opening): Opening {
    Opening(Common(a.text, b.text), a.whole && b.whole && a.text == b.text)
  }

  // ----- the limit -----

  /** The longest beginning within the limit. */
  function Limited(text: string): (r: string)
    ensures r <= text && ByteLen(r) <= MAX_PREFIX_BYTES
    decreases |text|
  {
    if ByteLen(text) <= MAX_PREFIX_BYTES then text else Limited(text[..|text| - 1])
  }

  /** A literal within the limit: a longer one is cut, and is not all there is. */
  function Cropped(f: Opening): Opening {
    Opening(Limited(f.text), f.whole && ByteLen(f.text) <= MAX_PREFIX_BYTES)
  }

  lemma {:induction false} ByteLenAppend(a: string, b: string)
    ensures ByteLen(a + b) == ByteLen(a) + ByteLen(b)
    decreases |b|
  {
    if b == "" {
      assert a + b == a;
    } else {
      assert (a + b)[..|a + b| - 1] == a + b[..|b| - 1];
      ByteLenAppend(a, b[..|b| - 1]);
    }
  }

  lemma FewerBytes(a: string, b: string)
    requires a <= b
    ensures ByteLen(a) <= ByteLen(b)
  {
    ByteLenAppend(a, b[|a|..]);
    assert a + b[|a|..] == b;
  }

  /** A beginning is cut to the limit's if and only if it is one within the limit. */
  lemma {:induction false} LimitedIs(x: string, text: string)
    ensures x <= Limited(text) <==> x <= text && ByteLen(x) <= MAX_PREFIX_BYTES
    decreases |text|
  {
    if ByteLen(text) <= MAX_PREFIX_BYTES {
      if x <= text {
        FewerBytes(x, text);
      }
    } else {
      LimitedIs(x, text[..|text| - 1]);
      if x <= text && |x| == |text| {
        assert x == text;
      }
    }
  }

  lemma {:induction false} CommonIs(x: string, a: string, b: string)
    ensures x <= Common(a, b) <==> x <= a && x <= b
    decreases |x|
  {
    if x != "" && a != "" && b != "" {
      CommonIs(x[1..], a[1..], b[1..]);
    }
  }

  /** Texts with the same beginnings within the limit are cut alike. */
  lemma LimitedAlike(a: string, b: string)
    requires forall x :: ByteLen(x) <= MAX_PREFIX_BYTES ==> (x <= a <==> x <= b)
    ensures Limited(a) == Limited(b)
  {
    hide Limited, ByteLen;
    LimitedIs(Limited(a), b);
    LimitedIs(Limited(b), a);
    assert Limited(a) <= Limited(b) <= Limited(a);
  }

  lemma LimitedStays(text: string)
    requires ByteLen(text) <= MAX_PREFIX_BYTES
    ensures Limited(text) == text
  {
  }

  /** What follows a text past the limit does not matter. */
  lemma LimitedPast(a: string, b: string)
    requires ByteLen(a) > MAX_PREFIX_BYTES
    ensures Limited(a + b) == Limited(a) && ByteLen(a + b) > MAX_PREFIX_BYTES
  {
    hide Limited, ByteLen;
    ByteLenAppend(a, b);
    forall x | ByteLen(x) <= MAX_PREFIX_BYTES ensures x <= a + b <==> x <= a {
      if x <= a + b && |x| > |a| {
        assert a <= x;
        FewerBytes(a, x);
      }
    }
    LimitedAlike(a + b, a);
  }

  /** A text cut before it is appended is cut alike after. */
  lemma LimitedLater(a: string, b: string)
    ensures Limited(a + Limited(b)) == Limited(a + b)
  {
    hide Limited, ByteLen;
    forall x | ByteLen(x) <= MAX_PREFIX_BYTES ensures x <= a + Limited(b) <==> x <= a + b {
      if |x| > |a| && a <= x {
        var y := x[|a|..];
        assert x == a + y;
        ByteLenAppend(a, y);
        LimitedIs(y, b);
        assert (x <= a + b <==> y <= b) && (x <= a + Limited(b) <==> y <= Limited(b));
      }
    }
    LimitedAlike(a + Limited(b), a + b);
  }

  /** The common start of two texts that were cut. */
  lemma LimitedCommon(a: string, b: string)
    ensures Common(Limited(a), Limited(b)) == Limited(Common(a, b))
  {
    hide Limited, ByteLen, Common;
    var x, y := Common(Limited(a), Limited(b)), Limited(Common(a, b));
    CommonIs(x, Limited(a), Limited(b));
    LimitedIs(x, a);
    LimitedIs(x, b);
    CommonIs(x, a, b);
    LimitedIs(x, Common(a, b));
    LimitedIs(y, Common(a, b));
    CommonIs(y, a, b);
    LimitedIs(y, a);
    LimitedIs(y, b);
    CommonIs(y, Limited(a), Limited(b));
    assert x <= y <= x;
  }

  lemma {:induction false} CommonAt(a: string, b: string, same: nat)
    requires same <= |a| && same <= |b| && a[..same] == b[..same] && (same < |a| && same < |b| ==> a[same] != b[same])
    ensures Common(a, b) == a[..same]
    decreases same
  {
    if same > 0 {
      assert a[0] == a[..same][0] == b[..same][0] == b[0];
      assert a[1..][..same - 1] == a[..same][1..] == b[..same][1..] == b[1..][..same - 1];
      CommonAt(a[1..], b[1..], same - 1);
    }
  }

  /** Two branches within the limit. */
  lemma SharedCropped(a: Opening, b: Opening)
    ensures Shared(Cropped(a), Cropped(b)) == Cropped(Shared(a, b))
  {
    hide Limited, ByteLen, Common;
    LimitedCommon(a.text, b.text);
    LimitedIs(a.text, a.text);
    LimitedIs(b.text, b.text);
    CommonIs(a.text, a.text, a.text);
    CommonIs(Common(a.text, a.text), a.text, a.text);
    assert a.text == b.text ==> Common(a.text, b.text) == a.text;
    if ByteLen(a.text) <= MAX_PREFIX_BYTES && ByteLen(b.text) <= MAX_PREFIX_BYTES {
      LimitedStays(a.text);
      LimitedStays(b.text);
    }
  }

  // ----- a concatenation's parts so far -----

  /** The literal of a text and what comes after it. */
  function After(out: string, rest: Opening): Opening {
    Opening(out + rest.text, rest.whole)
  }

  lemma AfterNothing(f: Opening)
    ensures After("", f) == f
  {
  }

  /** A part that ends the literal, or takes it past the limit. */
  lemma PartEnds(out: string, parts: seq<Node>)
    requires parts != []
    requires var p := Cropped(Literal(parts[0])); !p.whole || ByteLen(out + p.text) > MAX_PREFIX_BYTES
    ensures Cropped(After(out, LiteralThrough(parts))) == Opening(Limited(out + Cropped(Literal(parts[0])).text), false)
  {
    hide Limited, ByteLen, Literal;
    var first := Literal(parts[0]);
    LimitedLater(out, first.text);
    if first.whole {
      var rest := LiteralThrough(parts[1..]);
      if ByteLen(first.text) <= MAX_PREFIX_BYTES {
        LimitedStays(first.text);
      } else {
        ByteLenAppend(out, first.text);
      }
      LimitedPast(out + first.text, rest.text);
      assert out + first.text + rest.text == out + (first.text + rest.text);
    }
  }

  lemma PartGoesOn(out: string, parts: seq<Node>)
    requires parts != [] && Cropped(Literal(parts[0])).whole
    ensures After(out, LiteralThrough(parts)) == After(out + Cropped(Literal(parts[0])).text, LiteralThrough(parts[1..]))
  {
    hide Limited, ByteLen, Literal;
    var first := Literal(parts[0]);
    LimitedStays(first.text);
    var rest := LiteralThrough(parts[1..]);
    assert out + first.text + rest.text == out + (first.text + rest.text);
  }

  // ----- a literal repeated -----

  lemma {:induction false} RepeatedBytes(text: string, k: nat)
    ensures ByteLen(Repeated(text, k)) == k * ByteLen(text)
    decreases k
  {
    if k > 0 {
      ByteLenAppend(text, Repeated(text, k - 1));
      RepeatedBytes(text, k - 1);
    }
  }

  lemma {:induction false} RepeatedMore(text: string, j: nat, k: nat)
    requires j <= k
    ensures Repeated(text, k) == Repeated(text, j) + Repeated(text, k - j)
    decreases j
  {
    if j > 0 {
      RepeatedMore(text, j - 1, k - 1);
    }
  }

  /** As many copies as reach the limit are enough. */
  lemma CopiesEnough(text: string, copies: nat, min: nat, exact: bool)
    requires 0 < ByteLen(text) <= MAX_PREFIX_BYTES
    requires copies == if min < MAX_PREFIX_BYTES / ByteLen(text) + 1 then min else MAX_PREFIX_BYTES / ByteLen(text) + 1
    ensures Cropped(Opening(Repeated(text, min), exact))
            == Opening(Limited(Repeated(text, copies)), exact && copies == min && ByteLen(Repeated(text, copies)) <= MAX_PREFIX_BYTES)
  {
    hide Limited, ByteLen, Repeated;
    if copies < min {
      RepeatedMore(text, copies, min);
      RepeatedBytes(text, copies);
      PastTheLimit(ByteLen(text), copies);
      LimitedPast(Repeated(text, copies), Repeated(text, min - copies));
    }
  }

  lemma PastTheLimit(n: nat, copies: nat)
    requires 0 < n <= MAX_PREFIX_BYTES && copies == MAX_PREFIX_BYTES / n + 1
    ensures copies * n > MAX_PREFIX_BYTES
  {
  }

  /** A literal past the limit is cut alike whether or not it is repeated. */
  lemma RepeatedPast(text: string, min: nat, exact: bool)
    requires min > 0 && ByteLen(text) > MAX_PREFIX_BYTES
    ensures Cropped(Opening(Repeated(text, min), exact)) == Opening(Limited(text), false)
  {
    hide Limited, ByteLen;
    LimitedPast(text, Repeated(text, min - 1));
  }

  lemma LimitedNotEmpty(text: string)
    ensures Limited(text) == "" ==> text == ""
  {
    if text != "" {
      assert ByteLen(text[..1]) <= 4 by {
        assert text[..1][..0] == "";
      }
      LimitedIs(text[..1], text);
    }
  }
}
