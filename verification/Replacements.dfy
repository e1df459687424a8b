/** Replacement strings: one pass over them agrees with the rule of F&O 3.1 section 5.6.4, a character at a time. */
module Replacements {
  import opened Options
  import opened Denotation
  import opened Captures

  /** Literal text, as a stretch of the replacement string, or a group's capture. */
  datatype Part = Literal(start: nat, end: nat) | Reference(nr: nat)

  // ----- the rule -----

  datatype Piece = Letter(c: char) | Ref(nr: nat)

  predicate IsDigit(c: char) {
    '0' <= c <= '9'
  }

  predicate AllDigits(ds: string) {
    forall i :: 0 <= i < |ds| ==> IsDigit(ds[i])
  }

  function Value(ds: string): nat
    requires AllDigits(ds)
  {
    if ds == "" then 0 else 10 * Value(ds[..|ds| - 1]) + (ds[|ds| - 1] as int - '0' as int)
  }

  /** The digits left once the last has been taken as literal while the number exceeds both the groups and 9. */
  function Kept(ds: string, groups: nat): (k: nat)
    requires AllDigits(ds)
    ensures k <= |ds| && (ds != "" ==> k > 0)
  {
    if Value(ds) > groups && Value(ds) > 9 then Kept(ds[..|ds| - 1], groups) else |ds|
  }

  /** How many digits follow. */
  function DigitsAt(text: string, i: nat): (d: nat)
    requires i <= |text|
    ensures i + d <= |text| && AllDigits(text[i..i + d])
    ensures i + d < |text| ==> !IsDigit(text[i + d])
    decreases |text| - i
  {
    if i < |text| && IsDigit(text[i]) then
      var d := DigitsAt(text, i + 1);
      assert text[i..i + 1 + d] == [text[i]] + text[i + 1..i + 1 + d];
      1 + d
    else 0
  }

  function Prepend(ps: seq<Piece>, rest: Option<seq<Piece>>): Option<seq<Piece>> {
    if rest.Some? then Some(ps + rest.value) else None
  }

  /** What the replacement string stands for from `i` on; none if it is not one. */
  function Pieces(text: string, i: nat, groups: nat): Option<seq<Piece>>
    requires i <= |text|
    decreases |text| - i
  {
    if i == |text| then Some([])
    else if text[i] == '\\' then
      if i + 1 < |text| && (text[i + 1] == '\\' || text[i + 1] == '$') then
        Prepend([Letter(text[i + 1])], Pieces(text, i + 2, groups))
      else None
    else if text[i] == '$' then
      var d := DigitsAt(text, i + 1);
      if d == 0 then None else
        var k := Kept(text[i + 1..i + 1 + d], groups);
        var n := NumberAt(text, i + 1, k);
        Prepend(if n <= groups then [Ref(n)] else [], Pieces(text, i + 1 + k, groups))
    else Prepend([Letter(text[i])], Pieces(text, i + 1, groups))
  }

  /** The number the first `k` of the digits name. */
  function NumberAt(text: string, i: nat, k: nat): nat
    requires i <= |text| && k <= DigitsAt(text, i)
  {
    assert text[i..i + k] == text[i..i + DigitsAt(text, i)][..k];
    Value(text[i..i + k])
  }

  // ----- the parts -----

  function Letters(s: string): (ps: seq<Piece>)
    ensures |ps| == |s| && forall i :: 0 <= i < |s| ==> ps[i] == Letter(s[i])
  {
    seq(|s|, i requires 0 <= i < |s| => Letter(s[i]))
  }

  predicate Fits(parts: seq<Part>, text: string) {
    forall i :: 0 <= i < |parts| && parts[i].Literal? ==> parts[i].start <= parts[i].end <= |text|
  }

  /** What parts of a replacement string stand for. */
  function Flatten(parts: seq<Part>, text: string): seq<Piece>
    requires Fits(parts, text)
  {
    if parts == [] then [] else
      var n := |parts| - 1;
      Flatten(parts[..n], text) + match parts[n] {
        case Literal(a, b) => Letters(text[a..b])
        case Reference(nr) => [Ref(nr)]
      }
  }

  lemma FlattenLiteral(parts: seq<Part>, text: string, a: nat, b: nat)
    requires Fits(parts, text) && a <= b <= |text|
    ensures Fits(parts + [Literal(a, b)], text)
    ensures Flatten(parts + [Literal(a, b)], text) == Flatten(parts, text) + Letters(text[a..b])
  {
    assert (parts + [Literal(a, b)])[..|parts|] == parts;
  }

  lemma FlattenReference(parts: seq<Part>, text: string, nr: nat)
    requires Fits(parts, text)
    ensures Fits(parts + [Reference(nr)], text)
    ensures Flatten(parts + [Reference(nr)], text) == Flatten(parts, text) + [Ref(nr)]
  {
    assert (parts + [Reference(nr)])[..|parts|] == parts;
  }

  lemma PrependTwice(a: seq<Piece>, b: seq<Piece>, rest: Option<seq<Piece>>)
    ensures Prepend(a, Prepend(b, rest)) == Prepend(a + b, rest)
  {
    if rest.Some? {
      assert a + (b + rest.value) == (a + b) + rest.value;
    }
  }

  /** Digits by themselves are literal. */
  lemma {:induction false} DigitsAreLetters(text: string, i: nat, d: nat, groups: nat)
    requires i + d <= |text| && AllDigits(text[i..i + d])
    ensures Pieces(text, i, groups) == Prepend(Letters(text[i..i + d]), Pieces(text, i + d, groups))
    decreases d
  {
    if d == 0 {
      PrependNothing(Pieces(text, i, groups));
    } else {
      assert text[i] == text[i..i + d][0];
      assert text[i..i + d][1..] == text[i + 1..i + d];
      DigitsAreLetters(text, i + 1, d - 1, groups);
      assert Letters(text[i..i + d]) == [Letter(text[i])] + Letters(text[i + 1..i + d]);
      PrependTwice([Letter(text[i])], Letters(text[i + 1..i + d]), Pieces(text, i + d, groups));
    }
  }

  lemma PrependNothing(rest: Option<seq<Piece>>)
    ensures Prepend([], rest) == rest
  {
    if rest.Some? {
      assert [] + rest.value == rest.value;
    }
  }

  /** A number only grows with another digit: past `most`, the digits kept stay those kept before. */
  lemma ValueNext(ds: string, c: char, groups: nat)
    requires AllDigits(ds) && IsDigit(c)
    ensures AllDigits(ds + [c]) && Value(ds + [c]) == 10 * Value(ds) + (c as int - '0' as int) >= Value(ds)
    ensures Kept(ds + [c], groups)
            == if Value(ds + [c]) > groups && Value(ds + [c]) > 9 then Kept(ds, groups) else |ds| + 1
  {
    assert (ds + [c])[..|ds|] == ds;
  }

  /** The numbers of the first digits, of one, of two and so on, none over ten times the limit and nine. */
  ghost predicate IsComputed(text: string, digits: nat, end: nat, values: seq<nat>, groups: nat) {
    && digits <= end <= |text| && |values| <= end - digits
    && forall i :: 0 <= i < |values| ==> Names(text[digits..digits + i + 1], values[i], groups)
  }

  predicate Names(ds: string, value: nat, groups: nat) {
    AllDigits(ds) && value == Value(ds) <= (if groups > 9 then 10 * groups + 9 else 99)
  }

  /**
   * Reads the digits after a `$`: those kept, the number they name and where the digits end. A value is not
   * computed past the first one too large: `values` are those computed, in order.
   */
  method ReadNumber(text: string, digits: nat, groups: nat) returns (n: nat, kept: nat, end: nat, ghost values: seq<nat>)
    requires digits <= |text|
    ensures IsComputed(text, digits, end, values, groups)
    ensures end == digits + DigitsAt(text, digits)
    ensures digits < end ==>
              var k := Kept(text[digits..end], groups);
              kept == digits + k && n == NumberAt(text, digits, k)
  {
    hide Kept, Value, IsComputed;
    var most := if groups > 9 then groups else 9;
    NothingKept(groups);
    ComputesNothing(text, digits, groups);
    end, n, kept, values := digits, 0, digits, [];
    var value := 0;
    assert text[digits..end] == "";
    while end < |text| && IsDigit(text[end])
      invariant digits <= end <= |text| && AllDigits(text[digits..end])
      invariant digits <= kept <= end && AllDigits(text[digits..kept]) && n == Value(text[digits..kept])
      invariant kept == digits + Kept(text[digits..end], groups)
      invariant if value <= most then value == Value(text[digits..end]) && kept == end else Value(text[digits..end]) > most
      invariant IsComputed(text, digits, end, values, groups) && (value <= most ==> |values| == end - digits)
    {
      assert text[digits..end + 1] == text[digits..end] + [text[end]];
      ValueNext(text[digits..end], text[end], groups);
      ComputesNext(text, digits, end, values, groups);
      if value <= most {
        value := 10 * value + (text[end] as int - '0' as int);
        values := values + [value];
        if value <= most {
          n, kept := value, end + 1;
        }
      }
      end := end + 1;
    }
    AllTheDigits(text, digits, end);
  }

  lemma ComputesNothing(text: string, digits: nat, groups: nat)
    requires digits <= |text|
    ensures IsComputed(text, digits, digits, [], groups)
  {
  }

  /** One more digit, and the number with it if the one before was not too large. */
  lemma ComputesNext(text: string, digits: nat, end: nat, values: seq<nat>, groups: nat)
    requires end < |text| && IsComputed(text, digits, end, values, groups) && AllDigits(text[digits..end + 1])
    ensures IsComputed(text, digits, end + 1, values, groups)
    ensures var v := Value(text[digits..end + 1]);
            |values| == end - digits && Names(text[digits..end + 1], v, groups)
            ==> IsComputed(text, digits, end + 1, values + [v], groups)
  {
    hide Value, AllDigits, Names;
  }

  lemma NothingKept(groups: nat)
    ensures Kept("", groups) == 0 && Value("") == 0
  {
  }

  lemma {:induction false} AllTheDigits(text: string, i: nat, end: nat)
    requires i <= end <= |text| && AllDigits(text[i..end]) && (end < |text| ==> !IsDigit(text[end]))
    ensures DigitsAt(text, i) == end - i
    decreases end - i
  {
    if i < end {
      assert text[i] == text[i..end][0] && text[i..end][1..] == text[i + 1..end];
      AllTheDigits(text, i + 1, end);
    }
  }

  /**
   * The replacement string's parts, or none if a backslash is not before a backslash or a dollar sign, or a dollar
   * sign not before a digit. Quoted, it is literal.
   */
  method Parse(text: string, groups: nat, quoted: bool) returns (r: Option<seq<Part>>)
    ensures r.Some? ==> Fits(r.value, text)
    ensures r.Some? ==> forall i :: 0 <= i < |r.value| && r.value[i].Reference? ==> r.value[i].nr <= groups
    ensures quoted ==> r.Some? && Flatten(r.value, text) == Letters(text)
    ensures !quoted ==> (r.Some? <==> Pieces(text, 0, groups).Some?)
    ensures !quoted && r.Some? ==> Flatten(r.value, text) == Pieces(text, 0, groups).value
  {
    hide Pieces, Flatten, Letters, Kept, Value, DigitsAt, Prepend, IsComputed;
    var out: seq<Part> := [];
    FlattenNothing(text);
    if quoted {
      if text != "" {
        FlattenLiteral([], text, 0, |text|);
        out := [Literal(0, |text|)];
        assert [] + out == out && text[0..|text|] == text;
      }
      LettersJoin([], text, 0, |text|);
      return Some(out);
    }
    ghost var goal := Pieces(text, 0, groups);
    var lit: nat, i: nat := 0, 0;
    LettersJoin([], text, 0, 0);
    PrependNothing(goal);
    while i < |text|
      invariant lit <= i <= |text| && Fits(out, text)
      invariant forall j :: 0 <= j < |out| && out[j].Reference? ==> out[j].nr <= groups
      invariant goal == Prepend(Flatten(out, text) + Letters(text[lit..i]), Pieces(text, i, groups))
      decreases |text| - i
    {
      ghost var before := Flatten(out, text) + Letters(text[lit..i]);
      LettersJoin(Flatten(out, text), text, lit, i);
      if text[i] == '\\' {
        if !(i + 1 < |text| && (text[i + 1] == '\\' || text[i + 1] == '$')) {
          NotAPiece(text, i, groups, before);
          return None;
        }
        if i > lit {
          FlattenLiteral(out, text, lit, i);
          out := out + [Literal(lit, i)];
        }
        StepEscape(text, i, groups, out, before);
        lit := i + 1;
        i := i + 2;
      } else if text[i] == '$' {
        var n, kept, end, _ := ReadNumber(text, i + 1, groups);
        if end == i + 1 {
          NotAPiece(text, i, groups, before);
          return None;
        }
        if i > lit {
          FlattenLiteral(out, text, lit, i);
          out := out + [Literal(lit, i)];
        }
        StepReference(text, i, groups, out, before, n, kept, end);
        if n <= groups {
          FlattenReference(out, text, n);
          out := out + [Reference(n)];
        } else {
          assert Flatten(out, text) + [] == Flatten(out, text);
        }
        lit := kept;
        i := end;
      } else {
        StepLetter(text, i, groups, Flatten(out, text), lit);
        i := i + 1;
      }
    }
    NoMorePieces(text, groups, Flatten(out, text) + Letters(text[lit..i]));
    if |text| > lit {
      FlattenLiteral(out, text, lit, |text|);
      out := out + [Literal(lit, |text|)];
    } else {
      LettersJoin(Flatten(out, text), text, lit, lit);
    }
    r := Some(out);
  }

  lemma FlattenNothing(text: string)
    ensures Fits([], text) && Flatten([], text) == []
  {
  }

  lemma LettersJoin(ps: seq<Piece>, text: string, a: nat, b: nat)
    requires a <= b <= |text|
    ensures a == b ==> ps + Letters(text[a..b]) == ps
    ensures text == "" ==> Letters(text) == []
  {
  }

  lemma NotAPiece(text: string, i: nat, groups: nat, before: seq<Piece>)
    requires i < |text|
    requires (text[i] == '\\' && !(i + 1 < |text| && (text[i + 1] == '\\' || text[i + 1] == '$')))
             || (text[i] == '$' && DigitsAt(text, i + 1) == 0)
    ensures Prepend(before, Pieces(text, i, groups)) == None
  {
  }

  lemma NoMorePieces(text: string, groups: nat, before: seq<Piece>)
    ensures Prepend(before, Pieces(text, |text|, groups)) == Some(before)
  {
    assert before + [] == before;
  }

  lemma StepLetter(text: string, i: nat, groups: nat, before: seq<Piece>, lit: nat)
    requires lit <= i < |text| && text[i] != '\\' && text[i] != '$'
    ensures Prepend(before + Letters(text[lit..i]), Pieces(text, i, groups))
            == Prepend(before + Letters(text[lit..i + 1]), Pieces(text, i + 1, groups))
  {
    assert text[lit..i + 1] == text[lit..i] + [text[i]];
    assert before + Letters(text[lit..i + 1]) == (before + Letters(text[lit..i])) + [Letter(text[i])];
    PrependTwice(before + Letters(text[lit..i]), [Letter(text[i])], Pieces(text, i + 1, groups));
  }

  lemma StepEscape(text: string, i: nat, groups: nat, out: seq<Part>, before: seq<Piece>)
    requires i + 1 < |text| && text[i] == '\\' && (text[i + 1] == '\\' || text[i + 1] == '$')
    requires Fits(out, text) && Flatten(out, text) == before
    ensures Prepend(before, Pieces(text, i, groups))
            == Prepend(Flatten(out, text) + Letters(text[i + 1..i + 2]), Pieces(text, i + 2, groups))
  {
    assert Letters(text[i + 1..i + 2]) == [Letter(text[i + 1])];
    PrependTwice(before, [Letter(text[i + 1])], Pieces(text, i + 2, groups));
  }

  lemma StepReference(text: string, i: nat, groups: nat, out: seq<Part>, before: seq<Piece>, n: nat, kept: nat, end: nat)
    requires i < |text| && text[i] == '$' && end == i + 1 + DigitsAt(text, i + 1) && i + 1 < end
    requires kept == i + 1 + Kept(text[i + 1..end], groups) && n == NumberAt(text, i + 1, kept - i - 1)
    requires Fits(out, text) && Flatten(out, text) == before
    ensures var ref := if n <= groups then [Ref(n)] else [];
            Prepend(before, Pieces(text, i, groups))
            == Prepend((Flatten(out, text) + ref) + Letters(text[kept..end]), Pieces(text, end, groups))
  {
    hide Pieces, Kept, NumberAt, Prepend, Letters;
    var ref := if n <= groups then [Ref(n)] else [];
    PiecesAtReference(text, i, groups);
    assert text[kept..end] == text[i + 1..end][kept - i - 1..];
    DigitsAreLetters(text, kept, end - kept, groups);
    PrependTwice(ref, Letters(text[kept..end]), Pieces(text, end, groups));
    PrependTwice(before, ref + Letters(text[kept..end]), Pieces(text, end, groups));
    assert before + (ref + Letters(text[kept..end])) == (before + ref) + Letters(text[kept..end]);
  }

  lemma PiecesAtReference(text: string, i: nat, groups: nat)
    requires i < |text| && text[i] == '$' && DigitsAt(text, i + 1) > 0
    ensures var k := Kept(text[i + 1..i + 1 + DigitsAt(text, i + 1)], groups);
            var n := NumberAt(text, i + 1, k);
            Pieces(text, i, groups) == Prepend(if n <= groups then [Ref(n)] else [], Pieces(text, i + 1 + k, groups))
  {
    hide Kept, NumberAt, Prepend;
  }

  // ----- expanding -----

  function CaptureText(hay: string, slots: Slots, nr: nat): string {
    var c := Capture(slots, nr);
    if c.Some? && c.value.0 <= c.value.1 <= |hay| then hay[c.value.0..c.value.1] else ""
  }

  /** What the pieces stand for in a match: a group that took no part is the empty string. */
  function Expansion(ps: seq<Piece>, hay: string, slots: Slots): string {
    if ps == [] then "" else
      var n := |ps| - 1;
      Expansion(ps[..n], hay, slots) + match ps[n] {
        case Letter(c) => [c]
        case Ref(nr) => CaptureText(hay, slots, nr)
      }
  }

  lemma {:induction false} ExpansionAppend(a: seq<Piece>, b: seq<Piece>, hay: string, slots: Slots)
    ensures Expansion(a + b, hay, slots) == Expansion(a, hay, slots) + Expansion(b, hay, slots)
    decreases |b|
  {
    hide CaptureText;
    if b == [] {
      assert a + b == a;
    } else {
      var n := |b| - 1;
      assert (a + b)[..|a + b| - 1] == a + b[..n];
      ExpansionAppend(a, b[..n], hay, slots);
    }
  }

  lemma {:induction false} ExpansionLetters(s: string, hay: string, slots: Slots)
    ensures Expansion(Letters(s), hay, slots) == s
    decreases |s|
  {
    if s != "" {
      var n := |s| - 1;
      assert Letters(s)[..n] == Letters(s[..n]);
      ExpansionLetters(s[..n], hay, slots);
      assert s[..n] + [s[n]] == s;
    }
  }

  lemma ExpansionRef(nr: nat, hay: string, slots: Slots)
    ensures Expansion([Ref(nr)], hay, slots) == CaptureText(hay, slots, nr)
  {
    assert [Ref(nr)][..0] == [];
  }

  /** A reference stands for the text its group captured, and for the empty string if it captured none. */
  predicate RefExpands(hay: string, slots: Slots, nr: nat) {
    match Capture(slots, nr)
    case Some(c) => c.0 <= c.1 <= |hay| && Expansion([Ref(nr)], hay, slots) == hay[c.0..c.1]
    case None => Expansion([Ref(nr)], hay, slots) == ""
  }

  /** What is reported of the groups referred to is enough. */
  lemma {:induction false} SameExpansion(parts: seq<Part>, text: string, hay: string, a: Slots, b: Slots)
    requires Fits(parts, text)
    requires forall i :: 0 <= i < |parts| && parts[i].Reference? ==> Capture(a, parts[i].nr) == Capture(b, parts[i].nr)
    ensures Expansion(Flatten(parts, text), hay, a) == Expansion(Flatten(parts, text), hay, b)
    decreases |parts|
  {
    hide Capture;
    if parts != [] {
      var n := |parts| - 1;
      var rest := Flatten(parts[..n], text);
      SameExpansion(parts[..n], text, hay, a, b);
      match parts[n]
      case Literal(from, to) =>
        ExpansionAppend(rest, Letters(text[from..to]), hay, a);
        ExpansionAppend(rest, Letters(text[from..to]), hay, b);
        ExpansionLetters(text[from..to], hay, a);
        ExpansionLetters(text[from..to], hay, b);
      case Reference(nr) =>
        ExpansionAppend(rest, [Ref(nr)], hay, a);
        ExpansionAppend(rest, [Ref(nr)], hay, b);
        ExpansionRef(nr, hay, a);
        ExpansionRef(nr, hay, b);
    }
  }

  /** The parts' text in a match. */
  method Expand(parts: seq<Part>, text: string, hay: string, slots: Slots) returns (out: string)
    requires Fits(parts, text)
    ensures out == Expansion(Flatten(parts, text), hay, slots)
  {
    hide Expansion, Flatten, Letters, CaptureText;
    out := "";
    FlattenNothing(text);
    ExpansionLetters("", hay, slots);
    LettersJoin([], "", 0, 0);
    for i := 0 to |parts|
      invariant out == Expansion(Flatten(parts[..i], text), hay, slots)
    {
      assert parts[..i + 1] == parts[..i] + [parts[i]];
      match parts[i] {
        case Literal(a, b) =>
          FlattenLiteral(parts[..i], text, a, b);
          ExpansionAppend(Flatten(parts[..i], text), Letters(text[a..b]), hay, slots);
          ExpansionLetters(text[a..b], hay, slots);
          out := out + text[a..b];
        case Reference(nr) =>
          FlattenReference(parts[..i], text, nr);
          ExpansionAppend(Flatten(parts[..i], text), [Ref(nr)], hay, slots);
          ExpansionRef(nr, hay, slots);
          out := out + CaptureText(hay, slots, nr);
      }
    }
    assert parts[..|parts|] == parts;
  }
}
