/** `^` and `$`: in multi-line mode they stand where the lines of the text begin and end. */
module Lines {
  import opened Syntax
  import opened Denotation

  /** The lines of a text: a newline at its end ends the last line and begins no other. */
  function LinesOf(text: string): (ls: seq<string>)
    ensures ls != []
    decreases |text|
  {
    var k := FirstBreak(text);
    if k == |text| then [text]
    else if k + 1 == |text| then [text[..k]]
    else [text[..k]] + LinesOf(text[k + 1..])
  }

  /** The first newline, or the end. */
  function FirstBreak(text: string): (k: nat)
    ensures k <= |text| && (k < |text| ==> text[k] == '\n') && forall i :: 0 <= i < k ==> text[i] != '\n'
  {
    if text == "" || text[0] == '\n' then 0 else 1 + FirstBreak(text[1..])
  }

  /** The lines put together, with a newline after each but the last. */
  function Joined(ls: seq<string>): string
    requires ls != []
  {
    if |ls| == 1 then ls[0] else ls[0] + "\n" + Joined(ls[1..])
  }

  lemma CutAtBreak(text: string)
    ensures var k := FirstBreak(text);
            && '\n' !in text[..k] && (k == |text| ==> text[..k] == text)
            && (k < |text| ==> text == text[..k] + "\n" + text[k + 1..])
  {
    hide FirstBreak;
    var k := FirstBreak(text);
    forall i | 0 <= i < k ensures text[..k][i] != '\n' {
      assert text[..k][i] == text[i];
    }
    if k < |text| {
      Halves(text, k);
    }
  }

  lemma Halves(text: string, k: nat)
    requires k < |text|
    ensures text == text[..k] + [text[k]] + text[k + 1..]
  {
  }

  /** The text, but for a newline at its end. */
  predicate AreLines(ls: seq<string>, text: string)
    requires ls != []
  {
    (text == Joined(ls) || text == Joined(ls) + "\n") && forall i :: 0 <= i < |ls| ==> '\n' !in ls[i]
  }

  lemma MoreLines(line: string, ls: seq<string>, text: string)
    requires ls != [] && AreLines(ls, text) && '\n' !in line
    ensures AreLines([line] + ls, line + "\n" + text)
  {
    assert ([line] + ls)[1..] == ls;
    assert line + "\n" + (Joined(ls) + "\n") == line + "\n" + Joined(ls) + "\n";
  }

  /** Nothing but a last newline is lost. */
  lemma {:induction false} LinesJoin(text: string)
    ensures AreLines(LinesOf(text), text)
    decreases |text|
  {
    hide FirstBreak, AreLines;
    var k := FirstBreak(text);
    CutAtBreak(text);
    if k + 1 < |text| {
      LinesJoin(text[k + 1..]);
      MoreLines(text[..k], LinesOf(text[k + 1..]), text[k + 1..]);
    } else {
      LastLine(text);
    }
  }

  lemma LastLine(text: string)
    requires FirstBreak(text) + 1 >= |text|
    ensures AreLines(LinesOf(text), text)
  {
    hide FirstBreak;
    CutAtBreak(text);
    var k := FirstBreak(text);
    if k < |text| {
      assert text[k + 1..] == "";
      assert text[..k] + "\n" + "" == text[..k] + "\n";
    }
  }

  /** Where the `i`-th line begins. */
  function Offset(ls: seq<string>, i: nat): nat
    requires i < |ls|
  {
    if i == 0 then 0 else |ls[0]| + 1 + Offset(ls[1..], i - 1)
  }

  predicate BeginsLine(text: string, pos: nat) {
    IsOf(LinesOf(text), pos, false)
  }

  predicate EndsLine(text: string, pos: nat) {
    IsOf(LinesOf(text), pos, true)
  }

  lemma OffsetLater(ls: seq<string>, line: string, i: nat)
    requires i < |ls|
    ensures Offset([line] + ls, i + 1) == |line| + 1 + Offset(ls, i) && ([line] + ls)[i + 1] == ls[i]
  {
    assert ([line] + ls)[1..] == ls;
  }

  /** `pos` is a line's first place, or the place after its last character. */
  predicate IsOf(ls: seq<string>, pos: nat, end: bool) {
    exists i :: 0 <= i < |ls| && pos == Offset(ls, i) + if end then |ls[i]| else 0
  }

  lemma IsOfMore(line: string, ls: seq<string>, pos: nat, end: bool)
    ensures IsOf([line] + ls, pos, end) <==>
            pos == (if end then |line| else 0) || (pos > |line| && IsOf(ls, pos - |line| - 1, end))
  {
    var all := [line] + ls;
    assert all[0] == line && Offset(all, 0) == 0;
    forall i | 0 <= i < |ls| ensures Offset(all, i + 1) == |line| + 1 + Offset(ls, i) && all[i + 1] == ls[i] {
      OffsetLater(ls, line, i);
    }
    if IsOf(all, pos, end) {
      var i :| 0 <= i < |all| && pos == Offset(all, i) + if end then |all[i]| else 0;
      if i > 0 {
        assert Offset(all, (i - 1) + 1) == |line| + 1 + Offset(ls, i - 1) && all[(i - 1) + 1] == ls[i - 1];
      }
    }
    if pos > |line| && IsOf(ls, pos - |line| - 1, end) {
      var i :| 0 <= i < |ls| && pos - |line| - 1 == Offset(ls, i) + if end then |ls[i]| else 0;
      assert pos == Offset(all, i + 1) + if end then |all[i + 1]| else 0;
    }
  }

  lemma FirstLine(text: string)
    requires FirstBreak(text) + 1 < |text|
    ensures LinesOf(text) == [text[..FirstBreak(text)]] + LinesOf(text[FirstBreak(text) + 1..])
  {
    hide FirstBreak;
  }

  /** Where lines begin and end in a text of more than one: the first does, and those of the rest do. */
  lemma LaterLines(text: string, pos: nat)
    requires FirstBreak(text) + 1 < |text|
    ensures var k := FirstBreak(text);
            && (BeginsLine(text, pos) <==> pos == 0 || (pos > k && BeginsLine(text[k + 1..], pos - k - 1)))
            && (EndsLine(text, pos) <==> pos == k || (pos > k && EndsLine(text[k + 1..], pos - k - 1)))
  {
    hide FirstBreak, IsOf, LinesOf;
    var k := FirstBreak(text);
    FirstLine(text);
    IsOfMore(text[..k], LinesOf(text[k + 1..]), pos, false);
    IsOfMore(text[..k], LinesOf(text[k + 1..]), pos, true);
  }

  lemma OneLine(text: string, pos: nat)
    requires FirstBreak(text) + 1 >= |text|
    ensures (BeginsLine(text, pos) <==> pos == 0) && (EndsLine(text, pos) <==> pos == FirstBreak(text))
  {
    hide FirstBreak;
    var ls := LinesOf(text);
    assert |ls| == 1 && Offset(ls, 0) == 0 && |ls[0]| == FirstBreak(text);
  }

  /** `^` matches exactly where a line begins, and `$` exactly where one ends. */
  lemma {:induction false} AnchorsAreLines(e: Env, pos: nat)
    requires e.multiline && pos <= |e.hay|
    ensures AtLineStart(e, pos) <==> BeginsLine(e.hay, pos)
    ensures AtLineEnd(e, pos) <==> EndsLine(e.hay, pos)
    decreases |e.hay|
  {
    hide BeginsLine, EndsLine;
    var text := e.hay;
    var k := FirstBreak(text);
    if k + 1 < |text| {
      LaterLines(text, pos);
      if pos > k {
        var rest := e.(hay := text[k + 1..]);
        AnchorsAreLines(rest, pos - k - 1);
        if pos > k + 1 {
          assert text[pos - 1] == rest.hay[pos - k - 2];
        }
        if pos < |text| {
          assert text[pos] == rest.hay[pos - k - 1];
        }
        assert text[|text| - 1] == rest.hay[|rest.hay| - 1];
      }
    } else {
      OneLine(text, pos);
    }
  }

  /** Otherwise they match at the ends of the text only. */
  lemma AnchorsAreEnds(e: Env, pos: nat)
    requires !e.multiline && pos <= |e.hay|
    ensures (AtLineStart(e, pos) <==> pos == 0) && (AtLineEnd(e, pos) <==> pos == |e.hay|)
  {
  }
}
