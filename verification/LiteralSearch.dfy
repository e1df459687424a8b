/** A pattern of characters only is a search for a string. */
module LiteralSearch {
  import opened Options
  import opened CharSets
  import opened Syntax
  import opened Denotation
  import opened Searches
  import opened Finding

  /** The pattern of one character. */
  function OneOf(c: char): Node {
    Class([Range(c as int, c as int)])
  }

  function LiteralNode(text: string): Node {
    Concat(Characters(text))
  }

  function Characters(text: string): (parts: seq<Node>)
    ensures |parts| == |text| && forall i :: 0 <= i < |text| ==> parts[i] == OneOf(text[i])
  {
    seq(|text|, i requires 0 <= i < |text| => OneOf(text[i]))
  }

  /** The text stands at the position. */
  predicate StandsAt(hay: string, q: nat, text: string) {
    q + |text| <= |hay| && forall i :: 0 <= i < |text| ==> hay[q + i] == text[i]
  }

  /** A set matches exactly the characters it lists. */
  lemma ClassMatchesOne(chars: CharSet, e: Env, s: State)
    requires s.pos <= |e.hay|
    ensures Results(Class(chars), e, s)
            == if s.pos < |e.hay| && exists r :: r in chars && r.lo <= e.hay[s.pos] as int <= r.hi then [State(s.pos + 1, s.slots)] else []
  {
    if s.pos < |e.hay| {
      var c := e.hay[s.pos] as int;
      if Holds(chars, c) {
        var i :| 0 <= i < |chars| && chars[i].lo <= c <= chars[i].hi;
        assert chars[i] in chars;
      }
      if r :| r in chars && r.lo <= c <= r.hi {
        var i :| 0 <= i < |chars| && chars[i] == r;
      }
    }
  }

  lemma OneMatches(c: char, e: Env, s: State)
    requires s.pos <= |e.hay|
    ensures Results(OneOf(c), e, s) == if s.pos < |e.hay| && e.hay[s.pos] == c then [State(s.pos + 1, s.slots)] else []
  {
    var r := Range(c as int, c as int);
    ClassMatchesOne([r], e, s);
    assert r in [r];
  }

  lemma {:induction false} NoneThrough(parts: seq<Node>, e: Env)
    ensures ConcatResults(parts, e, []) == []
    decreases |parts|
  {
    if parts != [] {
      NoneThrough(parts[1..], e);
    }
  }

  /** The characters one after the other match where the text stands, and nowhere else. */
  lemma {:induction false} LiteralMatches(text: string, e: Env, s: State)
    requires s.pos <= |e.hay|
    ensures ConcatResults(Characters(text), e, [s])
            == if StandsAt(e.hay, s.pos, text) then [State(s.pos + |text|, s.slots)] else []
    decreases |text|
  {
    hide Results;
    if text != "" {
      OneMatches(text[0], e, s);
      ResultsOfOne(OneOf(text[0]), e, s);
      assert Characters(text)[1..] == Characters(text[1..]);
      if s.pos < |e.hay| && e.hay[s.pos] == text[0] {
        LiteralMatches(text[1..], e, State(s.pos + 1, s.slots));
        StandsLater(e.hay, s.pos, text);
      } else {
        NoneThrough(Characters(text[1..]), e);
      }
    }
  }

  lemma StandsLater(hay: string, q: nat, text: string)
    requires text != "" && q < |hay| && hay[q] == text[0]
    ensures StandsAt(hay, q, text) <==> StandsAt(hay, q + 1, text[1..])
  {
    if StandsAt(hay, q + 1, text[1..]) {
      forall i | 0 <= i < |text| ensures hay[q + i] == text[i] {
        if i > 0 {
          assert hay[q + 1 + (i - 1)] == text[1..][i - 1];
        }
      }
    }
    if StandsAt(hay, q, text) {
      forall i | 0 <= i < |text[1..]| ensures hay[q + 1 + i] == text[1..][i] {
        assert hay[q + (i + 1)] == text[i + 1];
      }
    }
  }

  /** Its matches from a position: one, of the text, if it stands there. */
  lemma LiteralFrom(text: string, e: Env, q: nat)
    requires q <= |e.hay|
    ensures AllMatches(LiteralNode(text), e, 2)[q]
            == if StandsAt(e.hay, q, text) then [State(q + |text|, [Some(q), Some(q + |text|)])] else []
  {
    hide StandsAt;
    var s := Saved(Start(q, 2).s, 0);
    assert s.slots == [Some(q), None];
    LiteralMatches(text, e, s);
    assert Results(LiteralNode(text), e, s) == ConcatResults(Characters(text), e, [s]);
    var rs := AllMatches(LiteralNode(text), e, 2)[q];
    if StandsAt(e.hay, q, text) {
      assert rs[0].slots == [Some(q), Some(q + |text|)];
    }
  }

  /** The first place from `start` on where the text stands, if there is one. */
  ghost predicate IsFirst(hay: string, start: nat, text: string, q: nat) {
    start <= q && StandsAt(hay, q, text) && forall p :: start <= p < q ==> !StandsAt(hay, p, text)
  }

  /** A search for the characters of a text finds its first occurrence, and nothing if there is none. */
  lemma {:induction false} SearchIsFirst(text: string, e: Env, start: nat)
    requires start <= |e.hay|
    ensures match Answer(LiteralNode(text), e, 2, start)
            case Some(t) => t.pos >= |text| && IsFirst(e.hay, start, text, t.pos - |text|) && t.slots == [Some(t.pos - |text|), Some(t.pos)]
            case None => forall q :: start <= q ==> !StandsAt(e.hay, q, text)
    decreases |e.hay| - start
  {
    hide Matches, StandsAt;
    LiteralFrom(text, e, start);
    NotPastTheEnd(e.hay, text);
    var ms := AllMatches(LiteralNode(text), e, 2);
    if !StandsAt(e.hay, start, text) {
      assert Leftmost(ms, start) == Leftmost(ms, start + 1);
      if start < |e.hay| {
        SearchIsFirst(text, e, start + 1);
      } else {
        assert Leftmost(ms, start + 1) == None;
      }
    }
  }

  lemma NotPastTheEnd(hay: string, text: string)
    ensures forall q :: q > |hay| ==> !StandsAt(hay, q, text)
  {
  }
}
