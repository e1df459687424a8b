/** A writer keeps to the output's encoding: what it writes unescaped past ASCII, the encoding had when it was written. */
module JsonEncodings {
  import opened Options
  import opened JsonBytes
  import opened JsonNumbers
  import opened JsonStrings
  import opened JsonTokenizer
  import opened JsonEscapes
  import opened JsonSpellings
  import opened JsonRoundTrip
  import W = JsonWriter

  type Call = W.Call

  // ----- bytes and characters -----

  predicate IsAscii(s: Bytes) {
    forall i :: 0 <= i < |s| ==> s[i] < 0x80
  }

  /** The bytes are UTF-8, and every character past ASCII in them is one of the text's, had by the encoding and no control. */
  ghost predicate Permitted(s: Bytes, t: Text, has: Scalar -> bool) {
    exists u: Text :: s == Utf8All(u) && AllPermitted(u, t, has)
  }

  predicate AllPermitted(u: Text, t: Text, has: Scalar -> bool) {
    forall i :: 0 <= i < |u| && u[i] >= 0x80 ==> u[i] in t && has(u[i]) && u[i] > 0x9F
  }

  lemma {:induction false} Utf8Join(a: Text, b: Text)
    ensures Utf8All(a + b) == Utf8All(a) + Utf8All(b)
    decreases |a|
  {
    hide Utf8;
    if a == [] {
      assert a + b == b;
    } else {
      assert (a + b)[1..] == a[1..] + b;
      Utf8Join(a[1..], b);
    }
  }

  lemma PermittedJoin(a: Bytes, b: Bytes, t: Text, has: Scalar -> bool)
    requires Permitted(a, t, has) && Permitted(b, t, has)
    ensures Permitted(a + b, t, has)
  {
    hide Utf8All;
    var u: Text :| a == Utf8All(u) && AllPermitted(u, t, has);
    var v: Text :| b == Utf8All(v) && AllPermitted(v, t, has);
    Utf8Join(u, v);
    assert AllPermitted(u + v, t, has);
  }

  lemma {:induction false} AsciiIsUtf8(s: Bytes) returns (u: Text)
    requires IsAscii(s)
    ensures s == Utf8All(u) && forall i :: 0 <= i < |u| ==> u[i] < 0x80
    decreases |s|
  {
    if s == [] {
      u := [];
    } else {
      var rest := AsciiIsUtf8(s[1..]);
      var c: Scalar := s[0] as bv32;
      u := [c] + rest;
      assert u[1..] == rest;
      SmallUtf8(s[0]);
    }
  }

  lemma SmallUtf8(b: bv8)
    requires b < 0x80
    ensures Utf8(b as bv32) == [b]
  {
  }

  lemma AsciiPermitted(s: Bytes, t: Text, has: Scalar -> bool)
    requires IsAscii(s)
    ensures Permitted(s, t, has)
  {
    hide Utf8All;
    var u := AsciiIsUtf8(s);
    assert AllPermitted(u, t, has);
  }

  lemma UpperDigitsAreAscii(s: Bytes)
    requires IsUnicodeEscape(s)
    ensures IsAscii(s)
  {
    forall i | 0 <= i < |s| ensures s[i] < 0x80 {
      if i >= 2 {
        var v :| 0 <= v < 16 && s[i] == UPPER_DIGITS[v];
      }
    }
  }

  lemma EscapeIsAscii(s: Bytes, c: Scalar)
    requires IsEscapeOf(s, c)
    ensures IsAscii(s)
  {
    hide Means, IsUnicodeEscape;
    if c !in SHORT_CHARS {
      if c < 0x10000 {
        UpperDigitsAreAscii(s);
      } else {
        UpperDigitsAreAscii(s[..6]);
        UpperDigitsAreAscii(s[6..]);
        assert s == s[..6] + s[6..];
      }
    }
  }

  lemma PiecePermitted(s: Bytes, c: Scalar, t: Text, has: Scalar -> bool)
    requires WrittenFor(s, c, has(c)) && c in t
    ensures Permitted(s, t, has)
  {
    hide IsEscapeOf, Utf8;
    if AlwaysEscaped(c) || !has(c) {
      EscapeIsAscii(s, c);
      AsciiPermitted(s, t, has);
    } else {
      assert [c][1..] == [] && Utf8(c) + [] == Utf8(c);
      assert s == Utf8All([c]) && AllPermitted([c], t, has);
    }
  }

  lemma {:induction false} TextPermitted(s: Bytes, t: Text, all: Text, has: Scalar -> bool)
    requires TextWrittenFor(s, t, has) && forall c :: c in t ==> c in all
    ensures Permitted(s, all, has)
    decreases |t|
  {
    hide WrittenFor, Permitted;
    if t == [] {
      AsciiPermitted(s, all, has);
    } else {
      var k :| 0 <= k <= |s| && WrittenFor(s[..k], t[0], has(t[0])) && TextWrittenFor(s[k..], t[1..], has);
      PiecePermitted(s[..k], t[0], all, has);
      TextPermitted(s[k..], t[1..], all, has);
      PermittedJoin(s[..k], s[k..], all, has);
      assert s == s[..k] + s[k..];
    }
  }

  /** What escaping writes. */
  lemma {:induction false} SpelledPermitted(t: Text, all: Text, e: W.Encoding)
    requires forall c :: c in t ==> c in all
    ensures Permitted(Spelled(W.Glyphs(t, e)), all, W.Has(e))
    decreases |t|
  {
    hide Permitted, Encoded, W.Encodes, WrittenFor;
    if t == [] {
      AsciiPermitted([], all, W.Has(e));
    } else {
      SpelledPermitted(t[1..], all, e);
      W.HasIt(e, t[0]);
      EncodedIsWrittenFor(t[0], W.Encodes(e, t[0]));
      PiecePermitted(Encoded(t[0], W.Encodes(e, t[0])), t[0], all, W.Has(e));
      W.SpelledFirst(Glyph(t[0], W.Encodes(e, t[0])), W.Glyphs(t[1..], e));
      PermittedJoin(Encoded(t[0], W.Encodes(e, t[0])), Spelled(W.Glyphs(t[1..], e)), all, W.Has(e));
    }
  }

  // ----- calls -----

  /** The characters a call is given. */
  function TextOfCall(call: Call): Text {
    match call
    case WriteString(t) => t
    case WriteKey(t) => t
    case StringText(t) => t
    case _ => []
  }

  lemma {:induction false} SpacesAreAscii(n: nat)
    ensures IsAscii(W.Spaces(n))
  {
    if n > 0 {
      SpacesAreAscii(n - 1);
    }
  }

  lemma GapsAreAscii(layout: W.Layout, stack: seq<W.Frame>, depth: nat)
    ensures IsAscii(W.Gap(layout, stack)) && IsAscii(W.LineBreak(layout, depth)) && IsAscii(W.AfterKey(layout))
    ensures forall b :: IsAscii(W.Comma(b))
  {
    SpacesAreAscii(|stack|);
    SpacesAreAscii(depth);
  }

  lemma NumberIsAscii(s: Bytes)
    requires IsNumber(s)
    ensures IsAscii(s)
  {
    hide IsInt, IsFrac, IsExp, IsSign;
    var m, i, f, x :| IsSign(m) && IsInt(i) && IsFrac(f) && IsExp(x) && s == m + i + f + x;
    PartsAreAscii(m, i, f, x);
  }

  lemma PartsAreAscii(m: Bytes, i: Bytes, f: Bytes, x: Bytes)
    requires IsSign(m) && IsInt(i) && IsFrac(f) && IsExp(x)
    ensures IsAscii(m) && IsAscii(i) && IsAscii(f) && IsAscii(x)
  {
  }

  /** What an accepted call appends. */
  ghost predicate Appends(w: Writing, next: Writing, t: Text) {
    |w.out| <= |next.out| && next.out[..|w.out|] == w.out && Permitted(next.out[|w.out|..], t, W.Has(w.encodable))
  }

  type Writing = W.Writing

  lemma AppendsBytes(w: Writing, next: Writing, more: Bytes, t: Text)
    requires next.out == w.out + more && Permitted(more, t, W.Has(w.encodable))
    ensures Appends(w, next, t)
  {
    hide Permitted;
    assert next.out[|w.out|..] == more && next.out[..|w.out|] == w.out;
  }

  lemma AppendsAscii(w: Writing, next: Writing, more: Bytes, t: Text)
    requires next.out == w.out + more && IsAscii(more)
    ensures Appends(w, next, t)
  {
    hide Permitted;
    AsciiPermitted(more, t, W.Has(w.encodable));
    AppendsBytes(w, next, more, t);
  }

  lemma AppendsTwice(w: Writing, mid: Writing, next: Writing, t: Text)
    requires Appends(w, mid, t) && Appends(mid, next, t) && mid.encodable == w.encodable
    ensures Appends(w, next, t)
  {
    hide Permitted;
    var a, b := mid.out[|w.out|..], next.out[|mid.out|..];
    PermittedJoin(a, b, t, W.Has(w.encodable));
    assert next.out == mid.out + b && mid.out == w.out + a;
    assert next.out[|w.out|..] == a + b;
    assert next.out[..|w.out|] == w.out;
  }

  lemma ScalarAppends(layout: W.Layout, w: Writing, text: Bytes, t: Text)
    requires IsAscii(text) && W.ScalarStep(layout, w, text).Written?
    ensures Appends(w, W.ScalarStep(layout, w, text).next, t) && W.ScalarStep(layout, w, text).next.encodable == w.encodable
  {
    hide Permitted, W.Gap;
    GapsAreAscii(layout, w.stack, 0);
    AppendsAscii(w, W.ScalarStep(layout, w, text).next, W.Gap(layout, w.stack) + text, t);
  }

  lemma BeginAppends(layout: W.Layout, w: Writing, t: Text)
    ensures var b := W.BeginStringStep(layout, w); b.Written? ==> Appends(w, b.next, t) && b.next.encodable == w.encodable
    ensures var b := W.BeginKeyStep(layout, w); b.Written? ==> Appends(w, b.next, t) && b.next.encodable == w.encodable
  {
    hide Permitted, W.Gap, W.Comma, W.LineBreak;
    GapsAreAscii(layout, w.stack, |w.stack|);
    if W.BeginStringStep(layout, w).Written? {
      AppendsAscii(w, W.BeginStringStep(layout, w).next, W.Gap(layout, w.stack) + [QUOTE], t);
    }
    if W.BeginKeyStep(layout, w).Written? {
      var gap := W.Comma(W.Top(w.stack).hasMembers) + W.LineBreak(layout, |w.stack|);
      AppendsAscii(w, W.BeginKeyStep(layout, w).next, gap + [QUOTE], t);
    }
  }

  lemma TextAppends(w: Writing, t: Text)
    requires W.TextStep(w, t).Written?
    ensures Appends(w, W.TextStep(w, t).next, t) && W.TextStep(w, t).next.encodable == w.encodable
  {
    hide Permitted;
    SpelledPermitted(t, t, w.encodable);
    AppendsBytes(w, W.TextStep(w, t).next, Spelled(W.Glyphs(t, w.encodable)), t);
  }

  lemma EndAppends(layout: W.Layout, w: Writing, t: Text)
    requires W.EndStringStep(layout, w).Written?
    ensures Appends(w, W.EndStringStep(layout, w).next, t) && W.EndStringStep(layout, w).next.encodable == w.encodable
  {
    hide Permitted, W.AfterKey;
    GapsAreAscii(layout, [], 0);
    var next := W.EndStringStep(layout, w).next;
    if w.role.value == W.KeyRole {
      AppendsAscii(w, next, [QUOTE] + W.AfterKey(layout), t);
    } else {
      AppendsAscii(w, next, [QUOTE], t);
    }
  }

  lemma WholeAppends(layout: W.Layout, w: Writing, begun: W.Outcome, t: Text)
    requires begun.Written? ==> Appends(w, begun.next, t) && begun.next.encodable == w.encodable
    requires W.WholeStep(layout, begun, t).Written?
    ensures Appends(w, W.WholeStep(layout, begun, t).next, t) && W.WholeStep(layout, begun, t).next.encodable == w.encodable
  {
    hide Appends, W.TextStep, W.EndStringStep;
    var text := W.TextStep(begun.next, t);
    TextAppends(begun.next, t);
    EndAppends(layout, text.next, t);
    AppendsTwice(w, begun.next, text.next, t);
    AppendsTwice(w, text.next, W.EndStringStep(layout, text.next).next, t);
  }

  lemma ContainerAppends(layout: W.Layout, w: Writing, container: Container, t: Text)
    ensures var s := W.StartStep(layout, w, container); s.Written? ==> Appends(w, s.next, t) && s.next.encodable == w.encodable
    ensures var s := W.EndStep(layout, w, container); s.Written? ==> Appends(w, s.next, t) && s.next.encodable == w.encodable
  {
    hide Permitted, W.Gap, W.LineBreak;
    if W.StartStep(layout, w, container).Written? {
      GapsAreAscii(layout, w.stack, 0);
      AppendsAscii(w, W.StartStep(layout, w, container).next,
                   W.Gap(layout, w.stack) + [if container == InArray then OPEN_ARRAY else OPEN_OBJECT], t);
    }
    if W.EndStep(layout, w, container).Written? {
      GapsAreAscii(layout, w.stack, |w.stack| - 1);
      var gap := if W.Top(w.stack).hasMembers then W.LineBreak(layout, |w.stack| - 1) else [];
      AppendsAscii(w, W.EndStep(layout, w, container).next, gap + [if container == InArray then CLOSE_ARRAY else CLOSE_OBJECT], t);
    }
  }

  /** Whatever call is accepted, it writes no character the encoding in force lacks. */
  lemma CallAppends(layout: W.Layout, w: Writing, call: Call)
    requires W.Apply(layout, w, call).Written?
    ensures Appends(w, W.Apply(layout, w, call).next, TextOfCall(call))
    ensures W.Apply(layout, w, call).next.encodable == if call.WithEncodable? then Some(call.p) else w.encodable
  {
    hide Appends, IsNumber, W.BeginStringStep, W.BeginKeyStep, W.TextStep, W.EndStringStep, W.StartStep, W.EndStep, W.WholeStep, IsAscii,
         W.BeginValue;
    match call
    case WriteNull =>
      LiteralsAreAscii();
      ScalarAppends(layout, w, NULL, []);
    case WriteBool(b) =>
      LiteralsAreAscii();
      ScalarAppends(layout, w, if b then TRUE else FALSE, []);
    case WriteNumber(text) =>
      NumberIsAscii(text);
      ScalarAppends(layout, w, text, []);
    case WriteString(t) =>
      BeginAppends(layout, w, t);
      WholeAppends(layout, w, W.BeginStringStep(layout, w), t);
    case WriteKey(t) =>
      BeginAppends(layout, w, t);
      WholeAppends(layout, w, W.BeginKeyStep(layout, w), t);
    case BeginString => BeginAppends(layout, w, []);
    case BeginKey => BeginAppends(layout, w, []);
    case StringText(t) => TextAppends(w, t);
    case EndString => EndAppends(layout, w, []);
    case StartContainer(container) => ContainerAppends(layout, w, container, []);
    case EndContainer(container) => ContainerAppends(layout, w, container, []);
    case WithEncodable(p) => SameAppends(w, W.Apply(layout, w, call).next);
  }

  lemma LiteralsAreAscii()
    ensures IsAscii(NULL) && IsAscii(TRUE) && IsAscii(FALSE)
  {
  }

  lemma SameAppends(w: Writing, next: Writing)
    requires next.out == w.out
    ensures Appends(w, next, [])
  {
    assert w.out + [] == w.out;
    AppendsAscii(w, next, [], []);
  }

  // ----- runs -----

  /** The encoding in force after the calls: the last one given. */
  ghost function InForce(calls: seq<Call>): W.Encoding
    decreases |calls|
  {
    if calls == [] then None
    else
      var n := |calls| - 1;
      if calls[n].WithEncodable? then Some(calls[n].p) else InForce(calls[..n])
  }

  function Joined(pieces: seq<Bytes>): Bytes {
    if pieces == [] then [] else Joined(pieces[..|pieces| - 1]) + pieces[|pieces| - 1]
  }

  /** One piece for each call, with no character past ASCII that the encoding in force then lacked. */
  ghost predicate EachPermitted(calls: seq<Call>, pieces: seq<Bytes>) {
    |pieces| == |calls|
    && forall i :: 0 <= i < |calls| ==> Permitted(pieces[i], TextOfCall(calls[i]), W.Has(InForce(calls[..i])))
  }

  /** A run's output is one piece for each call; what stands in it unescaped past ASCII, the encoding in force then had. */
  lemma {:induction false} RunKeepsTo(layout: W.Layout, calls: seq<Call>) returns (pieces: seq<Bytes>)
    ensures RunOf(layout, calls).now.out == Joined(pieces) && EachPermitted(calls, pieces)
    ensures RunOf(layout, calls).now.encodable == InForce(calls)
    decreases |calls|
  {
    hide W.Apply, RunOf, EachPermitted, Joined, InForce;
    if calls == [] {
      pieces := [];
      NothingRun(layout);
    } else {
      var n := |calls| - 1;
      var before := RunKeepsTo(layout, calls[..n]);
      var piece := NextPiece(layout, calls);
      pieces := before + [piece];
      MorePermitted(calls, before, piece);
      JoinedMore(before, piece);
    }
  }

  lemma NothingRun(layout: W.Layout)
    ensures RunOf(layout, []).now.out == Joined([]) && EachPermitted([], []) && RunOf(layout, []).now.encodable == InForce([])
  {
  }

  lemma JoinedMore(pieces: seq<Bytes>, piece: Bytes)
    ensures Joined(pieces + [piece]) == Joined(pieces) + piece
  {
    assert (pieces + [piece])[..|pieces|] == pieces;
  }

  /** What the last call adds. */
  lemma NextPiece(layout: W.Layout, calls: seq<Call>) returns (piece: Bytes)
    requires calls != [] && RunOf(layout, calls[..|calls| - 1]).now.encodable == InForce(calls[..|calls| - 1])
    ensures var n := |calls| - 1;
            && RunOf(layout, calls).now.out == RunOf(layout, calls[..n]).now.out + piece
            && Permitted(piece, TextOfCall(calls[n]), W.Has(InForce(calls[..n])))
            && RunOf(layout, calls).now.encodable == InForce(calls)
  {
    hide W.Apply, Hear, Permitted;
    var n := |calls| - 1;
    var w := RunOf(layout, calls[..n]).now;
    if W.Apply(layout, w, calls[n]).Written? {
      CallAppends(layout, w, calls[n]);
      var next := W.Apply(layout, w, calls[n]).next;
      piece := next.out[|w.out|..];
      assert next.out == next.out[..|w.out|] + piece;
    } else {
      NotRefused(layout, w, calls[n]);
      piece := [];
      AsciiPermitted([], TextOfCall(calls[n]), W.Has(InForce(calls[..n])));
      assert w.out + [] == w.out;
    }
  }

  lemma MorePermitted(calls: seq<Call>, before: seq<Bytes>, piece: Bytes)
    requires calls != [] && EachPermitted(calls[..|calls| - 1], before)
    requires Permitted(piece, TextOfCall(calls[|calls| - 1]), W.Has(InForce(calls[..|calls| - 1])))
    ensures EachPermitted(calls, before + [piece])
  {
    hide Permitted, InForce;
    var n, pieces := |calls| - 1, before + [piece];
    forall i | 0 <= i < |calls| ensures Permitted(pieces[i], TextOfCall(calls[i]), W.Has(InForce(calls[..i]))) {
      if i < n {
        assert calls[..n][..i] == calls[..i] && calls[..n][i] == calls[i];
        assert Permitted(before[i], TextOfCall(calls[..n][i]), W.Has(InForce(calls[..n][..i])));
      }
    }
  }

  /** An encoding is never refused. */
  lemma NotRefused(layout: W.Layout, w: Writing, call: Call)
    requires W.Apply(layout, w, call).Refused?
    ensures !call.WithEncodable?
  {
  }

  /** With an encoding that has ASCII only, the output is ASCII. */
  lemma AsciiOnly(layout: W.Layout, calls: seq<Call>)
    requires calls != [] && calls[0].WithEncodable?
    requires forall i :: 0 <= i < |calls| && calls[i].WithEncodable? ==> forall c: Scalar :: c >= 0x80 ==> !calls[i].p(c)
    ensures IsAscii(RunOf(layout, calls).now.out)
  {
    hide RunOf, Permitted;
    var pieces := RunKeepsTo(layout, calls);
    forall i | 0 <= i < |pieces| ensures IsAscii(pieces[i]) {
      if i == 0 {
        NothingPermitted(pieces[0], W.Has(InForce(calls[..0])));
      } else {
        ForceIsGiven(calls, i);
        HadByNone(pieces[i], TextOfCall(calls[i]), W.Has(InForce(calls[..i])));
      }
    }
    JoinedIsAscii(pieces);
  }

  /** A call without text. */
  lemma NothingPermitted(s: Bytes, has: Scalar -> bool)
    requires Permitted(s, [], has)
    ensures IsAscii(s)
  {
    hide Utf8All;
    var u: Text :| s == Utf8All(u) && AllPermitted(u, [], has);
    SmallIsAscii(u);
  }

  lemma HadByNone(s: Bytes, t: Text, has: Scalar -> bool)
    requires Permitted(s, t, has) && forall c: Scalar :: c >= 0x80 ==> !has(c)
    ensures IsAscii(s)
  {
    hide Utf8All;
    var u: Text :| s == Utf8All(u) && AllPermitted(u, t, has);
    SmallIsAscii(u);
  }

  lemma {:induction false} SmallIsAscii(u: Text)
    requires forall i :: 0 <= i < |u| ==> u[i] < 0x80
    ensures IsAscii(Utf8All(u))
    decreases |u|
  {
    if u != [] {
      SmallIsAscii(u[1..]);
    }
  }

  lemma {:induction false} ForceIsGiven(calls: seq<Call>, i: nat)
    requires 0 < i <= |calls| && calls[0].WithEncodable?
    requires forall j :: 0 <= j < |calls| && calls[j].WithEncodable? ==> forall c: Scalar :: c >= 0x80 ==> !calls[j].p(c)
    ensures InForce(calls[..i]).Some? && forall c: Scalar :: c >= 0x80 ==> !InForce(calls[..i]).value(c)
    decreases i
  {
    assert calls[..i][..i - 1] == calls[..i - 1];
    if !calls[i - 1].WithEncodable? {
      ForceIsGiven(calls, i - 1);
    }
  }

  lemma {:induction false} JoinedIsAscii(pieces: seq<Bytes>)
    requires forall i :: 0 <= i < |pieces| ==> IsAscii(pieces[i])
    ensures IsAscii(Joined(pieces))
    decreases |pieces|
  {
    if pieces != [] {
      JoinedIsAscii(pieces[..|pieces| - 1]);
    }
  }
}
