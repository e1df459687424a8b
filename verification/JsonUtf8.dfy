/** UTF-8 as RFC 3629 section 4 defines it: what the writer encodes is decoded. */
module JsonUtf8 {
  import opened Options
  import opened JsonBytes
  import opened JsonStrings
  import opened JsonEscapes

  function Wide(b: bv8): bv32 {
    b as bv32
  }

  predicate IsTail(b: bv32) {
    0x80 <= b <= 0xBF
  }

  /** The first two bytes of three: the shortest form, and no surrogate. */
  predicate LeadsThree(b: bv32, d: bv32) {
    (b == 0xE0 && d >= 0xA0) || 0xE1 <= b <= 0xEC || (b == 0xED && d <= 0x9F) || 0xEE <= b <= 0xEF
  }

  /** The first two bytes of four: the shortest form, and no character past the last. */
  predicate LeadsFour(b: bv32, d: bv32) {
    (b == 0xF0 && d >= 0x90) || 0xF1 <= b <= 0xF3 || (b == 0xF4 && d <= 0x8F)
  }

  function Two(b: bv32, d: bv32): bv32 {
    (b - 0xC0) * 64 + (d - 0x80)
  }

  function Three(b: bv32, d: bv32, f: bv32): bv32 {
    (b - 0xE0) * 4096 + (d - 0x80) * 64 + (f - 0x80)
  }

  function Four(b: bv32, d: bv32, f: bv32, g: bv32): bv32 {
    (b - 0xF0) * 262144 + (d - 0x80) * 4096 + (f - 0x80) * 64 + (g - 0x80)
  }

  /** The first character, and how many bytes it has. */
  function First(s: Bytes): (r: Option<(bv32, nat)>)
    ensures r.Some? ==> 0 < r.value.1 <= |s|
  {
    if s == [] then None
    else if Wide(s[0]) <= 0x7F then Some((Wide(s[0]), 1))
    else if |s| >= 2 && 0xC2 <= Wide(s[0]) <= 0xDF && IsTail(Wide(s[1])) then Some((Two(Wide(s[0]), Wide(s[1])), 2))
    else if |s| >= 3 && LeadsThree(Wide(s[0]), Wide(s[1])) && IsTail(Wide(s[1])) && IsTail(Wide(s[2])) then
      Some((Three(Wide(s[0]), Wide(s[1]), Wide(s[2])), 3))
    else if |s| >= 4 && LeadsFour(Wide(s[0]), Wide(s[1])) && IsTail(Wide(s[1])) && IsTail(Wide(s[2])) && IsTail(Wide(s[3])) then
      Some((Four(Wide(s[0]), Wide(s[1]), Wide(s[2]), Wide(s[3])), 4))
    else None
  }

  /** The characters of a text; none if it is not UTF-8. */
  function DecodeAll(s: Bytes): Option<seq<bv32>>
    decreases |s|
  {
    if s == [] then Some([])
    else
      var first := First(s);
      if first.None? then None
      else
        var rest := DecodeAll(s[first.value.1..]);
        if rest.None? then None else Some([first.value.0] + rest.value)
  }

  // ----- bits -----

  lemma ByteBack(x: bv32)
    requires x < 0x100
    ensures Wide(ByteOf(x)) == x
  {
  }

  function Bits(x: bv32): bv32 {
    0x80 | (x & 0x3F)
  }

  lemma TailBack(x: bv32)
    ensures Wide(Continuation(x)) == Bits(x) && IsTail(Bits(x))
  {
    SmallBits(x);
    ByteBack(0x80 | (x & 0x3F));
  }

  lemma SmallBits(x: bv32)
    ensures IsTail(Bits(x)) && Bits(x) - 0x80 == x & 0x3F
  {
  }

  lemma TwoBack(c: bv32)
    requires 0x80 <= c < 0x800
    ensures var b := 0xC0 | ((c >> 6) & 0x1F); 0xC2 <= b <= 0xDF && Two(b, Bits(c)) == c
  {
  }

  lemma ThreeBack(c: bv32)
    requires 0x800 <= c < 0x10000 && IsScalar(c)
    ensures var b := 0xE0 | ((c >> 12) & 0x0F); 0xE0 <= b <= 0xEF && LeadsThree(b, Bits(c >> 6)) && Three(b, Bits(c >> 6), Bits(c)) == c
  {
    hide Three;
    ThreeSums(c);
  }

  lemma ThreeSums(c: bv32)
    requires c < 0x10000
    ensures var b := 0xE0 | ((c >> 12) & 0x0F); Three(b, Bits(c >> 6), Bits(c)) == c
  {
  }

  lemma FourBack(c: bv32)
    requires 0x10000 <= c < 0x110000
    ensures var b := 0xF0 | ((c >> 18) & 0x07); 0xF0 <= b <= 0xF4 && LeadsFour(b, Bits(c >> 12))
    ensures var b := 0xF0 | ((c >> 18) & 0x07); Four(b, Bits(c >> 12), Bits(c >> 6), Bits(c)) == c
  {
    hide Four;
    FourSums(c);
  }

  lemma FourSums(c: bv32)
    requires c < 0x110000
    ensures var b := 0xF0 | ((c >> 18) & 0x07); Four(b, Bits(c >> 12), Bits(c >> 6), Bits(c)) == c
  {
  }

  // ----- characters -----

  lemma FirstIs(c: Scalar, rest: Bytes)
    ensures Utf8(c) != [] && First(Utf8(c) + rest) == Some((c, |Utf8(c)|))
  {
    hide Wide, ByteOf, Continuation, Two, Three, Four, LeadsThree, LeadsFour, IsTail;
    var s := Utf8(c) + rest;
    assert IsScalar(c);
    if c < 0x80 {
      ByteBack(c);
    } else if c < 0x800 {
      TwoIs(c, s);
    } else if c < 0x10000 {
      ThreeIs(c, s);
    } else {
      FourIs(c, s);
    }
  }

  lemma TwoIs(c: bv32, s: Bytes)
    requires 0x80 <= c < 0x800 && |s| >= 2 && s[..2] == Utf8(c)
    ensures First(s) == Some((c, 2))
  {
    hide Wide, ByteOf, Continuation, Two, Bits, IsTail;
    assert s[0] == s[..2][0] && s[1] == s[..2][1];
    TwoBack(c);
    TailBack(c);
    ByteBack(0xC0 | ((c >> 6) & 0x1F));
  }

  lemma ThreeIs(c: bv32, s: Bytes)
    requires 0x800 <= c < 0x10000 && IsScalar(c) && |s| >= 3 && s[..3] == Utf8(c)
    ensures First(s) == Some((c, 3))
  {
    hide Wide, ByteOf, Continuation, Three, Bits, IsTail, LeadsThree;
    assert s[0] == s[..3][0] && s[1] == s[..3][1] && s[2] == s[..3][2];
    ThreeBack(c);
    TailBack(c);
    TailBack(c >> 6);
    ByteBack(0xE0 | ((c >> 12) & 0x0F));
  }

  lemma FourIs(c: bv32, s: Bytes)
    requires 0x10000 <= c < 0x110000 && |s| >= 4 && s[..4] == Utf8(c)
    ensures First(s) == Some((c, 4))
  {
    hide Wide, ByteOf, Continuation, Four, Bits, IsTail, LeadsThree, LeadsFour;
    assert s[0] == s[..4][0] && s[1] == s[..4][1] && s[2] == s[..4][2] && s[3] == s[..4][3];
    FourBack(c);
    TailBack(c);
    TailBack(c >> 6);
    TailBack(c >> 12);
    ByteBack(0xF0 | ((c >> 18) & 0x07));
    NotThree(0xF0 | ((c >> 18) & 0x07), Bits(c >> 12));
  }

  lemma NotThree(b: bv32, d: bv32)
    requires b >= 0xF0
    ensures !LeadsThree(b, d)
  {
  }

  /** What is encoded is decoded: to the same characters, each from its shortest form. */
  lemma {:induction false} Utf8Decodes(t: Text)
    ensures DecodeAll(Utf8All(t)) == Some(Numbers(t))
    decreases |t|
  {
    hide Utf8, First;
    if t != [] {
      var s := Utf8All(t);
      FirstIs(t[0], Utf8All(t[1..]));
      Utf8Decodes(t[1..]);
      assert s[|Utf8(t[0])|..] == Utf8All(t[1..]);
      assert Numbers(t) == [t[0]] + Numbers(t[1..]);
    }
  }

  function Numbers(t: Text): (ns: seq<bv32>)
    ensures |ns| == |t| && forall i :: 0 <= i < |t| ==> ns[i] == t[i]
  {
    seq(|t|, i requires 0 <= i < |t| => t[i])
  }

  /** So different texts are encoded differently. */
  lemma Utf8Differs(a: Text, b: Text)
    requires Utf8All(a) == Utf8All(b)
    ensures a == b
  {
    hide Utf8All, DecodeAll;
    Utf8Decodes(a);
    Utf8Decodes(b);
    var ns := Numbers(a);
    assert ns == Numbers(b);
    forall i | 0 <= i < |a| ensures a[i] == b[i] {
      assert ns[i] == a[i];
    }
  }
}
