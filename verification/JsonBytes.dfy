/** Bytes of JSON texts, and the scan of a string eight of them at a time. */
module JsonBytes {
  type Bytes = seq<bv8>

  const QUOTE: bv8 := 0x22
  const BACKSLASH: bv8 := 0x5C

  /** A byte that ends or changes the scan of a string. */
  predicate Special(b: bv8) {
    b == QUOTE || b == BACKSLASH || b <= 0x1F
  }

  /** Where the run of bytes that cannot end or change a string's scan ends. */
  function PlainEnd(s: Bytes, pos: nat): (end: nat)
    requires pos <= |s|
    ensures pos <= end <= |s| && (end < |s| ==> Special(s[end]))
    ensures forall i :: pos <= i < end ==> !Special(s[i])
    decreases |s| - pos
  {
    if pos < |s| && !Special(s[pos]) then PlainEnd(s, pos + 1) else pos
  }

  lemma {:induction false} PlainOn(s: Bytes, pos: nat, mid: nat)
    requires pos <= mid <= |s| && forall i :: pos <= i < mid ==> !Special(s[i])
    ensures PlainEnd(s, pos) == PlainEnd(s, mid)
    decreases mid - pos
  {
    if pos < mid {
      PlainOn(s, pos + 1, mid);
    }
  }

  // ----- words -----

  const ONES: bv64 := 0x0101_0101_0101_0101
  const HIGHS: bv64 := 0x8080_8080_8080_8080

  /** Eight bytes as a little-endian word. */
  function Word(b0: bv8, b1: bv8, b2: bv8, b3: bv8, b4: bv8, b5: bv8, b6: bv8, b7: bv8): bv64 {
    (b0 as bv64) | ((b1 as bv64) << 8) | ((b2 as bv64) << 16) | ((b3 as bv64) << 24)
    | ((b4 as bv64) << 32) | ((b5 as bv64) << 40) | ((b6 as bv64) << 48) | ((b7 as bv64) << 56)
  }

  function WordAt(s: Bytes, pos: nat): bv64
    requires pos + 8 <= |s|
  {
    Word(s[pos], s[pos + 1], s[pos + 2], s[pos + 3], s[pos + 4], s[pos + 5], s[pos + 6], s[pos + 7])
  }

  function BytesBelow(word: bv64, bound: bv64): bv64 {
    (word - ONES * bound) & !word & HIGHS
  }

  predicate WordHasSpecial(word: bv64) {
    var controls := BytesBelow(word, 0x20);
    var quotes := BytesBelow(word ^ (ONES * 0x22), 1);
    var backslashes := BytesBelow(word ^ (ONES * 0x5C), 1);
    controls | quotes | backslashes != 0
  }

  /** The test is exact: a borrow marks a wrong byte only above one that is marked rightly. */
  lemma WordTestIsExact(b0: bv8, b1: bv8, b2: bv8, b3: bv8, b4: bv8, b5: bv8, b6: bv8, b7: bv8)
    ensures WordHasSpecial(Word(b0, b1, b2, b3, b4, b5, b6, b7)) <==>
            || Special(b0) || Special(b1) || Special(b2) || Special(b3)
            || Special(b4) || Special(b5) || Special(b6) || Special(b7)
  {
  }

  lemma WordAtIsExact(s: Bytes, pos: nat)
    requires pos + 8 <= |s|
    ensures WordHasSpecial(WordAt(s, pos)) <==> exists i :: pos <= i < pos + 8 && Special(s[i])
  {
    hide WordHasSpecial, Word, Special;
    WordTestIsExact(s[pos], s[pos + 1], s[pos + 2], s[pos + 3], s[pos + 4], s[pos + 5], s[pos + 6], s[pos + 7]);
  }

  /** Advances past the run from `pos`: a word at a time while a whole word has no special byte, then byte by byte. */
  method SkipPlain(s: Bytes, pos: nat) returns (end: nat)
    requires pos <= |s|
    ensures end == PlainEnd(s, pos)
  {
    hide WordHasSpecial, Word, Special, PlainEnd;
    end := pos;
    while end + 8 <= |s|
      invariant pos <= end <= |s| && forall i :: pos <= i < end ==> !Special(s[i])
    {
      WordAtIsExact(s, end);
      if WordHasSpecial(WordAt(s, end)) {
        break;
      }
      end := end + 8;
    }
    while end < |s| && !Special(s[end])
      invariant pos <= end <= |s| && forall i :: pos <= i < end ==> !Special(s[i])
    {
      end := end + 1;
    }
    PlainOn(s, pos, end);
    PlainStops(s, end);
  }

  lemma PlainStops(s: Bytes, pos: nat)
    requires pos <= |s| && (pos < |s| ==> Special(s[pos]))
    ensures PlainEnd(s, pos) == pos
  {
  }
}
