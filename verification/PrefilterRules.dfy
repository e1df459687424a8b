/** The measures the prefilter chooses by: the size of a set, the literal of a pattern of characters, and lengths in UTF-8. */
module PrefilterRules {
  import opened Options
  import opened CharSets
  import opened Syntax
  import opened Literals
  import opened Prefilter
  import opened LiteralSearch

  /** The characters a set holds. */
  ghost function CharsOf(chars: CharSet): set<int> {
    set c | 0 <= c <= MAX_CP && Holds(chars, c)
  }

  predicate InRange(lo: int, hi: int, c: int) {
    lo <= c <= hi
  }

  ghost function Between(lo: int, hi: int): set<int> {
    set c | lo <= c <= hi && InRange(lo, hi, c)
  }

  lemma {:induction false} RangeSize(lo: int, hi: int)
    requires lo <= hi + 1
    ensures |Between(lo, hi)| == hi - lo + 1
    decreases hi - lo + 1
  {
    if lo <= hi {
      RangeSize(lo, hi - 1);
      forall c ensures c in Between(lo, hi) <==> c in Between(lo, hi - 1) + {hi} {
        assert InRange(lo, hi, c) <==> InRange(lo, hi - 1, c) || c == hi;
      }
      assert Between(lo, hi) == Between(lo, hi - 1) + {hi};
    } else {
      assert Between(lo, hi) == {};
    }
  }

  lemma CharsSplit(chars: CharSet)
    requires chars != []
    ensures var first, rest := Between(chars[0].lo, chars[0].hi), CharsOf(chars[1..]); CharsOf(chars) == first + rest && first !! rest
  {
    hide Holds;
    var first, rest := Between(chars[0].lo, chars[0].hi), CharsOf(chars[1..]);
    forall c ensures c in CharsOf(chars) <==> c in first + rest {
      HoldsCons(chars, c);
      assert c in first <==> InRange(chars[0].lo, chars[0].hi, c);
    }
    forall c | c in first ensures c !in rest {
      NotAgain(chars, c);
    }
  }

  lemma NotAgain(chars: CharSet, c: int)
    requires chars != [] && InRange(chars[0].lo, chars[0].hi, c)
    ensures !Holds(chars[1..], c)
  {
  }

  /** The count of a set is how many characters it holds. */
  lemma {:induction false} CountIsSize(chars: CharSet)
    ensures CharCount(chars) == |CharsOf(chars)|
    decreases |chars|
  {
    hide Between;
    if chars == [] {
      assert CharsOf(chars) == {};
    } else {
      CountIsSize(chars[1..]);
      RangeSize(chars[0].lo, chars[0].hi);
      CharsSplit(chars);
    }
  }

  /** Of two sets the one of fewer characters is preferred, and of as many the one of fewer ranges. */
  lemma SmallerMeans(a: CharSet, b: CharSet)
    ensures Smaller(a, b) <==>
            |CharsOf(a)| < |CharsOf(b)| || (|CharsOf(a)| == |CharsOf(b)| && |a| < |b|)
    ensures Small(a) <==> |CharsOf(a)| <= 16
  {
    hide CharsOf, CharCount;
    CountIsSize(a);
    CountIsSize(b);
  }

  /** The rules give a pattern of characters its own text as its literal, and say that it is whole. */
  lemma {:induction false} CharactersAreTheirLiteral(text: string)
    ensures LiteralThrough(Characters(text)) == Opening(text, true)
    decreases |text|
  {
    if text != "" {
      OneIsItsLiteral(text[0]);
      assert Characters(text)[1..] == Characters(text[1..]);
      CharactersAreTheirLiteral(text[1..]);
      assert text == [text[0]] + text[1..];
    }
  }

  lemma OneIsItsLiteral(c: char)
    ensures Literal(OneOf(c)) == Opening([c], true)
  {
  }

  /** Below this, a character fits `n` bytes of UTF-8: seven bits, or five for each byte and one more. */
  function Capacity(n: nat): nat {
    if n == 0 then 0 else if n == 1 then 128 else if n == 2 then 2048 else 32 * Capacity(n - 1)
  }

  /** A character's length is the least number of bytes it fits. */
  lemma LengthIsLeast(c: char)
    ensures Utf8Len(c) > 0 && Capacity(Utf8Len(c) - 1) <= c as int < Capacity(Utf8Len(c))
  {
    assert Capacity(3) == 0x1_0000 && Capacity(4) == 0x20_0000;
  }
}
