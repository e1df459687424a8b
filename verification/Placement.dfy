/** Where a stretch of code stands in a program. */
module Placement {
  /** The code `c` stands in `p` at address `a`. */
  ghost predicate Placed<T>(p: seq<T>, a: nat, c: seq<T>) {
    a + |c| <= |p| && p[a..a + |c|] == c
  }

  lemma PlacedSplit<T>(p: seq<T>, a: nat, c1: seq<T>, c2: seq<T>)
    requires Placed(p, a, c1 + c2)
    ensures Placed(p, a, c1) && Placed(p, a + |c1|, c2)
  {
    assert p[a..a + |c1|] == p[a..a + |c1 + c2|][..|c1|];
    assert p[a + |c1|..a + |c1| + |c2|] == p[a..a + |c1 + c2|][|c1|..];
  }

  lemma PlacedSplit3<T>(p: seq<T>, a: nat, c1: seq<T>, c2: seq<T>, c3: seq<T>)
    requires Placed(p, a, c1 + c2 + c3)
    ensures Placed(p, a, c1) && Placed(p, a + |c1|, c2) && Placed(p, a + |c1| + |c2|, c3)
  {
    PlacedSplit(p, a, c1 + c2, c3);
    PlacedSplit(p, a, c1, c2);
  }

  lemma PlacedSplit5<T>(p: seq<T>, a: nat, c1: seq<T>, c2: seq<T>, c3: seq<T>, c4: seq<T>, c5: seq<T>)
    requires Placed(p, a, c1 + c2 + c3 + c4 + c5)
    ensures Placed(p, a, c1) && Placed(p, a + |c1|, c2) && Placed(p, a + |c1| + |c2|, c3)
    ensures Placed(p, a + |c1| + |c2| + |c3|, c4) && Placed(p, a + |c1| + |c2| + |c3| + |c4|, c5)
  {
    PlacedSplit3(p, a, c1 + c2 + c3, c4, c5);
    PlacedSplit3(p, a, c1, c2, c3);
  }

  lemma PlacedOne<T>(p: seq<T>, a: nat, i: T)
    requires Placed(p, a, [i])
    ensures a < |p| && p[a] == i
  {
    assert p[a..a + 1][0] == i;
  }
}
