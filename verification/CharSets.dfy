/** Sets of characters as sorted, disjoint, non-adjacent inclusive ranges of code points. */
module CharSets {
  const MAX_CP: int := 0x10FFFF

  datatype Range = Range(lo: int, hi: int)

  /** Ranges as callers write them: within the code points, in any order, overlapping or empty. */
  predicate InBounds(rs: seq<Range>) {
    forall i :: 0 <= i < |rs| ==> 0 <= rs[i].lo && rs[i].hi <= MAX_CP
  }

  /** Sorted, disjoint and with a gap of at least one code point between neighbours. */
  predicate Canonical(rs: seq<Range>) {
    && (forall i :: 0 <= i < |rs| ==> 0 <= rs[i].lo <= rs[i].hi <= MAX_CP)
    && (forall i, j :: 0 <= i < j < |rs| ==> rs[i].hi + 1 < rs[j].lo)
  }

  type CharSet = rs: seq<Range> | Canonical(rs)

  /** What a list of ranges denotes. */
  predicate Holds(rs: seq<Range>, c: int) {
    exists i :: 0 <= i < |rs| && rs[i].lo <= c <= rs[i].hi
  }

  lemma HoldsCons(rs: seq<Range>, c: int)
    requires rs != []
    ensures Holds(rs, c) <==> rs[0].lo <= c <= rs[0].hi || Holds(rs[1..], c)
  {
    if Holds(rs, c) {
      var i :| 0 <= i < |rs| && rs[i].lo <= c <= rs[i].hi;
      if i > 0 {
        assert rs[1..][i - 1] == rs[i];
      }
    }
    if Holds(rs[1..], c) {
      var i :| 0 <= i < |rs[1..]| && rs[1..][i].lo <= c <= rs[1..][i].hi;
      assert rs[i + 1] == rs[1..][i];
    }
  }

  lemma HoldsConcat(a: seq<Range>, b: seq<Range>, c: int)
    ensures Holds(a + b, c) <==> Holds(a, c) || Holds(b, c)
  {
    if Holds(a, c) {
      var i :| 0 <= i < |a| && a[i].lo <= c <= a[i].hi;
      assert (a + b)[i] == a[i];
    }
    if Holds(b, c) {
      var i :| 0 <= i < |b| && b[i].lo <= c <= b[i].hi;
      assert (a + b)[|a| + i] == b[i];
    }
  }

  lemma HoldsSingle(r: Range, c: int)
    ensures Holds([r], c) <==> r.lo <= c <= r.hi
  {
    HoldsCons([r], c);
  }

  lemma HoldsPush(rs: seq<Range>, r: Range)
    ensures forall c :: Holds(rs + [r], c) <==> Holds(rs, c) || r.lo <= c <= r.hi
  {
    forall c ensures Holds(rs + [r], c) <==> Holds(rs, c) || r.lo <= c <= r.hi {
      HoldsConcat(rs, [r], c);
      HoldsSingle(r, c);
    }
  }

  /** The ranges of a set from the `i`-th on: what the `i`-th holds, and what lies past the gap after it. */
  lemma HoldsFrom(a: CharSet, i: nat)
    requires i < |a|
    ensures forall c :: Holds(a[i..], c) <==> a[i].lo <= c <= a[i].hi || Holds(a[i + 1..], c)
    ensures forall c {:trigger Holds(a[i + 1..], c)} :: Holds(a[i + 1..], c) ==> c > a[i].hi + 1
  {
    forall c ensures Holds(a[i..], c) <==> a[i].lo <= c <= a[i].hi || Holds(a[i + 1..], c) {
      HoldsCons(a[i..], c);
      assert a[i..][1..] == a[i + 1..];
    }
    forall c {:trigger Holds(a[i + 1..], c)} | Holds(a[i + 1..], c) ensures c > a[i].hi + 1 {
      var k :| 0 <= k < |a[i + 1..]| && a[i + 1..][k].lo <= c <= a[i + 1..][k].hi;
      assert a[i + 1..][k] == a[i + 1 + k];
    }
  }

  /** The ranges before the `i`-th hold nothing past the last of them. */
  lemma HoldsUpTo(a: CharSet, i: nat)
    requires 0 < i <= |a|
    ensures forall c {:trigger Holds(a[..i], c)} :: Holds(a[..i], c) ==> 0 <= c <= a[i - 1].hi
  {
    forall c {:trigger Holds(a[..i], c)} | Holds(a[..i], c) ensures 0 <= c <= a[i - 1].hi {
      var k :| 0 <= k < |a[..i]| && a[..i][k].lo <= c <= a[..i][k].hi;
      assert k < i - 1 ==> a[k].hi + 1 < a[i - 1].lo;
    }
  }

  /** A canonical list is determined by what it denotes, so sets are equal exactly when their ranges are. */
  lemma {:induction false} CanonicalIsUnique(a: CharSet, b: CharSet)
    requires forall c :: Holds(a, c) <==> Holds(b, c)
    ensures a == b
  {
    if a == [] || b == [] {
      NothingHeld(a);
      NothingHeld(b);
    } else {
      hide Holds;
      FirstRangesAgree(a, b);
      HoldsFrom(a, 0);
      HoldsFrom(b, 0);
      assert a[0..] == a && b[0..] == b;
      forall c ensures Holds(a[1..], c) <==> Holds(b[1..], c) {
        assert Holds(a, c) <==> Holds(b, c);
      }
      CanonicalIsUnique(a[1..], b[1..]);
      assert a == [a[0]] + a[1..] && b == [b[0]] + b[1..];
    }
  }

  lemma NothingHeld(a: CharSet)
    ensures a != [] ==> Holds(a, a[0].lo)
  {
    if a != [] {
      assert a[0].lo <= a[0].lo <= a[0].hi;
    }
  }

  lemma FirstRangesAgree(a: CharSet, b: CharSet)
    requires a != [] && b != []
    requires forall c :: Holds(a, c) <==> Holds(b, c)
    ensures a[0] == b[0]
  {
    hide Holds;
    HoldsFrom(a, 0);
    HoldsFrom(b, 0);
    assert a[0..] == a && b[0..] == b;
    assert Holds(a, a[0].lo) && Holds(b, b[0].lo);
    assert !Holds(a, a[0].hi + 1) && !Holds(b, b[0].hi + 1);
  }

  // ----- from_ranges -----

  /** The order of `sort_unstable`: by low end, then by high end. */
  predicate Before(a: Range, b: Range) {
    a.lo < b.lo || (a.lo == b.lo && a.hi <= b.hi)
  }

  predicate Sorted(rs: seq<Range>) {
    forall i, j :: 0 <= i < j < |rs| ==> Before(rs[i], rs[j])
  }

  function Insert(r: Range, rs: seq<Range>): seq<Range> {
    if rs == [] || Before(r, rs[0]) then [r] + rs else [rs[0]] + Insert(r, rs[1..])
  }

  /** The ranges that are not empty, in order. */
  function Arrange(rs: seq<Range>): seq<Range> {
    if rs == [] then []
    else if rs[0].lo <= rs[0].hi then Insert(rs[0], Arrange(rs[1..]))
    else Arrange(rs[1..])
  }

  lemma {:induction false} InsertHolds(r: Range, rs: seq<Range>, c: int)
    ensures Holds(Insert(r, rs), c) <==> r.lo <= c <= r.hi || Holds(rs, c)
    decreases |rs|
  {
    hide Holds;
    HoldsConcat([r], rs, c);
    HoldsSingle(r, c);
    if !(rs == [] || Before(r, rs[0])) {
      InsertHolds(r, rs[1..], c);
      HoldsCons(rs, c);
      HoldsConcat([rs[0]], Insert(r, rs[1..]), c);
      HoldsSingle(rs[0], c);
    }
  }

  lemma NothingIn(c: int)
    ensures !Holds([], c)
  {
  }

  lemma {:induction false} InsertSorts(r: Range, rs: seq<Range>)
    requires Sorted(rs)
    ensures Sorted(Insert(r, rs))
    ensures forall x :: x in Insert(r, rs) ==> x == r || x in rs
    decreases |rs|
  {
    if !(rs == [] || Before(r, rs[0])) {
      var rest := Insert(r, rs[1..]);
      InsertSorts(r, rs[1..]);
      forall j | 0 <= j < |rest| ensures Before(rs[0], rest[j]) {
        assert rest[j] in rest;
      }
    }
  }

  lemma {:induction false} ArrangeSorts(rs: seq<Range>)
    requires InBounds(rs)
    ensures Sorted(Arrange(rs)) && InBounds(Arrange(rs))
    ensures forall i :: 0 <= i < |Arrange(rs)| ==> Arrange(rs)[i].lo <= Arrange(rs)[i].hi
    decreases |rs|
  {
    hide Before;
    if rs != [] {
      var rest := Arrange(rs[1..]);
      ArrangeSorts(rs[1..]);
      InsertSorts(rs[0], rest);
      forall i | 0 <= i < |Arrange(rs)|
        ensures 0 <= Arrange(rs)[i].lo <= Arrange(rs)[i].hi <= MAX_CP
      {
        assert Arrange(rs)[i] in Arrange(rs);
      }
    }
  }

  lemma {:induction false} ArrangeHolds(rs: seq<Range>, c: int)
    ensures Holds(Arrange(rs), c) <==> Holds(rs, c)
    decreases |rs|
  {
    hide Holds, Insert;
    if rs != [] {
      ArrangeHolds(rs[1..], c);
      InsertHolds(rs[0], Arrange(rs[1..]), c);
      HoldsCons(rs, c);
    }
  }

  /** The next range in order, merged with the last one if they overlap or touch. */
  function Merged(out: seq<Range>, r: Range): seq<Range> {
    var n := |out|;
    if n == 0 || r.lo > out[n - 1].hi + 1 then out + [r]
    else if r.hi > out[n - 1].hi then out[n - 1 := Range(out[n - 1].lo, r.hi)]
    else out
  }

  lemma MergedHolds(out: CharSet, r: Range)
    requires out != [] ==> out[|out| - 1].lo <= r.lo
    ensures forall c :: Holds(Merged(out, r), c) <==> Holds(out, c) || r.lo <= c <= r.hi
  {
    hide Holds;
    var n := |out|;
    if n == 0 || r.lo > out[n - 1].hi + 1 {
      HoldsPush(out, r);
    } else {
      var init, last := out[..n - 1], Range(out[n - 1].lo, if r.hi > out[n - 1].hi then r.hi else out[n - 1].hi);
      assert out == init + [out[n - 1]];
      assert Merged(out, r) == init + [last];
      HoldsPush(init, out[n - 1]);
      HoldsPush(init, last);
    }
  }

  lemma MergedIsCanonical(out: CharSet, r: Range)
    requires 0 <= r.lo <= r.hi <= MAX_CP && (out != [] ==> out[|out| - 1].lo <= r.lo)
    ensures Canonical(Merged(out, r)) && Merged(out, r) != [] && Merged(out, r)[|Merged(out, r)| - 1].lo <= r.lo
  {
  }

  /** Sorts the ranges and merges those that overlap or touch. */
  method FromRanges(ranges: seq<Range>) returns (out: CharSet)
    requires InBounds(ranges)
    ensures forall c :: Holds(out, c) <==> Holds(ranges, c)
  {
    hide Holds, Arrange;
    ArrangeSorts(ranges);
    var rs := Arrange(ranges);
    var merged: seq<Range> := [];
    for k := 0 to |rs|
      invariant Canonical(merged) && (merged != [] && k < |rs| ==> merged[|merged| - 1].lo <= rs[k].lo)
      invariant forall c :: Holds(merged, c) <==> Holds(rs[..k], c)
    {
      hide Canonical;
      var r, n := rs[k], |merged|;
      MergedHolds(merged, r);
      MergedIsCanonical(merged, r);
      HoldsNext(rs, k, merged, Merged(merged, r));
      assert k + 1 < |rs| ==> Before(r, rs[k + 1]);
      if n == 0 || r.lo > merged[n - 1].hi + 1 {
        merged := merged + [r];
      } else if r.hi > merged[n - 1].hi {
        merged := merged[n - 1 := Range(merged[n - 1].lo, r.hi)];
      }
    }
    assert rs[..|rs|] == rs;
    forall c ensures Holds(rs, c) <==> Holds(ranges, c) {
      ArrangeHolds(ranges, c);
    }
    out := merged;
  }

  lemma HoldsNext(rs: seq<Range>, k: nat, was: seq<Range>, out: seq<Range>)
    requires k < |rs| && forall c :: Holds(was, c) <==> Holds(rs[..k], c)
    requires forall c :: Holds(out, c) <==> Holds(was, c) || rs[k].lo <= c <= rs[k].hi
    ensures forall c :: Holds(out, c) <==> Holds(rs[..k + 1], c)
  {
    hide Holds;
    HoldsPush(rs[..k], rs[k]);
    assert rs[..k + 1] == rs[..k] + [rs[k]];
  }

  // ----- the set operations -----

  method Union(a: CharSet, b: CharSet) returns (out: CharSet)
    ensures forall c :: Holds(out, c) <==> Holds(a, c) || Holds(b, c)
  {
    hide Holds;
    out := FromRanges(a + b);
    forall c ensures Holds(out, c) <==> Holds(a, c) || Holds(b, c) {
      HoldsConcat(a, b, c);
    }
  }

  method Negate(a: CharSet) returns (out: CharSet)
    ensures forall c :: Holds(out, c) <==> 0 <= c <= 0x10FFFF && !Holds(a, c)
  {
    hide Holds;
    out := [];
    var next := 0;
    forall c ensures !Holds([], c) {
      NothingIn(c);
    }
    for k := 0 to |a|
      invariant next == if k == 0 then 0 else a[k - 1].hi + 1
      invariant Canonical(out) && (out != [] ==> out[|out| - 1].hi + 1 < next)
      invariant forall c :: Holds(out, c) <==> 0 <= c < next && !Holds(a[..k], c)
      invariant forall c :: Holds(a[..k], c) ==> c < next
    {
      assert a[..k + 1] == a[..k] + [a[k]];
      assert k > 0 ==> a[k - 1].hi + 1 < a[k].lo;
      HoldsPush(a[..k], a[k]);
      HoldsUpTo(a, k + 1);
      HoldsPush(out, Range(next, a[k].lo - 1));
      if a[k].lo > next {
        out := out + [Range(next, a[k].lo - 1)];
      }
      next := a[k].hi + 1;
    }
    assert a[..|a|] == a;
    HoldsPush(out, Range(next, MAX_CP));
    if next <= MAX_CP {
      out := out + [Range(next, MAX_CP)];
    }
    InCodePoints(a);
  }

  lemma InCodePoints(a: CharSet)
    ensures forall c :: Holds(a, c) ==> 0 <= c <= MAX_CP
  {
  }

  method Intersect(a: CharSet, b: CharSet) returns (out: CharSet)
    ensures forall c :: Holds(out, c) <==> Holds(a, c) && Holds(b, c)
  {
    hide Holds;
    out := [];
    var i, j := 0, 0;
    forall c ensures !Holds([], c) {
      NothingIn(c);
    }
    assert a[0..] == a && b[0..] == b;
    while i < |a| && j < |b|
      invariant i <= |a| && j <= |b|
      invariant Canonical(out)
      invariant out != [] && i < |a| && j < |b| ==>
        out[|out| - 1].hi + 1 < a[i].lo || out[|out| - 1].hi + 1 < b[j].lo
      invariant forall c :: Holds(a, c) && Holds(b, c) <==> Holds(out, c) || (Holds(a[i..], c) && Holds(b[j..], c))
      decreases |a| - i + |b| - j
    {
      HoldsFrom(a, i);
      HoldsFrom(b, j);
      var lo := if a[i].lo < b[j].lo then b[j].lo else a[i].lo;
      var hi := if a[i].hi < b[j].hi then a[i].hi else b[j].hi;
      HoldsPush(out, Range(lo, hi));
      if lo <= hi {
        out := out + [Range(lo, hi)];
      }
      if a[i].hi < b[j].hi {
        assert i + 1 < |a| ==> a[i].hi + 1 < a[i + 1].lo;
        i := i + 1;
      } else {
        assert j + 1 < |b| ==> b[j].hi + 1 < b[j + 1].lo;
        j := j + 1;
      }
    }
    assert a[i..] == [] || b[j..] == [];
  }

  method Difference(a: CharSet, b: CharSet) returns (out: CharSet)
    ensures forall c :: Holds(out, c) <==> Holds(a, c) && !Holds(b, c)
  {
    var nb := Negate(b);
    out := Intersect(a, nb);
    InCodePoints(a);
  }

  /** Binary search for the range that holds `c`. */
  method Contains(a: CharSet, c: int) returns (found: bool)
    ensures found <==> Holds(a, c)
  {
    var lo, hi := 0, |a|;
    while lo < hi
      invariant 0 <= lo <= hi <= |a|
      invariant forall i :: 0 <= i < |a| && a[i].lo <= c <= a[i].hi ==> lo <= i < hi
    {
      var mid := (lo + hi) / 2;
      if c < a[mid].lo {
        hi := mid;
      } else if c > a[mid].hi {
        lo := mid + 1;
      } else {
        return true;
      }
    }
    return false;
  }
}
