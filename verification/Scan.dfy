/** The prefilter's scans: a text is read in windows that double up to a limit. */
module Scan {
  import opened Options
  import opened CharSets
  import opened Syntax

  const FIRST: nat := 1
  const CHUNK: nat := 4096

  predicate OccursAt(hay: string, q: nat, literal: string) {
    q + |literal| <= |hay| && hay[q..q + |literal|] == literal
  }

  predicate HeldAt(hay: string, q: nat, chars: CharSet) {
    q < |hay| && Holds(chars, hay[q] as int)
  }

  function Bound(hay: string, at: nat): (r: nat)
    ensures r <= |hay|
  {
    if at < |hay| then at else |hay|
  }

  function Widened(window: nat): nat {
    if 2 * window < CHUNK then 2 * window else CHUNK
  }

  /** The first character of the set from `lo` on and before `hi`. */
  method FirstHeld(hay: string, lo: nat, hi: nat, chars: CharSet) returns (r: Option<nat>)
    requires lo <= hi <= |hay|
    ensures r.Some? ==> lo <= r.value < hi && HeldAt(hay, r.value, chars)
    ensures forall q :: lo <= q < (if r.Some? then r.value else hi) ==> !HeldAt(hay, q, chars)
  {
    for q := lo to hi
      invariant forall i :: lo <= i < q ==> !HeldAt(hay, i, chars)
    {
      var held := Contains(chars, hay[q] as int);
      if held {
        return Some(q);
      }
    }
    r := None;
  }

  /**
   * Where the first character of the set at or after `from` is. A step is charged for each character of a window
   * before it is read: at most twice the characters up to the one found, or all of them once if there is none.
   */
  method FindAny(hay: string, from: nat, chars: CharSet) returns (r: Option<nat>, charged: nat)
    ensures r.Some? ==> from <= r.value && HeldAt(hay, r.value, chars)
    ensures forall q :: from <= q && (r.Some? ==> q < r.value) ==> !HeldAt(hay, q, chars)
    ensures charged <= if r.Some? then 2 * (r.value + 1 - from) else if from < |hay| then |hay| - from else 0
  {
    var at, window := from, FIRST;
    charged := 0;
    while at < |hay|
      invariant from <= at && 1 <= window && (at < |hay| ==> window <= at - from + 1)
      invariant charged == at - from && (if from <= |hay| then at <= |hay| else at == from)
      invariant forall q :: from <= q < at ==> !HeldAt(hay, q, chars)
      decreases |hay| - at
    {
      var end := Bound(hay, at + window);
      window := Widened(window);
      charged := charged + (end - at);
      r := FirstHeld(hay, at, end, chars);
      if r.Some? {
        return;
      }
      at := end;
    }
    r := None;
  }

  /** The first occurrence of the literal that lies between `lo` and `hi`. */
  method FirstOccurrence(hay: string, lo: nat, hi: nat, literal: string) returns (r: Option<nat>)
    requires lo <= hi <= |hay|
    ensures r.Some? ==> lo <= r.value && r.value + |literal| <= hi && OccursAt(hay, r.value, literal)
    ensures forall q :: lo <= q && (if r.Some? then q < r.value else q + |literal| <= hi) ==> !OccursAt(hay, q, literal)
  {
    var q := lo;
    while q + |literal| <= hi
      invariant lo <= q
      invariant forall i :: lo <= i < q ==> !OccursAt(hay, i, literal)
    {
      if hay[q..q + |literal|] == literal {
        return Some(q);
      }
      q := q + 1;
    }
    r := None;
  }

  /**
   * Where the literal first occurs at or after `from`. A window is charged before it is read, with the literal's
   * length less one past its starts.
   */
  method FindLiteral(hay: string, from: nat, literal: string) returns (r: Option<nat>, charged: nat)
    requires literal != ""
    ensures r.Some? ==> from <= r.value && OccursAt(hay, r.value, literal)
    ensures forall q :: from <= q && (r.Some? ==> q < r.value) ==> !OccursAt(hay, q, literal)
    ensures charged <= if r.Some? then Times(2 * (r.value - from) + 1, |literal|)
                       else if from < |hay| then Times(|hay| - from, |literal|) else 0
  {
    hide Times, OccursAt;
    var at, window := from, FIRST;
    charged := 0;
    NothingCharged(|literal|);
    while at + |literal| <= |hay|
      invariant from <= at && 1 <= window && (at < |hay| ==> window <= at - from + 1)
      invariant charged <= Times(at - from, |literal|) && (if from <= |hay| then at <= |hay| else at == from)
      invariant forall q :: from <= q < at ==> !OccursAt(hay, q, literal)
      decreases |hay| - at
    {
      var starts := Bound(hay, at + window);
      ghost var before := window;
      window := Widened(window);
      var end := Bound(hay, starts + |literal| - 1);
      WindowCharge(at - from, starts - at, before, |literal|);
      charged := charged + (end - at);
      r := FirstOccurrence(hay, at, end, literal);
      if r.Some? {
        TimesGrows(2 * (at - from) + 1, 2 * (r.value - from) + 1, |literal|, |literal|);
        return;
      }
      forall q | at <= q < starts ensures !OccursAt(hay, q, literal) {
        PastTheEnd(hay, q, literal);
      }
      at := starts;
    }
    forall q | at <= q ensures !OccursAt(hay, q, literal) {
      PastTheEnd(hay, q, literal);
    }
    if from < |hay| {
      TimesGrows(at - from, |hay| - from, |literal|, |literal|);
    }
    r := None;
  }

  lemma PastTheEnd(hay: string, q: nat, literal: string)
    ensures q + |literal| > |hay| ==> !OccursAt(hay, q, literal)
  {
  }

  lemma NothingCharged(m: nat)
    ensures Times(0, m) == 0
  {
  }

  lemma {:induction false} WindowReads(n: nat, m: nat)
    requires n >= 1 && m >= 1
    ensures n + m - 1 <= Times(n, m)
  {
    if n > 1 {
      WindowReads(n - 1, m);
    } else {
      assert Times(0, m) == 0;
    }
  }

  /** What a window of `n` starts, of `most` before it is cut, adds to the charges for the `done` before it. */
  lemma WindowCharge(done: nat, n: nat, most: nat, m: nat)
    requires 1 <= n <= most <= done + 1 && m >= 1
    ensures Times(done, m) + n + m - 1 <= Times(done + n, m) <= Times(2 * done + 1, m)
  {
    hide Times;
    TimesAdd(done, n, m);
    WindowReads(n, m);
    TimesGrows(done + n, 2 * done + 1, m, m);
  }
}
