/** Case variants, over a table sorted by character: which characters a set holds besides its own, case-blind. */
module CaseVariants {
  import opened CharSets

  datatype Entry = Entry(c: int, variants: seq<int>)

  predicate IsTable(table: seq<Entry>) {
    && (forall i, j :: 0 <= i < j < |table| ==> table[i].c < table[j].c)
    && (forall i :: 0 <= i < |table| ==> InCodes(table[i].variants))
  }

  predicate InCodes(cs: seq<int>) {
    forall j :: 0 <= j < |cs| ==> 0 <= cs[j] <= MAX_CP
  }

  /** `b` is listed as a variant of `a`. */
  ghost predicate Variant(table: seq<Entry>, a: int, b: int) {
    exists i :: 0 <= i < |table| && table[i].c == a && b in table[i].variants
  }

  /** A variant of a character of the set. */
  ghost predicate VariantOfSome(table: seq<Entry>, chars: CharSet, c: int) {
    exists a :: Holds(chars, a) && Variant(table, a, c)
  }

  /** The first entry that is not before `a`. */
  method FirstNotBefore(table: seq<Entry>, a: int) returns (k: nat)
    requires IsTable(table)
    ensures k <= |table| && (forall i :: 0 <= i < k ==> table[i].c < a) && (forall i :: k <= i < |table| ==> a <= table[i].c)
  {
    var lo, hi := 0, |table|;
    while lo < hi
      invariant 0 <= lo <= hi <= |table|
      invariant forall i :: 0 <= i < lo ==> table[i].c < a
      invariant forall i :: hi <= i < |table| ==> a <= table[i].c
    {
      var mid := (lo + hi) / 2;
      if table[mid].c < a {
        lo := mid + 1;
      } else {
        hi := mid;
      }
    }
    k := lo;
  }

  method IsCaseVariant(table: seq<Entry>, a: int, b: int) returns (r: bool)
    requires IsTable(table)
    ensures r <==> Variant(table, a, b)
  {
    var k := FirstNotBefore(table, a);
    r := k < |table| && table[k].c == a && b in table[k].variants;
    if Variant(table, a, b) {
      var i :| 0 <= i < |table| && table[i].c == a && b in table[i].variants;
      assert i >= k && (k < i ==> table[k].c < table[i].c);
    }
  }

  /** The variants of an entry, each as a range. */
  function Singles(cs: seq<int>): (rs: seq<Range>)
    ensures |rs| == |cs| && forall i :: 0 <= i < |cs| ==> rs[i] == Range(cs[i], cs[i])
  {
    seq(|cs|, i requires 0 <= i < |cs| => Range(cs[i], cs[i]))
  }

  lemma SinglesHold(cs: seq<int>)
    ensures forall c :: Holds(Singles(cs), c) <==> c in cs
  {
    forall c | c in cs ensures Holds(Singles(cs), c) {
      var i :| 0 <= i < |cs| && cs[i] == c;
      assert Singles(cs)[i].lo <= c <= Singles(cs)[i].hi;
    }
  }

  /** `c` is a variant in the entry of a character held, or in one of the entries from `from` to `k`. */
  ghost predicate OfEntries(table: seq<Entry>, held: seq<Range>, from: nat, k: nat, c: int) {
    exists i :: 0 <= i < |table| && (Holds(held, table[i].c) || from <= i < k) && c in table[i].variants
  }

  lemma OneMoreEntry(table: seq<Entry>, held: seq<Range>, from: nat, k: nat, extra: seq<Range>)
    requires from <= k < |table| && forall c :: Holds(extra, c) <==> OfEntries(table, held, from, k, c)
    ensures forall c :: Holds(extra + Singles(table[k].variants), c) <==> OfEntries(table, held, from, k + 1, c)
  {
    hide Holds;
    SinglesHold(table[k].variants);
    forall c ensures Holds(extra + Singles(table[k].variants), c) <==> OfEntries(table, held, from, k + 1, c) {
      HoldsConcat(extra, Singles(table[k].variants), c);
      if OfEntries(table, held, from, k + 1, c) {
        var i :| 0 <= i < |table| && (Holds(held, table[i].c) || from <= i < k + 1) && c in table[i].variants;
        assert i != k ==> OfEntries(table, held, from, k, c);
      }
      if OfEntries(table, held, from, k, c) {
        var i :| 0 <= i < |table| && (Holds(held, table[i].c) || from <= i < k) && c in table[i].variants;
        assert OfEntries(table, held, from, k + 1, c);
      }
    }
  }

  /** The entries from `from` to `k` are those of the range's characters. */
  lemma OneMoreRange(table: seq<Entry>, held: seq<Range>, r: Range, from: nat, k: nat, c: int)
    requires forall i :: 0 <= i < |table| ==> (from <= i < k <==> r.lo <= table[i].c <= r.hi)
    ensures OfEntries(table, held, from, k, c) <==> OfEntries(table, held + [r], 0, 0, c)
  {
    hide Holds;
    HoldsPush(held, r);
  }

  /** The set with the case variants of its characters, and the number of entries visited. */
  method CaseClosure(chars: CharSet, table: seq<Entry>) returns (out: CharSet, visited: nat)
    requires IsTable(table)
    ensures forall c :: Holds(out, c) <==> Holds(chars, c) || VariantOfSome(table, chars, c)
    ensures visited <= |chars| * |table|
  {
    hide Holds, VariantOfSome;
    var extra: seq<Range> := [];
    visited := 0;
    NothingHeldYet(table);
    for n := 0 to |chars|
      invariant InBounds(extra) && forall c :: Holds(extra, c) <==> OfEntries(table, chars[..n], 0, 0, c)
      invariant visited <= n * |table|
    {
      var r := chars[n];
      var from := FirstNotBefore(table, r.lo);
      var k := from;
      forall c ensures OfEntries(table, chars[..n], 0, 0, c) <==> OfEntries(table, chars[..n], from, from, c) {
      }
      while k < |table| && table[k].c <= r.hi
        invariant from <= k <= |table| && InBounds(extra) && visited <= n * |table| + (k - from)
        invariant forall i :: from <= i < k ==> table[i].c <= r.hi
        invariant forall c :: Holds(extra, c) <==> OfEntries(table, chars[..n], from, k, c)
      {
        OneMoreEntry(table, chars[..n], from, k, extra);
        visited := visited + 1;
        extra := extra + Singles(table[k].variants);
        k := k + 1;
      }
      forall i | k <= i < |table| ensures table[i].c > r.hi {
        assert k < i ==> table[k].c < table[i].c;
      }
      assert chars[..n + 1] == chars[..n] + [r];
      forall c ensures Holds(extra, c) <==> OfEntries(table, chars[..n + 1], 0, 0, c) {
        OneMoreRange(table, chars[..n], r, from, k, c);
      }
      assert (n + 1) * |table| == n * |table| + |table|;
    }
    assert chars[..|chars|] == chars;
    OfVariants(table, chars);
    if extra == [] {
      NothingHeldYet(table);
      out := chars;
    } else {
      var more := FromRanges(extra);
      out := Union(chars, more);
    }
  }

  lemma NothingHeldYet(table: seq<Entry>)
    ensures forall c :: !Holds([], c) && !OfEntries(table, [], 0, 0, c)
  {
  }

  lemma OfVariants(table: seq<Entry>, chars: CharSet)
    ensures forall c :: OfEntries(table, chars, 0, 0, c) <==> VariantOfSome(table, chars, c)
  {
    hide Holds;
    forall c ensures OfEntries(table, chars, 0, 0, c) <==> VariantOfSome(table, chars, c) {
      if OfEntries(table, chars, 0, 0, c) {
        var i :| 0 <= i < |table| && Holds(chars, table[i].c) && c in table[i].variants;
        assert Variant(table, table[i].c, c);
      }
      if VariantOfSome(table, chars, c) {
        var a :| Holds(chars, a) && Variant(table, a, c);
        var i :| 0 <= i < |table| && table[i].c == a && c in table[i].variants;
      }
    }
  }
}
