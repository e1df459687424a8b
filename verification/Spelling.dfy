/** Writing replacement strings: what is written for text and for groups is read back. */
module Spelling {
  import opened Options
  import opened Decimals
  import opened Replacements

  /** Text as a replacement string: a backslash before every backslash and dollar sign. */
  function Escaped(text: string): string {
    if text == "" then "" else (if text[0] == '\\' || text[0] == '$' then ['\\', text[0]] else [text[0]]) + Escaped(text[1..])
  }

  /** What is written on reads alike wherever it stands. */
  predicate StandsAt(text: string, i: nat, part: string) {
    i <= |text| && |text| - i == |part| && text[i..] == part
  }

  /** Text that was escaped stands for itself. */
  lemma {:induction false} EscapedReads(t: string, text: string, i: nat, groups: nat)
    requires StandsAt(text, i, Escaped(t))
    ensures Pieces(text, i, groups) == Some(Letters(t))
    decreases |t|
  {
    if t == "" {
      assert Letters(t) == [];
    } else {
      var n := if t[0] == '\\' || t[0] == '$' then 2 else 1;
      assert text[i] == text[i..][0] == Escaped(t)[0];
      if n == 2 {
        assert text[i + 1] == text[i..][1] == Escaped(t)[1] == t[0];
      }
      assert text[i + n..] == text[i..][n..] == Escaped(t)[n..] == Escaped(t[1..]);
      EscapedReads(t[1..], text, i + n, groups);
      assert Letters(t) == [Letter(t[0])] + Letters(t[1..]);
    }
  }

  /** A dollar sign and a number for each group. */
  function Dollars(ns: seq<nat>): string {
    if ns == [] then "" else "$" + Decimal(ns[0]) + Dollars(ns[1..])
  }

  function Refs(ns: seq<nat>): (ps: seq<Piece>)
    ensures |ps| == |ns| && forall i :: 0 <= i < |ns| ==> ps[i] == Ref(ns[i])
  {
    seq(|ns|, i requires 0 <= i < |ns| => Ref(ns[i]))
  }

  lemma {:induction false} DecimalIsDigits(n: nat)
    ensures AllDigits(Decimal(n)) && Value(Decimal(n)) == n && Decimal(n) != ""
    decreases n
  {
    DecimalParts(n);
    var s := Decimal(n);
    DigitValue(n % 10);
    if n < 10 {
      assert s[..0] == "";
    } else {
      DecimalIsDigits(n / 10);
      assert s == s[..|s| - 1] + [s[|s| - 1]];
    }
  }

  lemma DigitValue(d: nat)
    requires d < 10
    ensures IsDigit(Digit(d)) && Digit(d) as int - '0' as int == d
  {
  }

  lemma {:induction false} DigitsEnd(text: string, i: nat, digits: string)
    requires i + |digits| <= |text| && text[i..i + |digits|] == digits && AllDigits(digits)
    requires i + |digits| < |text| ==> text[i + |digits|] == '$'
    ensures DigitsAt(text, i) == |digits|
    decreases |digits|
  {
    if digits != "" {
      assert text[i] == text[i..i + |digits|][0] == digits[0];
      assert text[i + 1..i + |digits|] == text[i..i + |digits|][1..] == digits[1..];
      DigitsEnd(text, i + 1, digits[1..]);
    }
  }

  /** References to groups there are stand for those groups, however many digits their numbers have. */
  lemma {:induction false} DollarsRead(ns: seq<nat>, text: string, i: nat, groups: nat)
    requires StandsAt(text, i, Dollars(ns)) && forall k :: 0 <= k < |ns| ==> ns[k] <= groups
    ensures Pieces(text, i, groups) == Some(Refs(ns))
    decreases |ns|
  {
    hide Decimal, Pieces, StandsAt;
    if ns == [] {
      assert Refs(ns) == [];
      NothingLeft(text, i, groups);
    } else {
      DollarsBegin(ns[1..]);
      var j := OneReference(text, i, ns[0], Dollars(ns[1..]), groups);
      DollarsRead(ns[1..], text, j, groups);
      assert Refs(ns) == [Ref(ns[0])] + Refs(ns[1..]);
    }
  }

  lemma OneReference(text: string, i: nat, n: nat, rest: string, groups: nat) returns (j: nat)
    requires StandsAt(text, i, "$" + Decimal(n) + rest) && (rest != "" ==> rest[0] == '$') && n <= groups
    ensures StandsAt(text, j, rest) && j <= |text| && i <= |text| && Pieces(text, i, groups) == Prepend([Ref(n)], Pieces(text, j, groups))
  {
    hide Decimal, Value, Kept, Pieces, AllDigits;
    var digits := Decimal(n);
    DecimalIsDigits(n);
    ReferenceStands(text, i, digits, rest);
    j := i + 1 + |digits|;
    DigitsEnd(text, i + 1, digits);
    KeptWhole(digits, groups);
    PiecesAtReference(text, i, groups);
  }

  /** Where a reference and what follows it stand. */
  lemma ReferenceStands(text: string, i: nat, digits: string, rest: string)
    requires StandsAt(text, i, "$" + digits + rest) && (rest != "" ==> rest[0] == '$')
    ensures var j := i + 1 + |digits|;
            && j <= |text| && text[i] == '$' && text[i + 1..j] == digits && StandsAt(text, j, rest) && (j < |text| ==> text[j] == '$')
  {
    var part, d := "$" + digits + rest, |digits|;
    assert text[i] == text[i..][0] == part[0];
    assert text[i + 1..i + 1 + d] == text[i..][1..1 + d] == part[1..1 + d];
    assert part[1..1 + d] == digits && part[1 + d..] == rest;
    assert text[i + 1 + d..] == text[i..][1 + d..] == part[1 + d..];
    if rest != "" {
      assert text[i + 1 + d] == text[i + 1 + d..][0];
    }
  }

  lemma NothingLeft(text: string, i: nat, groups: nat)
    requires StandsAt(text, i, "")
    ensures i <= |text| && Pieces(text, i, groups) == Some([])
  {
  }

  lemma KeptWhole(ds: string, groups: nat)
    requires AllDigits(ds) && Value(ds) <= groups
    ensures Kept(ds, groups) == |ds|
  {
  }

  lemma DollarsBegin(ns: seq<nat>)
    ensures Dollars(ns) != "" ==> Dollars(ns)[0] == '$'
  {
  }
}
