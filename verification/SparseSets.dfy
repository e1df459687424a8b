/** A set of small integers with constant-time insertion, membership and clearing. */
module SparseSets {

  /** Distinct numbers below `n` are at most `n`. */
  lemma {:induction false} DistinctFit(s: seq<nat>, n: nat)
    requires forall i :: 0 <= i < |s| ==> s[i] < n
    requires forall i, j :: 0 <= i < j < |s| ==> s[i] != s[j]
    ensures |s| <= n
    decreases n
  {
    if s == [] {
      return;
    }
    assert s[0] < n;
    if j :| 0 <= j < |s| && s[j] == n - 1 {
      DistinctFit(s[..j] + s[j + 1..], n - 1);
    } else {
      DistinctFit(s, n - 1);
    }
  }

  class SparseSet {
    const dense: array<nat>
    const sparse: array<nat>
    var len: nat

    ghost predicate Valid()
      reads this, dense, sparse
    {
      && dense != sparse && dense.Length == sparse.Length && len <= dense.Length
      && forall i :: 0 <= i < len ==> dense[i] < dense.Length && sparse[dense[i]] == i
    }

    /** The members, in the order of insertion. */
    ghost function Contents(): seq<nat>
      requires Valid()
      reads this, dense, sparse
    {
      dense[..len]
    }

    constructor (n: nat)
      ensures Valid() && Contents() == [] && dense.Length == n && fresh(dense) && fresh(sparse)
    {
      dense := new nat[n](_ => 0);
      sparse := new nat[n](_ => 0);
      len := 0;
    }

    /** Inserts `x`; false if it was there. */
    method Insert(x: nat) returns (added: bool)
      requires Valid() && x < dense.Length
      modifies this`len, dense, sparse
      ensures Valid() && added == (x !in old(Contents()))
      ensures Contents() == old(Contents()) + if added then [x] else []
    {
      var i := sparse[x];
      if i < len && dense[i] == x {
        assert x in Contents();
        return false;
      }
      DistinctFit(Contents() + [x], dense.Length);
      dense[len] := x;
      sparse[x] := len;
      len := len + 1;
      added := true;
    }

    method Clear()
      requires Valid()
      modifies this`len
      ensures Valid() && Contents() == []
    {
      len := 0;
    }
  }
}
