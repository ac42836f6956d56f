/**
 * Bit-vectors ("vobs") over the pattern index space, and the two loops of
 * lex.rs that inspect them (`vob_is_zero`, `vob_and_is_zero`).
 *
 * A vob is modelled bit by bit as a `seq<bool>`; the external crate's word
 * storage is not modelled. Scanning the words of the storage and scanning the
 * bits agree, because the unused bits of the last word are always clear.
 */
module Vobs {

  type Vob = seq<bool>

  /** The all-zero vob of `n` bits, as `vob![false; n]` builds it. */
  function Zeros(n: nat): (v: Vob)
    ensures |v| == n && forall i :: 0 <= i < n ==> !v[i]
  {
    seq(n, _ => false)
  }

  /** No bit of `v` is set. */
  predicate IsZero(v: Vob)
  {
    forall i :: 0 <= i < |v| ==> !v[i]
  }

  /**
   * No bit position is set in both `a` and `b`. Positions beyond the shorter
   * vob are not compared, as the zip over the two storages does not.
   */
  predicate Disjoint(a: Vob, b: Vob)
  {
    forall i :: 0 <= i < |a| && i < |b| ==> !(a[i] && b[i])
  }

  /** Every bit set in `a` is set in `b`. */
  predicate Subset(a: Vob, b: Vob)
  {
    |a| == |b| && forall i :: 0 <= i < |a| ==> a[i] ==> b[i]
  }

  /** Bitwise or, `tmp |= theirs` on vobs of equal length. */
  function Union(a: Vob, b: Vob): (r: Vob)
    requires |a| == |b|
    ensures |r| == |a|
    ensures Subset(a, r) && Subset(b, r)
    ensures forall i :: 0 <= i < |r| && r[i] ==> a[i] || b[i]
  {
    seq(|a|, i requires 0 <= i < |a| => a[i] || b[i])
  }

  lemma DisjointSymmetric(a: Vob, b: Vob)
    ensures Disjoint(a, b) == Disjoint(b, a)
  {
  }

  /** The union of `a` into `b` leaves `b` as it is exactly when `a` is already part of `b`. */
  lemma UnionUnchangedIffSubset(a: Vob, b: Vob)
    requires |a| == |b|
    ensures Union(a, b) == b <==> Subset(a, b)
  {
    if Union(a, b) == b {
      forall i | 0 <= i < |a| && a[i] ensures b[i] {
        assert Union(a, b)[i];
      }
    }
  }

  lemma SubsetTransitive(a: Vob, b: Vob, c: Vob)
    requires Subset(a, b) && Subset(b, c)
    ensures Subset(a, c)
  {
  }

  /** A strictly larger superset has a bit its subset lacks. */
  lemma NewBit(a: Vob, b: Vob) returns (i: nat)
    requires Subset(a, b) && a != b
    ensures i < |a| && b[i] && !a[i]
  {
    i :| 0 <= i < |a| && a[i] != b[i];
  }

  /** `vob_is_zero`: an early-exit scan for a set bit. */
  method VobIsZero(v: Vob) returns (r: bool)
    ensures r <==> IsZero(v)
  {
    var i := 0;
    while i < |v|
      invariant 0 <= i <= |v|
      invariant forall k :: 0 <= k < i ==> !v[k]
    {
      if v[i] {
        return false;
      }
      i := i + 1;
    }
    return true;
  }

  /** `vob_and_is_zero`: an early-exit scan for a position set in both vobs. */
  method VobAndIsZero(a: Vob, b: Vob) returns (r: bool)
    ensures r <==> Disjoint(a, b)
  {
    var i := 0;
    while i < |a| && i < |b|
      invariant 0 <= i
      invariant i <= |a| && i <= |b|
      invariant forall k :: 0 <= k < i ==> !(a[k] && b[k])
    {
      if a[i] && b[i] {
        return false;
      }
      i := i + 1;
    }
    return true;
  }
}
