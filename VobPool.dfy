/**
 * The bitset interning pool of lex.rs (`VobIdx`, `VobSet`): identical vobs
 * are stored once and named by a dense handle; handle 0 is the all-zero vob.
 */
module VobPool {
  import opened Vobs

  /** A handle into the pool. */
  datatype VobIdx = VobIdx(idx: nat) {
    /** `VobIdx::is_zero`: handle 0 is the "no pattern possible" sentinel. */
    predicate IsZero()
    {
      idx == 0
    }
  }

  /**
   * What every pool keeps: no vob is stored twice, so distinct handles name
   * distinct contents, and the vob at handle 0, when there is one, is all-zero.
   */
  predicate WellFormedPool(vobs: seq<Vob>)
  {
    (forall i, j :: 0 <= i < j < |vobs| ==> vobs[i] != vobs[j]) &&
    (|vobs| > 0 ==> IsZero(vobs[0]))
  }

  /**
   * On a pool whose vobs all have one width, handle `h` is the zero handle
   * exactly when the vob it names has no bit set.
   */
  lemma ZeroHandleIffEmpty(vobs: seq<Vob>, h: VobIdx)
    requires WellFormedPool(vobs)
    requires h.idx < |vobs| && |vobs[h.idx]| == |vobs[0]|
    ensures h.IsZero() <==> IsZero(vobs[h.idx])
  {
  }

  /** `Vob::resize(n, false)`: truncate to `n` bits, or extend with clear bits. */
  function Resize(bits: seq<bool>, n: nat): (r: seq<bool>)
    ensures |r| == n
    ensures forall k :: 0 <= k < n ==> r[k] == (k < |bits| && bits[k])
  {
    if n <= |bits| then bits[..n] else bits + seq(n - |bits|, _ => false)
  }


  /** A positive multiple of `l` is at least `l`. */
  lemma MulAtLeast(q: int, l: int)
    requires q >= 1 && l > 0
    ensures q * l >= l
  {
    assert q * l == (q - 1) * l + l;
  }

  /** Euclidean division by `l` is determined by quotient and remainder. */
  lemma DivModUnique(n: int, l: int, q: int, r: int)
    requires l > 0 && 0 <= r < l && n == q * l + r
    ensures n / l == q && n % l == r
  {
    var q', r' := n / l, n % l;
    assert n == q' * l + r';
    assert (q - q') * l == r' - r;
    if q > q' {
      MulAtLeast(q - q', l);
    } else if q < q' {
      MulAtLeast(q' - q, l);
    }
  }

  lemma RowMajorBounds(x: nat, y: nat, l: nat)
    requires x < l && y < l
    ensures x * l + y < l * l
    ensures (x * l + y) / l == x && (x * l + y) % l == y
  {
    MulAtLeast(l - x, l);
    assert l * l == x * l + (l - x) * l;
    DivModUnique(x * l + y, l, x, y);
  }

  /**
   * The position of the pair `(x, y)` in an `l` by `l` matrix stored row by
   * row; division by `l` recovers the pair.
   */
  function Cell(x: nat, y: nat, l: nat): (k: nat)
    ensures x < l && y < l ==> k < l * l && k / l == x && k % l == y
  {
    if x < l && y < l then RowMajorBounds(x, y, l); x * l + y else x * l + y
  }

  lemma CellOf(k: nat, l: nat)
    requires k < l * l
    ensures k / l < l && k % l < l && Cell(k / l, k % l, l) == k
  {
    assert l > 0;
    var q, r := k / l, k % l;
    assert k == q * l + r;
    if q >= l {
      MulAtLeast(q, l);
      MulAtLeast(q - l + 1, l);
    }
  }

  /** Position `k` of the matrix holds two interned vobs that share a set bit. */
  predicate Meets(vobs: seq<Vob>, k: nat)
    requires k < |vobs| * |vobs|
  {
    CellOf(k, |vobs|);
    !Disjoint(vobs[k / |vobs|], vobs[k % |vobs|])
  }

  /** The matrix `bits` after the nested loop of `pre_compute` has run over it. */
  function AfterFill(bits: seq<bool>, vobs: seq<Vob>): (r: seq<bool>)
    requires |bits| == |vobs| * |vobs|
    ensures |r| == |bits|
  {
    seq(|bits|, k requires 0 <= k < |bits| => bits[k] || Meets(vobs, k))
  }

  /** `non_empty` after `pre_compute`, as written: resized, then filled. */
  function AfterPreCompute(bits: seq<bool>, vobs: seq<Vob>): (r: seq<bool>)
    ensures |r| == |vobs| * |vobs|
  {
    AfterFill(Resize(bits, |vobs| * |vobs|), vobs)
  }

  /** The intended matrix: position `(x, y)` set iff `vobs[x]` and `vobs[y]` share a bit. */
  function IntersectionMatrix(vobs: seq<Vob>): (r: seq<bool>)
    ensures |r| == |vobs| * |vobs|
  {
    AfterFill(Zeros(|vobs| * |vobs|), vobs)
  }

  lemma IntersectionMatrixSymmetric(vobs: seq<Vob>, x: nat, y: nat)
    requires x < |vobs| && y < |vobs|
    ensures IntersectionMatrix(vobs)[Cell(x, y, |vobs|)] == !Disjoint(vobs[x], vobs[y])
    ensures IntersectionMatrix(vobs)[Cell(y, x, |vobs|)] == !Disjoint(vobs[x], vobs[y])
  {
    var l := |vobs|;
    DisjointSymmetric(vobs[x], vobs[y]);
  }

  /**
   * Starting from a matrix with no bit set (the `non_empty` of a new pool),
   * `pre_compute` yields exactly the intersection matrix.
   */
  lemma PreComputeFromClearExact(bits: seq<bool>, vobs: seq<Vob>)
    requires forall k :: 0 <= k < |bits| ==> !bits[k]
    ensures AfterPreCompute(bits, vobs) == IntersectionMatrix(vobs)
  {
    var n := |vobs| * |vobs|;
    assert Resize(bits, n) == Zeros(n);
  }

  /**
   * As written, a second `pre_compute` after the pool has grown keeps the old
   * bits: here the bit of pair (1, 0) survives from the 2-by-2 matrix, where
   * it was the bit of pair (1, 1), although `vobs[1]` and `vobs[0]` share no bit.
   */
  lemma StaleBitAfterGrowth()
    ensures var v2 := [[false, false], [true, false]];
            var v3 := v2 + [[false, true]];
            var m := AfterPreCompute(AfterPreCompute([], v2), v3);
            m[Cell(1, 0, 3)] && Disjoint(v3[1], v3[0]) && !IntersectionMatrix(v3)[Cell(1, 0, 3)]
  {
    var v2: seq<Vob> := [[false, false], [true, false]];
    var v3 := v2 + [[false, true]];
    var m2 := AfterPreCompute([], v2);
    CellOf(3, 2);
    assert v2[1][0] && v2[1][0];
    assert Meets(v2, 3);
    assert m2[3];
    var m3 := AfterPreCompute(m2, v3);
    assert Resize(m2, 9)[3];
    assert m3[3];
    CellOf(3, 3);
    assert !Meets(v3, 3);
    assert Cell(1, 0, 3) == 3;
  }

  /** The bits of `m` are those of `bits`, plus the meeting pairs visited by row `x`, column `y`. */
  predicate FilledUpTo(m: seq<bool>, bits: seq<bool>, vobs: seq<Vob>, x: nat, y: nat)
    requires |m| == |bits| == |vobs| * |vobs|
  {
    var l := |vobs|;
    forall a, b :: 0 <= a < l && 0 <= b < l ==>
      m[Cell(a, b, l)] == (bits[Cell(a, b, l)] || (Filled(a, b, x, y) && !Disjoint(vobs[a], vobs[b])))
  }

  /** One step of the inner loop visits the pairs `(x, y)` and `(y, x)`. */
  lemma FillStep(vobs: seq<Vob>, bits: seq<bool>, prev: seq<bool>, x: nat, y: nat)
    requires y <= x < |vobs|
    requires |prev| == |bits| == |vobs| * |vobs|
    requires FilledUpTo(prev, bits, vobs, x, y)
    ensures var l := |vobs|;
            var m := if Disjoint(vobs[x], vobs[y]) then prev
                     else prev[Cell(x, y, l) := true][Cell(y, x, l) := true];
            |m| == |bits| && FilledUpTo(m, bits, vobs, x, y + 1)
  {
    var l := |vobs|;
    var m := if Disjoint(vobs[x], vobs[y]) then prev
             else prev[Cell(x, y, l) := true][Cell(y, x, l) := true];
    forall a, b | 0 <= a < l && 0 <= b < l
      ensures m[Cell(a, b, l)] == (bits[Cell(a, b, l)] || (Filled(a, b, x, y + 1) && !Disjoint(vobs[a], vobs[b])))
    {
      DisjointSymmetric(vobs[a], vobs[b]);
    }
  }

  /** Once every row is visited, the matrix is `AfterFill`. */
  lemma FillDone(vobs: seq<Vob>, bits: seq<bool>, m: seq<bool>)
    requires |m| == |bits| == |vobs| * |vobs|
    requires FilledUpTo(m, bits, vobs, |vobs|, 0)
    ensures m == AfterFill(bits, vobs)
  {
    var l := |vobs|;
    forall k | 0 <= k < l * l ensures m[k] == AfterFill(bits, vobs)[k] {
      CellOf(k, l);
    }
  }

  /**
   * The nested loop of `pre_compute`: for every pair `y <= x` whose vobs share
   * a bit, set the bits of `(x, y)` and `(y, x)`.
   */
  method FillIntersections(vobs: seq<Vob>, bits: seq<bool>) returns (m: seq<bool>)
    requires |bits| == |vobs| * |vobs|
    ensures m == AfterFill(bits, vobs)
  {
    var l := |vobs|;
    m := bits;
    for x := 0 to l
      invariant |m| == l * l
      invariant FilledUpTo(m, bits, vobs, x, 0)
    {
      for y := 0 to x + 1
        invariant |m| == l * l
        invariant FilledUpTo(m, bits, vobs, x, y)
      {
        FillStep(vobs, bits, m, x, y);
        var disjoint := VobAndIsZero(vobs[x], vobs[y]);
        if !disjoint {
          m := m[Cell(x, y, l) := true][Cell(y, x, l) := true];
        }
      }
      assert FilledUpTo(m, bits, vobs, x + 1, 0);
    }
    FillDone(vobs, bits, m);
  }

  /** Pair `(a, b)` has been visited once the loop stands at row `x`, column `y`. */
  predicate Filled(a: nat, b: nat, x: nat, y: nat)
  {
    var hi := if a < b then b else a;
    var lo := if a < b then a else b;
    hi < x || (hi == x && lo < y)
  }

  class VobSet {
    var vobs: seq<Vob>
    var byVob: map<Vob, VobIdx>
    var nonEmpty: seq<bool>

    /** `by_vob` is the inverse of `vobs`, and the pool is well formed. */
    ghost predicate Valid()
      reads this
    {
      WellFormedPool(vobs) &&
      (forall v :: v in byVob <==> v in vobs) &&
      (forall v :: v in byVob ==> byVob[v].idx < |vobs| && vobs[byVob[v].idx] == v)
    }

    /** `VobSet::new`: an empty pool. */
    constructor ()
      ensures Valid()
      ensures vobs == [] && byVob == map[] && nonEmpty == []
    {
      vobs := [];
      byVob := map[];
      nonEmpty := [];
    }

    /**
     * `VobSet::get`: the handle of `vob`, interning it first when it is new.
     * The source panics ("first vob must be empty") when a vob with a set bit
     * would become handle 0; that call is excluded by the second precondition.
     */
    method Get(vob: Vob) returns (idx: VobIdx)
      requires Valid()
      requires |vobs| == 0 ==> IsZero(vob)
      modifies this
      ensures Valid()
      ensures idx.idx < |vobs| && vobs[idx.idx] == vob
      ensures old(vob in byVob) ==> vobs == old(vobs) && byVob == old(byVob) && idx == old(byVob[vob])
      ensures old(vob !in byVob) ==>
        idx.idx == old(|vobs|) && vobs == old(vobs) + [vob] && byVob == old(byVob)[vob := idx]
      ensures nonEmpty == old(nonEmpty)
    {
      if vob in byVob {
        return byVob[vob];
      }
      var len := |vobs|;
      if len == 0 {
        var zero := VobIsZero(vob);
        if !zero {
          assert false;
        }
      }
      idx := VobIdx(len);
      vobs := vobs + [vob];
      byVob := byVob[vob := idx];
    }

    /** `VobSet::and_is_zero`: whether the two interned vobs share no set bit. */
    method AndIsZero(a: VobIdx, b: VobIdx) returns (r: bool)
      requires a.idx < |vobs| && b.idx < |vobs|
      ensures r <==> Disjoint(vobs[a.idx], vobs[b.idx])
    {
      r := VobAndIsZero(vobs[a.idx], vobs[b.idx]);
    }

    /**
     * `VobSet::pre_compute`, as written: `non_empty` is resized, which keeps
     * its old bits, and then the intersecting pairs are set.
     */
    method PreCompute()
      modifies this
      ensures vobs == old(vobs) && byVob == old(byVob)
      ensures nonEmpty == AfterPreCompute(old(nonEmpty), vobs)
    {
      var l := |vobs|;
      nonEmpty := FillIntersections(vobs, Resize(nonEmpty, l * l));
    }

    /** `pre_compute` with the matrix cleared first: the exact intersection matrix. */
    method PreComputeCleared()
      modifies this
      ensures vobs == old(vobs) && byVob == old(byVob)
      ensures nonEmpty == IntersectionMatrix(vobs)
      ensures forall x, y :: 0 <= x < |vobs| && 0 <= y < |vobs| ==>
        nonEmpty[Cell(x, y, |vobs|)] == nonEmpty[Cell(y, x, |vobs|)] == !Disjoint(vobs[x], vobs[y])
    {
      var l := |vobs|;
      nonEmpty := FillIntersections(vobs, Zeros(l * l));
      forall x, y | 0 <= x < l && 0 <= y < l
        ensures nonEmpty[Cell(x, y, l)] == nonEmpty[Cell(y, x, l)] == !Disjoint(vobs[x], vobs[y])
      {
        IntersectionMatrixSymmetric(vobs, x, y);
      }
    }
  }
}
