/** The two index-mapped accessors the extraction reads through: a vector
    accessor over a list of flat positions and a sub-matrix accessor over a
    row list and a column list. Both hold 0-based indices; the 1-based lists a
    caller passes are shifted down by one exactly once, when the accessor is
    built. The accessors check no bounds, so in-range indices are a
    precondition of reading. */
module Accessors {
  import opened FileBackedMatrix

  /** Every index of `ind0` is a 0-based position below `bound`. */
  predicate InRange0(ind0: seq<int>, bound: nat)
  {
    forall k :: 0 <= k < |ind0| ==> 0 <= ind0[k] < bound
  }

  /** Every index of `ind` is a 1-based position in `[1, bound]`. */
  predicate InRange1(ind: seq<int>, bound: nat)
  {
    forall k :: 0 <= k < |ind| ==> 1 <= ind[k] <= bound
  }

  /** The shift `ind - 1` applied to an index list before an accessor is
      built. It loses nothing: shifting back up gives the caller's list, and
      the list is in `[1, bound]` exactly when its shift is in `[0, bound)`,
      so the accessors' 0-based bounds are the caller's 1-based ones. */
  function ToZeroBased(ind: seq<int>): (ind0: seq<int>)
    ensures |ind0| == |ind|
    ensures forall k :: 0 <= k < |ind| ==> ind0[k] + 1 == ind[k]
    ensures ToOneBased(ind0) == ind
    ensures forall bound: nat :: InRange1(ind, bound) <==> InRange0(ind0, bound)
  {
    seq(|ind|, k requires 0 <= k < |ind| => ind[k] - 1)
  }

  /** The caller's 1-based view of a 0-based list. */
  function ToOneBased(ind0: seq<int>): (ind: seq<int>)
    ensures |ind| == |ind0|
    ensures forall k :: 0 <= k < |ind0| ==> ind[k] - 1 == ind0[k]
  {
    seq(|ind0|, k requires 0 <= k < |ind0| => ind0[k] + 1)
  }

  /** Every 0-based list is the shift of exactly one 1-based list, so the
      shift is a bijection between the two conventions. */
  lemma ShiftRoundTrip(ind0: seq<int>)
    ensures ToZeroBased(ToOneBased(ind0)) == ind0
  {
  }

  /** `VecBMAcc`: element `k` is the stored element at flat position
      `ind0[k]`. */
  datatype VecAcc<T> = VecAcc(fbm: Fbm<T>, ind0: seq<int>)
  {
    predicate Valid()
    {
      fbm.Valid() && InRange0(ind0, fbm.Size())
    }

    /** Number of selected elements. */
    function Nelem(): nat
    {
      |ind0|
    }

    function Get(k: int): T
      requires Valid() && 0 <= k < Nelem()
    {
      fbm.data[ind0[k]]
    }
  }

  /** `SubBMAcc`: element `(i, j)` is the stored element at row `row0[i]` and
      column `col0[j]` of the matrix. */
  datatype SubAcc<T> = SubAcc(fbm: Fbm<T>, row0: seq<int>, col0: seq<int>)
  {
    predicate Valid()
    {
      fbm.Valid() && InRange0(row0, fbm.nrow) && InRange0(col0, fbm.ncol)
    }

    /** Number of selected rows. */
    function Nrow(): nat
    {
      |row0|
    }

    /** Number of selected columns. */
    function Ncol(): nat
    {
      |col0|
    }

    function Get(i: int, j: int): T
      requires Valid() && 0 <= i < Nrow() && 0 <= j < Ncol()
    {
      fbm.data[Offset(fbm.nrow, fbm.ncol, row0[i], col0[j])]
    }
  }

  /** `VecBMAcc<T>(xpBM, elemInd - 1)`: the accessor over 1-based flat
      positions. It has one element per position, it is readable exactly when
      every position is in `[1, nrow * ncol]`, and element `k` is the stored
      element at 1-based position `elemInd[k]`. */
  function MakeVecAcc<T>(fbm: Fbm<T>, elemInd: seq<int>): (acc: VecAcc<T>)
    ensures acc.fbm == fbm && acc.Nelem() == |elemInd|
    ensures acc.Valid() <==> fbm.Valid() && InRange1(elemInd, fbm.Size())
    ensures acc.Valid() ==>
              forall k :: 0 <= k < |elemInd| ==> acc.Get(k) == fbm.data[elemInd[k] - 1]
  {
    VecAcc(fbm, ToZeroBased(elemInd))
  }

  /** `SubBMAcc<T>(xpBM, rowInd - 1, colInd - 1)`: the accessor over 1-based
      row and column lists. Its shape is the lists' lengths, it is readable
      exactly when every row is in `[1, nrow]` and every column in
      `[1, ncol]`, and element `(i, j)` is the stored element in row
      `rowInd[i]` and column `colInd[j]`, both 1-based. */
  function MakeSubAcc<T>(fbm: Fbm<T>, rowInd: seq<int>, colInd: seq<int>): (acc: SubAcc<T>)
    ensures acc.fbm == fbm
    ensures acc.Nrow() == |rowInd| && acc.Ncol() == |colInd|
    ensures acc.Valid() <==>
              fbm.Valid() && InRange1(rowInd, fbm.nrow) && InRange1(colInd, fbm.ncol)
    ensures acc.Valid() ==>
              forall i, j :: 0 <= i < |rowInd| && 0 <= j < |colInd| ==>
                acc.Get(i, j) == fbm.data[Offset(fbm.nrow, fbm.ncol, rowInd[i] - 1, colInd[j] - 1)]
  {
    SubAcc(fbm, ToZeroBased(rowInd), ToZeroBased(colInd))
  }
}
