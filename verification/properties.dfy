/** Properties that relate several extractions: output order follows input
    order, duplicates are re-read, extracting every row and column agrees
    with extracting every flat position, and two worked examples. */
module ExtractProperties {
  import opened MatrixType
  import opened FileBackedMatrix
  import opened Accessors
  import opened Extract

  /** The 1-based positions `1..n`, in order. */
  function OneTo(n: nat): seq<int>
  {
    seq(n, k requires 0 <= k < n => k + 1)
  }

  /** The entries of `s` at the 0-based positions `p`, in the order of `p`;
      `p` may repeat or leave out positions. */
  function Reorder<U>(s: seq<U>, p: seq<int>): seq<U>
    requires forall t :: 0 <= t < |p| ==> 0 <= p[t] < |s|
  {
    seq(|p|, t requires 0 <= t < |p| => s[p[t]])
  }

  /** Extraction distributes over concatenation of index lists: the results
      of the two halves appear in the order the halves were given. */
  lemma GatherAppend<T>(data: seq<T>, a: seq<int>, b: seq<int>)
    requires InRange1(a, |data|) && InRange1(b, |data|)
    ensures InRange1(a + b, |data|)
    ensures Gather(data, a + b) == Gather(data, a) + Gather(data, b)
  {
  }

  /** Rearranging an index list rearranges the result the same way: there
      is no sorting, and a position listed twice is read twice. */
  lemma GatherReorder<T>(data: seq<T>, ind: seq<int>, p: seq<int>)
    requires InRange1(ind, |data|)
    requires forall t :: 0 <= t < |p| ==> 0 <= p[t] < |ind|
    ensures InRange1(Reorder(ind, p), |data|)
    ensures Gather(data, Reorder(ind, p)) == Reorder(Gather(data, ind), p)
  {
  }

  /** Equal positions give equal elements, wherever they sit in the list. */
  lemma GatherDuplicates<T>(data: seq<T>, ind: seq<int>, a: int, b: int)
    requires InRange1(ind, |data|)
    requires 0 <= a < |ind| && 0 <= b < |ind| && ind[a] == ind[b]
    ensures Gather(data, ind)[a] == Gather(data, ind)[b]
  {
  }

  /** Extracting every flat position in order reproduces the storage. */
  lemma GatherAll<T>(data: seq<T>)
    ensures InRange1(OneTo(|data|), |data|)
    ensures Gather(data, OneTo(|data|)) == data
  {
  }

  /** Extracting all rows `1..nrow` and all columns `1..ncol` as a matrix
      gives, flattened column-major, exactly what extracting all flat
      positions `1..nrow * ncol` as a vector gives. */
  lemma {:induction false} FullSelectionIsFullGather<T>(fbm: Fbm<T>, res: DenseMat<T>)
    requires fbm.Valid()
    requires InRange1(OneTo(fbm.nrow), fbm.nrow) && InRange1(OneTo(fbm.ncol), fbm.ncol)
    requires IsSelection(res, fbm, OneTo(fbm.nrow), OneTo(fbm.ncol))
    ensures InRange1(OneTo(fbm.Size()), |fbm.data|)
    ensures res.data == Gather(fbm.data, OneTo(fbm.Size()))
  {
    forall p | 0 <= p < |res.data|
      ensures res.data[p] == fbm.data[p]
    {
      var cell := CellOf(fbm.nrow, fbm.ncol, p);
      var i, j := cell.0, cell.1;
      var rows, cols := OneTo(fbm.nrow), OneTo(fbm.ncol);
      assert rows[i] - 1 == i && cols[j] - 1 == j;
      assert res.At(i, j) == fbm.data[Offset(fbm.nrow, fbm.ncol, rows[i] - 1, cols[j] - 1)];
      assert res.At(i, j) == res.data[p];
    }
    assert res.data == fbm.data;
    GatherAll(fbm.data);
  }

  /** The two entry points, run over every element of a matrix, return the
      same values in the same order: the vector fill over `1..nrow * ncol`
      and the column-major matrix fill over all rows and columns. */
  method ExtractAllBothWays<T(0)>(fbm: Fbm<T>) returns (v: Result<DenseVec<T>>, m: Result<DenseMat<T>>)
    requires fbm.Valid()
    ensures v.Ok? <==> IsKnownCode(fbm.typeCode)
    ensures m.Ok? <==> IsKnownCode(fbm.typeCode)
    ensures v.Ok? && m.Ok? ==> v.value.kind == m.value.kind
    ensures v.Ok? && m.Ok? ==> m.value.data == v.value.values == fbm.data
  {
    assert InRange1(OneTo(fbm.Size()), fbm.Size());
    assert InRange1(OneTo(fbm.nrow), fbm.nrow) && InRange1(OneTo(fbm.ncol), fbm.ncol);
    v := ExtractVec(fbm, OneTo(fbm.Size()));
    m := ExtractMat(fbm, OneTo(fbm.nrow), OneTo(fbm.ncol));
    if m.Ok? {
      FullSelectionIsFullGather(fbm, m.value);
    }
    GatherAll(fbm.data);
  }

  /** A 3 by 2 matrix of unsigned chars holding 10, 20, ..., 60
      column-major. */
  function Example(): Fbm<int>
  {
    Fbm(1, 3, 2, [10, 20, 30, 40, 50, 60])
  }

  /** Positions 4, 4, 1 of the example read 40, 40, 10. */
  lemma ExampleVector()
    ensures Example().Valid() && InRange1([4, 4, 1], |Example().data|)
    ensures Gather(Example().data, [4, 4, 1]) == [40, 40, 10]
  {
  }

  /** A selection is determined by the matrix and the index lists: two
      results that both meet it hold the same values. */
  lemma SelectionUnique<T>(fbm: Fbm<T>, rowInd: seq<int>, colInd: seq<int>,
                           a: DenseMat<T>, b: DenseMat<T>)
    requires fbm.Valid() && InRange1(rowInd, fbm.nrow) && InRange1(colInd, fbm.ncol)
    requires IsSelection(a, fbm, rowInd, colInd) && IsSelection(b, fbm, rowInd, colInd)
    ensures a.data == b.data
  {
    forall p | 0 <= p < |a.data|
      ensures a.data[p] == b.data[p]
    {
      var cell := CellOf(a.nrow, a.ncol, p);
      assert a.At(cell.0, cell.1) == a.data[p];
      assert b.At(cell.0, cell.1) == b.data[p];
    }
  }

  /** The 2 by 2 matrix whose first column is 60, 40 and whose second
      column is 30, 10 is the selection of rows 3, 1 and columns 2, 1 of the
      example. */
  lemma ExampleSelection(kind: OutKind)
    ensures InRange1([3, 1], 3) && InRange1([2, 1], 2)
    ensures IsSelection(DenseMat(kind, 2, 2, [60, 40, 30, 10]), Example(), [3, 1], [2, 1])
  {
  }

  /** Any result of selecting rows 3, 1 and columns 2, 1 of the example
      holds 60, 40, 30, 10 in column-major order. */
  lemma ExampleMatrix(res: DenseMat<int>)
    requires InRange1([3, 1], 3) && InRange1([2, 1], 2)
    requires IsSelection(res, Example(), [3, 1], [2, 1])
    ensures res.data == [60, 40, 30, 10]
  {
    ExampleSelection(res.kind);
    SelectionUnique(Example(), [3, 1], [2, 1], res, DenseMat(res.kind, 2, 2, [60, 40, 30, 10]));
  }
}
