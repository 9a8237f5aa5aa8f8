/** The extraction engine: the two fill loops, the macros that build an
    accessor from 1-based index lists and call them, and the two exported
    entry points that dispatch on the matrix's tag code first.

    A host container is freshly allocated with some initial contents and then
    overwritten slot by slot; the element type needs a default value (`T(0)`)
    so that the allocation can be written down. Values are copied unchanged:
    widening a small integer into the host's integer type is not modelled. */
module Extract {
  import opened MatrixType
  import opened FileBackedMatrix
  import opened Accessors

  /** A host vector of the given kind. */
  datatype DenseVec<T> = DenseVec(kind: OutKind, values: seq<T>)

  /** A host matrix of the given kind, stored column-major like the host's
      own matrices. */
  datatype DenseMat<T> = DenseMat(kind: OutKind, nrow: nat, ncol: nat, data: seq<T>)
  {
    predicate Valid()
    {
      |data| == nrow * ncol
    }

    /** The element at row `i` and column `j`, both 0-based. */
    function At(i: int, j: int): T
      requires Valid() && 0 <= i < nrow && 0 <= j < ncol
    {
      data[Offset(nrow, ncol, i, j)]
    }
  }

  /** Reference meaning of a vector extraction, stated directly in 1-based
      terms: one stored element per index, in list order, duplicates kept. */
  function Gather<T>(data: seq<T>, ind: seq<int>): (r: seq<T>)
    requires InRange1(ind, |data|)
    ensures |r| == |ind|
    ensures forall k :: 0 <= k < |ind| ==> r[k] == data[ind[k] - 1]
    decreases |ind|
  {
    if ind == [] then []
    else [data[ind[0] - 1]] + Gather(data, ind[1..])
  }

  /** Reference meaning of a matrix extraction: `res` is the matrix of the
      selected rows and columns, cell `(i, j)` holding the stored element in
      1-based row `rowInd[i]` and column `colInd[j]`. */
  ghost predicate IsSelection<T>(res: DenseMat<T>, fbm: Fbm<T>, rowInd: seq<int>, colInd: seq<int>)
    requires fbm.Valid() && InRange1(rowInd, fbm.nrow) && InRange1(colInd, fbm.ncol)
  {
    && res.Valid()
    && res.nrow == |rowInd|
    && res.ncol == |colInd|
    && forall i, j :: 0 <= i < |rowInd| && 0 <= j < |colInd| ==>
         res.At(i, j) == fbm.data[Offset(fbm.nrow, fbm.ncol, rowInd[i] - 1, colInd[j] - 1)]
  }

  /** `extractVec<T, RTYPE>`: allocate `K` slots, one per accessor element,
      and fill slot `k` with accessor element `k`. */
  method FillVec<T(0)>(acc: VecAcc<T>, kind: OutKind) returns (res: DenseVec<T>)
    requires acc.Valid()
    ensures res.kind == kind
    ensures |res.values| == acc.Nelem()
    ensures forall k :: 0 <= k < acc.Nelem() ==> res.values[k] == acc.Get(k)
  {
    var K := acc.Nelem();
    var blank: T := *;
    var values := seq(K, _ => blank);
    var k := 0;
    while k < K
      invariant 0 <= k <= K && |values| == K
      invariant forall q :: 0 <= q < k ==> values[q] == acc.Get(q)
      invariant forall q :: k <= q < K ==> values[q] == blank
    {
      values := values[k := acc.Get(k)];
      k := k + 1;
    }
    res := DenseVec(kind, values);
  }

  /** One pass of the inner loop of `extractMat`: every cell of column `j`
      of the `n` by `m` matrix `data` receives its accessor element, rows in
      increasing order, and every cell of every other column keeps its
      value. */
  method FillColumn<T>(acc: SubAcc<T>, data: seq<T>, j: int) returns (out: seq<T>)
    requires acc.Valid() && 0 <= j < acc.Ncol()
    requires |data| == acc.Nrow() * acc.Ncol()
    ensures |out| == |data|
    ensures forall r :: 0 <= r < acc.Nrow() ==>
              out[Offset(acc.Nrow(), acc.Ncol(), r, j)] == acc.Get(r, j)
    ensures forall c, r :: 0 <= c < acc.Ncol() && c != j && 0 <= r < acc.Nrow() ==>
              out[Offset(acc.Nrow(), acc.Ncol(), r, c)] == data[Offset(acc.Nrow(), acc.Ncol(), r, c)]
  {
    var n, m := acc.Nrow(), acc.Ncol();
    out := data;
    var i := 0;
    while i < n
      invariant 0 <= i <= n && |out| == n * m
      invariant forall r :: 0 <= r < i ==> out[Offset(n, m, r, j)] == acc.Get(r, j)
      invariant forall r :: i <= r < n ==> out[Offset(n, m, r, j)] == data[Offset(n, m, r, j)]
      invariant forall c, r :: 0 <= c < m && c != j && 0 <= r < n ==>
                  out[Offset(n, m, r, c)] == data[Offset(n, m, r, c)]
    {
      forall c, r | 0 <= c < m && 0 <= r < n && (c, r) != (j, i)
        ensures Offset(n, m, r, c) != Offset(n, m, i, j)
      {
        OffsetInjective(n, m, r, c, i, j);
      }
      out := out[Offset(n, m, i, j) := acc.Get(i, j)];
      i := i + 1;
    }
  }

  /** `extractMat<T, RTYPE>`: allocate an `n` by `m` matrix, `n` and `m` the
      accessor's row and column counts, and fill it column by column: the
      outer loop runs over columns, the inner one over rows. After column `j`
      is done, columns `0..j` hold their accessor elements and every later
      column still holds what the allocation put there. */
  method FillMat<T(0)>(acc: SubAcc<T>, kind: OutKind) returns (res: DenseMat<T>)
    requires acc.Valid()
    ensures res.kind == kind && res.Valid()
    ensures res.nrow == acc.Nrow() && res.ncol == acc.Ncol()
    ensures forall i, j :: 0 <= i < res.nrow && 0 <= j < res.ncol ==> res.At(i, j) == acc.Get(i, j)
  {
    var n, m := acc.Nrow(), acc.Ncol();
    var blank: T := *;
    var data := seq(n * m, _ => blank);
    var j := 0;
    while j < m
      invariant 0 <= j <= m && |data| == n * m
      invariant forall c, r :: 0 <= c < j && 0 <= r < n ==>
                  data[Offset(n, m, r, c)] == acc.Get(r, c)
      invariant forall c, r :: j <= c < m && 0 <= r < n ==>
                  data[Offset(n, m, r, c)] == blank
    {
      data := FillColumn(acc, data, j);
      j := j + 1;
    }
    res := DenseMat(kind, n, m, data);
  }

  /** The `EXTRACT_VEC` macro: shift the positions to 0-based, build the
      vector accessor and fill a vector of the given kind. The result is the
      stored elements at the 1-based positions, in list order. */
  method ExtractVecAs<T(0)>(fbm: Fbm<T>, elemInd: seq<int>, kind: OutKind) returns (res: DenseVec<T>)
    requires fbm.Valid() && InRange1(elemInd, fbm.Size())
    ensures res == DenseVec(kind, Gather(fbm.data, elemInd))
  {
    var acc := MakeVecAcc(fbm, elemInd);
    res := FillVec(acc, kind);
  }

  /** The `EXTRACT_MAT` macro: shift both lists to 0-based, build the
      sub-matrix accessor and fill a matrix of the given kind. */
  method ExtractMatAs<T(0)>(fbm: Fbm<T>, rowInd: seq<int>, colInd: seq<int>, kind: OutKind)
    returns (res: DenseMat<T>)
    requires fbm.Valid() && InRange1(rowInd, fbm.nrow) && InRange1(colInd, fbm.ncol)
    ensures res.kind == kind
    ensures IsSelection(res, fbm, rowInd, colInd)
  {
    var acc := MakeSubAcc(fbm, rowInd, colInd);
    res := FillMat(acc, kind);
  }

  /** The exported `extractVec`: an unknown tag code is the `ERROR_TYPE`
      error and nothing is read; a known one selects the output kind and the
      result holds the stored elements at the 1-based positions, in list
      order. In-range positions are needed only once the tag is known. */
  method ExtractVec<T(0)>(fbm: Fbm<T>, elemInd: seq<int>) returns (r: Result<DenseVec<T>>)
    requires fbm.Valid()
    requires IsKnownCode(fbm.typeCode) ==> InRange1(elemInd, fbm.Size())
    ensures r == Err(ErrorType) <==> !IsKnownCode(fbm.typeCode)
    ensures r.Ok? ==> Dispatch(fbm.typeCode) == Ok(r.value.kind)
    ensures r.Ok? ==> r.value.values == Gather(fbm.data, elemInd)
  {
    match Dispatch(fbm.typeCode)
    case Err(e) =>
      r := Err(e);
    case Ok(kind) =>
      var v := ExtractVecAs(fbm, elemInd, kind);
      r := Ok(v);
  }

  /** The exported `extractMat`: the same dispatch as `ExtractVec`; for a
      known tag the result is the `|rowInd|` by `|colInd|` matrix of the
      selected rows and columns. */
  method ExtractMat<T(0)>(fbm: Fbm<T>, rowInd: seq<int>, colInd: seq<int>)
    returns (r: Result<DenseMat<T>>)
    requires fbm.Valid()
    requires IsKnownCode(fbm.typeCode) ==>
               InRange1(rowInd, fbm.nrow) && InRange1(colInd, fbm.ncol)
    ensures r == Err(ErrorType) <==> !IsKnownCode(fbm.typeCode)
    ensures r.Ok? ==> Dispatch(fbm.typeCode) == Ok(r.value.kind)
    ensures r.Ok? ==> IsSelection(r.value, fbm, rowInd, colInd)
  {
    match Dispatch(fbm.typeCode)
    case Err(e) =>
      r := Err(e);
    case Ok(kind) =>
      var v := ExtractMatAs(fbm, rowInd, colInd, kind);
      r := Ok(v);
  }
}
