/** The file-backed matrix as the extraction sees it: a tag code, a shape and
    the stored elements, flattened column-major. Opening and mapping the
    backing file happen elsewhere; here the storage is already a sequence. */
module FileBackedMatrix {

  /** A matrix of `nrow` rows and `ncol` columns whose element at row `i` and
      column `j` (both 0-based) is `data[j * nrow + i]`. */
  datatype Fbm<T> = Fbm(typeCode: int, nrow: nat, ncol: nat, data: seq<T>)
  {
    /** The storage covers the whole matrix and nothing more. */
    predicate Valid()
    {
      |data| == nrow * ncol
    }

    /** Number of elements, the bound on flat positions. */
    function Size(): nat
    {
      nrow * ncol
    }
  }

  /** The cells of an `nrow` by `ncol` column-major block fill the flat range
      `[0, nrow * ncol)`. */
  lemma OffsetBounds(nrow: nat, ncol: nat, row: int, col: int)
    requires 0 <= row < nrow && 0 <= col < ncol
    ensures 0 <= col * nrow + row < nrow * ncol
  {
    assert col * nrow <= (ncol - 1) * nrow by {
      MulMonotone(col, ncol - 1, nrow);
    }
  }

  /** Multiplying by a natural keeps the order of the factors. */
  lemma MulMonotone(a: int, b: int, n: nat)
    requires a <= b
    ensures a * n <= b * n
  {
    assert b * n - a * n == (b - a) * n;
  }

  /** A quotient-remainder pair is determined by the value it builds. */
  lemma DivModUnique(n: nat, q: int, r: int)
    requires 0 <= r < n
    ensures (q * n + r) / n == q
    ensures (q * n + r) % n == r
  {
    var p := q * n + r;
    var q', r' := p / n, p % n;
    assert p == q' * n + r';
    assert (q - q') * n == r' - r;
    if q' < q {
      MulMonotone(1, q - q', n);
    } else if q < q' {
      MulMonotone(1, q' - q, n);
    }
  }

  /** The flat position of the cell at `row`, `col` (both 0-based) of a
      column-major `nrow` by `ncol` block: column `col` starts after `col`
      whole columns of `nrow` elements. The position is `col * nrow + row`
      and lies inside the block.

      The body adds one column at a time rather than multiplying, with the
      product form stated as a postcondition: with literal arguments, a
      product body makes the solver's arithmetic nonlinear, and a few such
      offsets in one proof exhaust it. The value is the same either way. */
  function Offset(nrow: nat, ncol: nat, row: int, col: int): (p: nat)
    requires 0 <= row < nrow && 0 <= col < ncol
    ensures p == col * nrow + row
    ensures p < nrow * ncol
    decreases col
  {
    OffsetBounds(nrow, ncol, row, col);
    if col == 0 then row else nrow + Offset(nrow, ncol, row, col - 1)
  }

  /** A flat position determines its cell: the quotient by `nrow` is the
      column and the remainder the row. */
  lemma OffsetDecode(nrow: nat, ncol: nat, row: int, col: int)
    requires 0 <= row < nrow && 0 <= col < ncol
    ensures Offset(nrow, ncol, row, col) / nrow == col
    ensures Offset(nrow, ncol, row, col) % nrow == row
  {
    DivModUnique(nrow, col, row);
  }

  /** The cell at flat position `p`: every position of the block is some
      cell's `Offset`, so `Offset` is a bijection onto `[0, nrow * ncol)`. */
  function CellOf(nrow: nat, ncol: nat, p: int): (cell: (nat, nat))
    requires 0 <= p < nrow * ncol
    ensures cell.0 < nrow && cell.1 < ncol
    ensures Offset(nrow, ncol, cell.0, cell.1) == p
  {
    assert nrow != 0;
    var col := p / nrow;
    var row := p % nrow;
    assert col < ncol by {
      if ncol <= col {
        MulMonotone(ncol, col, nrow);
      }
    }
    assert Offset(nrow, ncol, row, col) == p;
    (row, col)
  }

  /** Distinct cells have distinct flat positions. */
  lemma OffsetInjective(nrow: nat, ncol: nat, r1: int, c1: int, r2: int, c2: int)
    requires 0 <= r1 < nrow && 0 <= c1 < ncol
    requires 0 <= r2 < nrow && 0 <= c2 < ncol
    ensures Offset(nrow, ncol, r1, c1) == Offset(nrow, ncol, r2, c2) <==> r1 == r2 && c1 == c2
  {
    OffsetDecode(nrow, ncol, r1, c1);
    OffsetDecode(nrow, ncol, r2, c2);
  }
}
