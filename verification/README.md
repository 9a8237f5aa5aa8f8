# Extraction from a file-backed matrix

A Dafny model of the read-only extraction engine of bigstatsr
(`src/extract.cpp`). A file-backed matrix (FBM) is an on-disk array of
numbers: `nrow` rows and `ncol` columns stored column-major, in one of four
element encodings named by its tag code (`matrix_type()`). The engine copies an
arbitrary selection of elements into a fresh dense host container:

- `extractVec` takes 1-based flat positions. It shifts them down by one and
  wraps the matrix in a vector accessor (`VecBMAcc`). It then allocates a
  vector of length K and fills slot `k` with accessor element `k`.
- `extractMat` takes 1-based row and column lists. It shifts both down by one
  and wraps the matrix in a sub-matrix accessor (`SubBMAcc`). It then
  allocates an n×m matrix and fills it column by column.

Both first switch on the tag code. Code 1 (`unsigned char`) fills a raw
vector, codes 2 (`unsigned short`) and 4 (`int`) an integer vector, and code
8 (`double`) a real vector. Any other code throws `ERROR_TYPE` before anything
is read.

Layout of the project:

- `matrix_type.dfy` (module `MatrixType`): the tag codes, the output kinds,
  the error, and the dispatch table that both entry points share.
- `fbm.dfy` (module `FileBackedMatrix`): the matrix descriptor and the
  column-major position `Offset`, with its closed form, bounds and inverse.
- `accessors.dfy` (module `Accessors`): the two accessors over a storage
  sequence, and the single 1-based to 0-based shift.
- `extract.dfy` (module `Extract`): the two fill loops (the templates), the two
  macros, the two exported entry points, and the reference meanings `Gather`
  and `IsSelection`.
- `properties.dfy` (module `ExtractProperties`): order and duplicates,
  full-matrix agreement of the two entry points, and two worked examples.

`bigstatsr/BMAcc.h` is not part of this model. Its two accessors are modelled
as reads of the storage sequence. Vector element `k` is `data[ind0[k]]`.
Sub-matrix element `(i, j)` is `data[col0[j] * nrow + row0[i]]`.

Two consequences of the code shape the model:

- Code 1 goes to a raw vector (`RAWSXP`), so there are three output kinds:
  raw, integer and real.
- `src/extract.cpp` checks no index bounds. Once the tag is known, in-range
  indices are a precondition. With an unknown tag the indices are never used,
  so no precondition is placed on them.

## Model

| member | source | states |
|---|---|---|
| MatrixType.Code | src/extract.cpp:35-43 | each encoding's tag code is one of the four known codes 1, 2, 4, 8 |
| MatrixType.StorageTypeOf | src/extract.cpp:35-45 | a code decodes to an encoding exactly when it is 1, 2, 4 or 8, and the encoding reports that code back; every other code is the error |
| MatrixType.CodeRoundTrip | src/extract.cpp:35-43 | decoding an encoding's own code returns that encoding |
| MatrixType.Dispatch | src/extract.cpp:35-45 | the switch, both directions: code 1 gives the raw kind, and only code 1 does; codes 2 and 4 give the integer kind; code 8 the real kind; every other code gives `ERROR_TYPE` |
| FileBackedMatrix.Offset | src/extract.cpp:59-61 | the column-major position of cell (row, col) is col·nrow + row and lies below nrow·ncol |
| FileBackedMatrix.OffsetDecode | src/extract.cpp:59-61 | a column-major position gives back its cell: quotient by nrow is the column, remainder the row |
| FileBackedMatrix.OffsetInjective | src/extract.cpp:59-61 | two cells share a position if and only if they are the same cell |
| FileBackedMatrix.CellOf | src/extract.cpp:59-61 | every position below nrow·ncol is the position of some cell, so cells and positions correspond one to one |
| Accessors.ToZeroBased | src/extract.cpp:26 | the shift `ind - 1` loses nothing: shifting back up gives the caller's list, and the list is in [1, bound] exactly when its shift is in [0, bound), for every bound |
| Accessors.ShiftRoundTrip | src/extract.cpp:67-68 | every 0-based list is the shift of a 1-based list, so the shift is a bijection between the two conventions |
| Accessors.MakeVecAcc | src/extract.cpp:25-27 | the vector accessor over `elemInd - 1` has one element per index; it is readable exactly when every index is in [1, nrow·ncol]; element k is the stored element at 1-based position `elemInd[k]` |
| Accessors.MakeSubAcc | src/extract.cpp:66-69 | the sub-matrix accessor over `rowInd - 1`, `colInd - 1` has shape \|rowInd\| × \|colInd\|; it is readable exactly when rows are in [1, nrow] and columns in [1, ncol]; element (i, j) is the stored element at 1-based row `rowInd[i]`, column `colInd[j]` |
| Extract.Gather | src/extract.cpp:19-20 | reference vector result, one element per index and defined element by element from the front of the list: it has the list's length and slot k holds the stored element at 1-based position `ind[k]` |
| Extract.FillVec | src/extract.cpp:13-23 | the result has K = accessor length slots and slot k holds accessor element k, with the kind it was asked for |
| Extract.FillColumn | src/extract.cpp:60-61 | one pass of the inner loop writes accessor element (r, j) into every cell of column j and leaves every cell of every other column unchanged |
| Extract.FillMat | src/extract.cpp:51-64 | the result is accessor-rows × accessor-columns, stored column-major, and cell (i, j) holds accessor element (i, j); the loop fills column after column, and the columns after the current one keep their allocated contents |
| Extract.ExtractVecAs | src/extract.cpp:25-27 | the macro's result is the reference `Gather` of the 1-based positions, with the given kind |
| Extract.ExtractMatAs | src/extract.cpp:66-69 | the macro's result is the selection of the 1-based rows and columns, with the given kind |
| Extract.ExtractVec | src/extract.cpp:30-47 | error if and only if the tag code is unknown; otherwise the kind is the dispatch table's and the values are the stored elements at the 1-based positions in list order |
| Extract.ExtractMat | src/extract.cpp:72-90 | error if and only if the tag code is unknown; otherwise the same dispatch table's kind and the \|rowInd\| × \|colInd\| selection |
| ExtractProperties.GatherAppend | src/extract.cpp:19-20 | extracting a concatenated list gives the two results concatenated in the same order |
| ExtractProperties.GatherReorder | src/extract.cpp:19-20 | permuting, repeating or dropping entries of the index list does the same to the result: no sorting, no deduplication |
| ExtractProperties.GatherDuplicates | src/extract.cpp:19-20 | equal indices yield equal values wherever they occur |
| ExtractProperties.GatherAll | src/extract.cpp:19-20 | extracting positions 1..nrow·ncol reproduces the storage |
| ExtractProperties.FullSelectionIsFullGather | src/extract.cpp:59-61 | selecting all rows and all columns, flattened column-major, equals extracting all positions 1..nrow·ncol |
| ExtractProperties.ExtractAllBothWays | src/extract.cpp:59-61 | running both entry points over the whole matrix gives equal kinds and equal values, both equal to the storage, and both fail together on an unknown code |
| ExtractProperties.SelectionUnique | src/extract.cpp:59-61 | a matrix selection is determined by the matrix and the two index lists |
| ExtractProperties.ExampleVector | src/extract.cpp:19-20 | positions 4, 4, 1 of the 3×2 matrix 10..60 read 40, 40, 10 |
| ExtractProperties.ExampleSelection | src/extract.cpp:59-61 | the column-major matrix 60, 40, 30, 10 is the selection of rows 3, 1 and columns 2, 1 of that matrix |
| ExtractProperties.ExampleMatrix | src/extract.cpp:59-61 | any such selection holds exactly 60, 40, 30, 10 column-major |

## Left out

- Rcpp plumbing (`XPtr<FBM>`, `RObject`, `Vector<RTYPE>`/`Matrix<RTYPE>`
  allocation, the export glue): foreign host calls. The host container is a
  datatype holding its kind and its values. Rcpp zero-fills a fresh
  `Vector<RTYPE>(K)` or `Matrix<RTYPE>(n, m)`. The model allocates with an
  arbitrary `blank` value instead (`Extract.FillVec`, `Extract.FillMat`),
  which covers the zero fill. The difference is never observable, because
  the fill loops overwrite every slot.
- Opening, memory-mapping and the lifetime of the backing file: I/O owned
  elsewhere. The storage is a sequence of length nrow·ncol.
- Stored values and widening: the four encodings share one opaque element
  type and values are copied unchanged. The model does not show how a
  `double` is represented, nor how an `unsigned char` or `unsigned short` is
  widened into the host's integer type.
- One template instantiation per encoding: the model has one generic fill per
  entry point. The dispatch table only chooses the output kind, because the
  values are opaque.
- Index lists arriving as doubles (`NumericVector`): indices are modelled as
  integers, and the conversion of a double to an index is not modelled.
- Out-of-range indices: `src/extract.cpp` checks no bounds, so in-range
  indices are a precondition. What an out-of-range read returns is not
  modelled.
- Allocation failure and `size_t` limits on K, n and m: integers are unbounded.
- The text of the `ERROR_TYPE` message, defined in a header that is not part
  of this model: the error is a single datatype value.
