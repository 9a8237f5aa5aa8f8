/** The storage-type tag of a file-backed matrix and the dispatch table that
    both extraction entry points share.

    The tag is the code `matrix_type()` reports: the byte width of one stored
    element. Four codes are known; each selects an on-disk encoding and the
    kind of host container the extracted values are placed in. Any other code
    is the `ERROR_TYPE` error. */
module MatrixType {

  /** On-disk element encodings: unsigned char, unsigned short, int, double. */
  datatype StorageType = UChar | UShort | Int | Double

  /** Host container kinds: a raw vector, an integer vector, a real vector. */
  datatype OutKind = RawKind | IntegerKind | RealKind

  /** The only error the extraction raises itself. */
  datatype ExtractError = ErrorType

  /** Either a value or the error, in place of the thrown exception. */
  datatype Result<+R> = Ok(value: R) | Err(error: ExtractError)

  /** The codes the dispatch recognises. */
  predicate IsKnownCode(code: int)
  {
    code == 1 || code == 2 || code == 4 || code == 8
  }

  /** The code a matrix stored with encoding `t` reports. */
  function Code(t: StorageType): (code: int)
    ensures IsKnownCode(code)
  {
    match t
    case UChar => 1
    case UShort => 2
    case Int => 4
    case Double => 8
  }

  /** Decodes a tag code; an unknown code is the error. */
  function StorageTypeOf(code: int): (r: Result<StorageType>)
    ensures r.Ok? <==> IsKnownCode(code)
    ensures r.Ok? ==> Code(r.value) == code
  {
    if code == 1 then Ok(UChar)
    else if code == 2 then Ok(UShort)
    else if code == 4 then Ok(Int)
    else if code == 8 then Ok(Double)
    else Err(ErrorType)
  }

  /** Every encoding's code decodes back to that encoding. */
  lemma CodeRoundTrip(t: StorageType)
    ensures StorageTypeOf(Code(t)) == Ok(t)
  {
  }

  /** The host container kind that holds values of encoding `t`. */
  function OutputKind(t: StorageType): OutKind
  {
    match t
    case UChar => RawKind
    case UShort => IntegerKind
    case Int => IntegerKind
    case Double => RealKind
  }

  /** The switch at the head of both entry points: the output kind for a tag
      code, or the error for an unknown one. The table is total over the four
      known codes, sends both small-integer widths to the integer kind, and
      rejects everything else. */
  function Dispatch(code: int): (r: Result<OutKind>)
    ensures r == Ok(RawKind) <==> code == 1
    ensures r == Ok(IntegerKind) <==> code == 2 || code == 4
    ensures r == Ok(RealKind) <==> code == 8
    ensures r == Err(ErrorType) <==> !IsKnownCode(code)
  {
    match StorageTypeOf(code)
    case Ok(t) => Ok(OutputKind(t))
    case Err(e) => Err(e)
  }
}
