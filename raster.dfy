// The values the raster tools pass around: bands read from a raster, and the ways a
// run can fail. Raster files themselves are opened and written outside this model.

module Raster {

  /** One band as read from a raster: `rows` x `cols` pixels, stored row by row. */
  datatype Band = Band(rows: nat, cols: nat, pixels: seq<int>)
  {
    predicate WellFormed() {
      |pixels| == rows * cols
    }

    predicate SameShape(other: Band) {
      rows == other.rows && cols == other.cols
    }
  }

  /** Every band of one raster has the same shape. */
  predicate Uniform(bands: seq<Band>) {
    (forall k :: 0 <= k < |bands| ==> bands[k].WellFormed()) &&
    (forall k :: 0 <= k < |bands| ==> bands[k].SameShape(bands[0]))
  }

  /** `ReadAsArray()`: a fresh array holding the band's pixels. */
  method ReadAsArray(band: Band) returns (a: array<int>)
    ensures fresh(a) && a[..] == band.pixels
  {
    a := new int[|band.pixels|](i requires 0 <= i < |band.pixels| => band.pixels[i]);
  }

  /** Why a run stops without writing its output raster. */
  datatype Error =
    | BadNumber(token: string)        // int()/float() rejected a token (ValueError)
    | UnknownOperator(token: string)  // an operator sub-token is not understood (NameError)
    | NoBands                         // the raster has no band 1
    | MissingBand(band: int)          // a band index the raster does not have
    | ShapeMismatch(band: int)        // a condition array whose shape differs from the band's
    | Usage                           // wrong number of command-line arguments

  datatype Result<T> = Ok(value: T) | Err(error: Error)
  {
    predicate IsFailure() {
      Err?
    }

    function PropagateFailure<U>(): Result<U>
      requires Err?
    {
      Err(error)
    }

    function Extract(): T
      requires Ok?
    {
      value
    }
  }
}
