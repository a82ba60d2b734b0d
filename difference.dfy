// difference.py: a raster stack turned into its stack of band-to-band differences.
// Output band 1 is all zeros and output band b (b > 1) is input band b minus input band
// b - 1, so summing output bands 1..k gives input band k minus input band 1.

module Difference {
  import opened Text
  import opened Raster

  /** `np.zeros(shape)`: a band of the same shape holding zeros. */
  function Zeros(band: Band): (z: Band)
    ensures z.SameShape(band) && |z.pixels| == |band.pixels|
    ensures forall i :: 0 <= i < |z.pixels| ==> z.pixels[i] == 0
  {
    Band(band.rows, band.cols, seq(|band.pixels|, _ => 0))
  }

  /** `curr - last`, pixel by pixel, for two bands of one raster. */
  function Minus(curr: Band, last: Band): (d: Band)
    requires |curr.pixels| == |last.pixels|
    ensures d.SameShape(curr) && |d.pixels| == |curr.pixels|
    ensures forall i :: 0 <= i < |d.pixels| ==> last.pixels[i] + d.pixels[i] == curr.pixels[i]
  {
    Band(curr.rows, curr.cols, seq(|curr.pixels|, i requires 0 <= i < |curr.pixels| => curr.pixels[i] - last.pixels[i]))
  }

  /** Output band k + 1 (0-based k): zeros for the first band, otherwise the change from
      the previous band. */
  function StackBand(input: seq<Band>, k: nat): Band
    requires Uniform(input) && k < |input|
  {
    if k == 0 then Zeros(input[0]) else Minus(input[k], input[k - 1])
  }

  /** The list handed to the raster writer. A raster without bands never sets the output
      data type, so the write fails. */
  function DifferenceStack(input: seq<Band>): (r: Result<seq<Band>>)
    requires Uniform(input)
    ensures r.Ok? <==> |input| > 0
    ensures r.Err? ==> r.error == NoBands
    ensures r.Ok? ==> |r.value| == |input| && r.value[0] == Zeros(input[0])
    ensures r.Ok? ==> forall k :: 1 <= k < |input| ==> r.value[k] == Minus(input[k], input[k - 1])
  {
    if |input| == 0 then Err(NoBands)
    else Ok(seq(|input|, k requires 0 <= k < |input| => StackBand(input, k)))
  }

  /** The band loop of `main`: each band is read once, the first one contributes zeros and
      fixes the output data type, every later one its difference from the band read
      before it. */
  method Difference(input: seq<Band>) returns (r: Result<seq<Band>>)
    requires Uniform(input)
    ensures r == DifferenceStack(input)
  {
    var numBands := |input|;
    var outbands: seq<Band> := [];
    var lastBand: array<int> := new int[0];
    var dtSet := false;
    for b := 1 to numBands + 1
      invariant |outbands| == b - 1
      invariant forall k :: 0 <= k < b - 1 ==> outbands[k] == StackBand(input, k)
      invariant b > 1 ==> lastBand[..] == input[b - 2].pixels
      invariant dtSet <==> b > 1
    {
      var band := input[b - 1];
      var currBand := ReadAsArray(band);
      if b == 1 {
        var zeros := new int[currBand.Length](_ => 0);
        assert Band(band.rows, band.cols, zeros[..]) == StackBand(input, 0);
        outbands := outbands + [Band(band.rows, band.cols, zeros[..])];
        dtSet := true;
        lastBand := currBand;
      } else {
        assert |input[b - 2].pixels| == |band.pixels|;
        var diff := new int[currBand.Length];
        forall i | 0 <= i < diff.Length {
          diff[i] := currBand[i] - lastBand[i];
        }
        assert Band(band.rows, band.cols, diff[..]) == StackBand(input, b - 1);
        outbands := outbands + [Band(band.rows, band.cols, diff[..])];
        lastBand := currBand;
      }
    }
    if !dtSet {
      return Err(NoBands);
    }
    assert outbands == DifferenceStack(input).value;
    return Ok(outbands);
  }

  /** Sum of the output bands 1..k + 1 at pixel i. */
  function PrefixSum(bands: seq<Band>, k: nat, i: nat): int
    requires k < |bands| && forall j :: 0 <= j <= k ==> i < |bands[j].pixels|
  {
    if k == 0 then bands[0].pixels[i] else PrefixSum(bands, k - 1, i) + bands[k].pixels[i]
  }

  /** The stack has one band per input band, each of its input band's shape. */
  lemma DifferenceStackShape(input: seq<Band>)
    requires Uniform(input) && |input| > 0
    ensures var out := DifferenceStack(input).value;
      |out| == |input| && Uniform(out) && forall k :: 0 <= k < |out| ==> out[k].SameShape(input[k])
  {
  }

  /** The differences telescope: summing output bands 1..k + 1 at a pixel gives the
      change of that pixel from the first input band to input band k + 1. */
  lemma {:induction false} Telescoping(input: seq<Band>, k: nat, i: nat)
    requires Uniform(input) && k < |input| && i < |input[0].pixels|
    ensures var out := DifferenceStack(input).value;
      (forall j :: 0 <= j <= k ==> i < |out[j].pixels|) &&
      PrefixSum(out, k, i) == input[k].pixels[i] - input[0].pixels[i]
  {
    var out := DifferenceStack(input).value;
    assert |input[k].pixels| == |input[0].pixels|;
    if k > 0 {
      Telescoping(input, k - 1, i);
      assert out[k] == Minus(input[k], input[k - 1]);
    }
  }

  /** The stack and the first input band determine the whole input: band k + 1 is the
      first band plus the sum of the output bands 1..k + 1. */
  lemma Reconstruct(input: seq<Band>, k: nat, i: nat)
    requires Uniform(input) && k < |input| && i < |input[0].pixels|
    ensures var out := DifferenceStack(input).value;
      (forall j :: 0 <= j <= k ==> i < |out[j].pixels|) &&
      input[k].pixels[i] == input[0].pixels[i] + PrefixSum(out, k, i)
  {
    Telescoping(input, k, i);
  }

  /** The arguments of the script: an input path, an output path and an optional
      metadata description. */
  datatype Arguments = Arguments(input: string, output: string, metaDesc: Option<string>)

  /** The argument check of the script: exactly two or three arguments, taken in order;
      any other count stops with the usage message. */
  function CommandLine(args: seq<string>): (r: Result<Arguments>)
    ensures r.Ok? <==> |args| == 2 || |args| == 3
    ensures r.Err? ==> r.error == Usage
    ensures r.Ok? ==> r.value.input == args[0] && r.value.output == args[1]
    ensures r.Ok? ==> (r.value.metaDesc.Some? <==> |args| == 3)
    ensures r.Ok? && |args| == 3 ==> r.value.metaDesc == Some(args[2])
  {
    if |args| != 2 && |args| != 3 then Err(Usage)
    else Ok(Arguments(args[0], args[1], if |args| == 3 then Some(args[2]) else None))
  }
}
