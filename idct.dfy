/** The interface of the per-block dequantize-and-inverse-DCT primitive that the
    worker calls (the `idct` module of the decoder). Its numerics are not part of
    this model: a transform is supplied as a function from a block of 64
    coefficients and a quantization table to 64 samples, and what is modelled is
    where those samples land in the plane: 8 rows of 8 bytes, `stride` bytes
    apart, starting at `start`. */
module Idct {
  import opened Arith

  type Byte = b: int | 0 <= b < 0x100
  type U16 = n: int | 0 <= n < 0x1_0000
  /** A quantized DCT coefficient (i16). */
  type Coefficient = c: int | -0x8000 <= c < 0x8000

  type QuantizationTable = t: seq<U16> | |t| == 64 witness seq(64, _ => 1)
  type CoefficientBlock = s: seq<Coefficient> | |s| == 64 witness seq(64, _ => 0)
  type SampleBlock = s: seq<Byte> | |s| == 64 witness seq(64, _ => 0)

  /** Dequantization followed by the inverse DCT of one block. */
  type BlockTransform = (CoefficientBlock, QuantizationTable) -> SampleBlock

  /** Position in the plane of sample `j` (row j / 8, column j % 8) of a block
      whose top-left sample is at `start`. */
  function Target(start: nat, stride: nat, j: nat): nat
  {
    start + (j / 8) * stride + j % 8
  }

  /** `p` lies in the 8x8 strided region whose top-left byte is `start`. */
  predicate InRegion(p: int, start: nat, stride: nat)
    requires stride > 0
  {
    start <= p && (p - start) / stride < 8 && (p - start) % stride < 8
  }

  /** Row-major index within the block of a position of its region. */
  function RegionIndex(p: int, start: nat, stride: nat): nat
    requires stride > 0 && InRegion(p, start, stride)
  {
    ((p - start) / stride) * 8 + (p - start) % stride
  }

  /** Every sample of a block lands in the block's region, at its own index. */
  lemma TargetInRegion(start: nat, stride: nat, j: nat)
    requires stride >= 8 && j < 64
    ensures InRegion(Target(start, stride, j), start, stride)
    ensures RegionIndex(Target(start, stride, j), start, stride) == j
  {
    DivModUnique(Target(start, stride, j) - start, stride, j / 8, j % 8);
  }

  /** Every position of the region is the target of exactly the sample its index names. */
  lemma RegionIsTarget(p: int, start: nat, stride: nat)
    requires stride >= 8 && InRegion(p, start, stride)
    ensures RegionIndex(p, start, stride) < 64
    ensures Target(start, stride, RegionIndex(p, start, stride)) == p
  {
    var y, x := (p - start) / stride, (p - start) % stride;
    DivModUnique(y * 8 + x, 8, y, x);
  }

  /** The last sample of a block is its furthest byte. */
  lemma TargetBound(start: nat, stride: nat, j: nat)
    requires stride >= 8 && j < 64
    ensures start <= Target(start, stride, j) <= Target(start, stride, 63)
  {
    MulLeIff(j / 8, 7, stride);
  }

  /** Effect on the plane of transforming one block into the strided region at
      `start`: the 64 samples land at their targets and no other byte changes.
      The source hands the primitive the slice of the plane from `start` on, so
      every target must be inside the plane. */
  function WriteBlock(plane: seq<Byte>, start: nat, stride: nat, samples: SampleBlock): (r: seq<Byte>)
    requires stride >= 8 && Target(start, stride, 63) < |plane|
    ensures |r| == |plane|
    ensures forall j :: 0 <= j < 64 ==> Target(start, stride, j) < |r| && r[Target(start, stride, j)] == samples[j]
    ensures forall p :: 0 <= p < |plane| && !InRegion(p, start, stride) ==> r[p] == plane[p]
  {
    var r := seq(|plane|, p requires 0 <= p < |plane| =>
                   if InRegion(p, start, stride) then samples[RegionIndex(p, start, stride)] else plane[p]);
    forall j | 0 <= j < 64
      ensures Target(start, stride, j) < |r| && r[Target(start, stride, j)] == samples[j]
    {
      TargetBound(start, stride, j);
      TargetInRegion(start, stride, j);
    }
    r
  }
}
