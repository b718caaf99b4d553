/** Where the blocks of one MCU row land in a component's plane.

    A plane is row-major with `LineStride(width)` bytes per line, `width` being
    the component's width in 8x8 blocks. One appended MCU row (a "stripe")
    holds `width * vsf` blocks, `vsf` being the vertical sampling factor: block
    `i` sits at block row `i / width` and block column `i % width` of the
    stripe, whose first byte is the write offset. The lemmas below show that
    the blocks tile the stripe exactly: every sample of every block lands
    inside the stripe, no two samples land on the same byte, and every byte of
    the stripe receives one sample. */
module BlockGeometry {
  import opened Arith
  import opened Idct

  function LineStride(width: nat): nat
  {
    width * 8
  }

  function BlockCount(width: nat, vsf: nat): nat
  {
    width * vsf
  }

  /** Number of coefficients in one MCU row, and number of bytes of its stripe. */
  function StripeLength(width: nat, vsf: nat): nat
  {
    BlockCount(width, vsf) * 64
  }

  /** Top-left byte of block `i` of the stripe starting at `offset`. */
  function BlockStart(offset: nat, width: nat, i: nat): nat
    requires width > 0
  {
    offset + (i / width) * 8 * LineStride(width) + (i % width) * 8
  }

  /** Line of the stripe, counted from its first line, and column of byte `p`. */
  function StripeLine(offset: nat, stride: nat, p: nat): nat
    requires stride > 0 && offset <= p
  {
    (p - offset) / stride
  }

  function StripeColumn(offset: nat, stride: nat, p: nat): nat
    requires stride > 0 && offset <= p
  {
    (p - offset) % stride
  }

  /** The block of the stripe at `offset` that covers byte `p`. */
  function StripeBlock(offset: nat, width: nat, p: nat): nat
    requires width > 0 && offset <= p
  {
    (StripeLine(offset, LineStride(width), p) / 8) * width + StripeColumn(offset, LineStride(width), p) / 8
  }

  /** The sample of that block that lands on byte `p`. */
  function StripeSample(offset: nat, width: nat, p: nat): nat
    requires width > 0 && offset <= p
  {
    (StripeLine(offset, LineStride(width), p) % 8) * 8 + StripeColumn(offset, LineStride(width), p) % 8
  }

  lemma BlockRowBound(width: nat, vsf: nat, i: nat)
    requires width > 0 && i < BlockCount(width, vsf)
    ensures i / width < vsf
  {
    if i / width >= vsf {
      MulLeIff(vsf, i / width, width);
    }
  }

  /** A stripe has `vsf * 8` lines of `LineStride(width)` bytes. */
  lemma InStripeIff(offset: nat, width: nat, vsf: nat, p: nat)
    requires width > 0 && offset <= p
    ensures p < offset + StripeLength(width, vsf) <==> StripeLine(offset, LineStride(width), p) < vsf * 8
  {
    var stride := LineStride(width);
    var line, col := StripeLine(offset, stride, p), StripeColumn(offset, stride, p);
    assert StripeLength(width, vsf) == (vsf * 8) * stride;
    assert p - offset == line * stride + col;
    if line < vsf * 8 {
      assert p - offset < (line + 1) * stride;
      MulLeIff(line + 1, vsf * 8, stride);
    } else {
      MulLeIff(vsf * 8, line, stride);
    }
  }

  /** Line and column, within the stripe, of sample `j` of block `i`. */
  lemma TargetCoordinates(offset: nat, width: nat, i: nat, j: nat)
    requires width > 0 && j < 64
    ensures offset <= Target(BlockStart(offset, width, i), LineStride(width), j)
    ensures StripeLine(offset, LineStride(width), Target(BlockStart(offset, width, i), LineStride(width), j))
         == (i / width) * 8 + j / 8
    ensures StripeColumn(offset, LineStride(width), Target(BlockStart(offset, width, i), LineStride(width), j))
         == (i % width) * 8 + j % 8
  {
    var stride := LineStride(width);
    var p := Target(BlockStart(offset, width, i), stride, j);
    var line, col := (i / width) * 8 + j / 8, (i % width) * 8 + j % 8;
    assert p - offset == line * stride + col by {
      MulAddDistrib((i / width) * 8, j / 8, stride);
    }
    assert col < stride by {
      assert i % width < width;
    }
    assert 0 <= line * stride by {
      MulLeIff(0, line, stride);
    }
    DivModUnique(p - offset, stride, line, col);
  }

  /** Sample `j` of block `i` lands inside the stripe, on the byte that the
      stripe maps back to block `i`, sample `j`. */
  lemma BlockTargetInStripe(offset: nat, width: nat, vsf: nat, i: nat, j: nat)
    requires width > 0 && i < BlockCount(width, vsf) && j < 64
    ensures offset <= Target(BlockStart(offset, width, i), LineStride(width), j) < offset + StripeLength(width, vsf)
    ensures StripeBlock(offset, width, Target(BlockStart(offset, width, i), LineStride(width), j)) == i
    ensures StripeSample(offset, width, Target(BlockStart(offset, width, i), LineStride(width), j)) == j
  {
    var p := Target(BlockStart(offset, width, i), LineStride(width), j);
    TargetCoordinates(offset, width, i, j);
    var line, col := (i / width) * 8 + j / 8, (i % width) * 8 + j % 8;
    DivModUnique(line, 8, i / width, j / 8);
    DivModUnique(col, 8, i % width, j % 8);
    assert i == (i / width) * width + i % width;
    BlockRowBound(width, vsf, i);
    InStripeIff(offset, width, vsf, p);
  }

  /** Block and sample of a byte of the stripe are within range. */
  lemma StripeBlockInRange(offset: nat, width: nat, vsf: nat, p: nat)
    requires width > 0 && offset <= p < offset + StripeLength(width, vsf)
    ensures StripeBlock(offset, width, p) < BlockCount(width, vsf)
    ensures StripeSample(offset, width, p) < 64
  {
    var line, col := StripeLine(offset, LineStride(width), p), StripeColumn(offset, LineStride(width), p);
    InStripeIff(offset, width, vsf, p);
    assert col / 8 < width;
    assert line / 8 < vsf;
    MulLtIff(line / 8, vsf, width);
    assert StripeBlock(offset, width, p) < (line / 8 + 1) * width;
    MulLeIff(line / 8 + 1, vsf, width);
  }

  /** The sample that byte `p` maps back to lands on `p`. */
  lemma StripeTargetBack(offset: nat, width: nat, p: nat)
    requires width > 0 && offset <= p
    ensures Target(BlockStart(offset, width, StripeBlock(offset, width, p)), LineStride(width),
                   StripeSample(offset, width, p)) == p
  {
    var stride := LineStride(width);
    var line, col := StripeLine(offset, stride, p), StripeColumn(offset, stride, p);
    var i, j := StripeBlock(offset, width, p), StripeSample(offset, width, p);
    assert col / 8 < width;
    DivModUnique(i, width, line / 8, col / 8);
    DivModUnique(j, 8, line % 8, col % 8);
    assert p - offset == line * stride + col;
    assert line * stride == (line / 8) * 8 * stride + (line % 8) * stride by {
      MulAddDistrib((line / 8) * 8, line % 8, stride);
    }
  }

  /** Every byte of the stripe is the target of one sample of one of its blocks. */
  lemma StripePositionIsTarget(offset: nat, width: nat, vsf: nat, p: nat)
    requires width > 0 && offset <= p < offset + StripeLength(width, vsf)
    ensures StripeBlock(offset, width, p) < BlockCount(width, vsf)
    ensures StripeSample(offset, width, p) < 64
    ensures Target(BlockStart(offset, width, StripeBlock(offset, width, p)), LineStride(width),
                   StripeSample(offset, width, p)) == p
  {
    StripeBlockInRange(offset, width, vsf, p);
    StripeTargetBack(offset, width, p);
  }

  /** The first two lines of the blocks of the first block row: block `i`
      starts `8 * i` bytes into the stripe, and its second line one line
      stride further. */
  lemma FirstRowTargets(offset: nat, width: nat, i: nat, j: nat)
    requires i < width && j < 16
    ensures Target(BlockStart(offset, width, i), LineStride(width), j)
         == offset + i * 8 + (if j < 8 then j else LineStride(width) + (j - 8))
  {
    DivModUnique(i, width, 0, i);
    if j < 8 {
      DivModUnique(j, 8, 0, j);
    } else {
      DivModUnique(j, 8, 1, j - 8);
    }
  }

  /** No two samples of a stripe land on the same byte. */
  lemma BlocksDisjoint(offset: nat, width: nat, vsf: nat, i1: nat, j1: nat, i2: nat, j2: nat)
    requires width > 0 && i1 < BlockCount(width, vsf) && i2 < BlockCount(width, vsf) && j1 < 64 && j2 < 64
    requires Target(BlockStart(offset, width, i1), LineStride(width), j1)
          == Target(BlockStart(offset, width, i2), LineStride(width), j2)
    ensures i1 == i2 && j1 == j2
  {
    BlockTargetInStripe(offset, width, vsf, i1, j1);
    BlockTargetInStripe(offset, width, vsf, i2, j2);
  }

  /** The byte of block `i`'s region are exactly the bytes of the stripe that map to block `i`. */
  lemma BlockRegionInStripe(offset: nat, width: nat, vsf: nat, i: nat, p: nat)
    requires width > 0 && i < BlockCount(width, vsf)
    ensures InRegion(p, BlockStart(offset, width, i), LineStride(width))
        <==> offset <= p < offset + StripeLength(width, vsf) && StripeBlock(offset, width, p) == i
    ensures InRegion(p, BlockStart(offset, width, i), LineStride(width))
        ==> RegionIndex(p, BlockStart(offset, width, i), LineStride(width)) == StripeSample(offset, width, p)
  {
    var start, stride := BlockStart(offset, width, i), LineStride(width);
    if InRegion(p, start, stride) {
      RegionIsTarget(p, start, stride);
      BlockTargetInStripe(offset, width, vsf, i, RegionIndex(p, start, stride));
    } else if offset <= p < offset + StripeLength(width, vsf) && StripeBlock(offset, width, p) == i {
      StripePositionIsTarget(offset, width, vsf, p);
      TargetInRegion(start, stride, StripeSample(offset, width, p));
      assert false;
    }
  }

  /** The source's slice `plane[offset + y * line_stride + x ..]` and the writes
      through it stay in bounds for every block exactly when the whole stripe
      fits in the plane. */
  lemma StripeBoundIsExact(offset: nat, width: nat, vsf: nat, n: nat)
    requires width > 0 && vsf > 0
    ensures (forall i, j :: 0 <= i < BlockCount(width, vsf) && 0 <= j < 64 ==>
               Target(BlockStart(offset, width, i), LineStride(width), j) < n)
        <==> offset + StripeLength(width, vsf) <= n
  {
    if offset + StripeLength(width, vsf) <= n {
      forall i, j | 0 <= i < BlockCount(width, vsf) && 0 <= j < 64
        ensures Target(BlockStart(offset, width, i), LineStride(width), j) < n
      {
        BlockTargetInStripe(offset, width, vsf, i, j);
      }
    } else {
      var last := offset + StripeLength(width, vsf) - 1;
      assert StripeLength(width, vsf) >= 64 by {
        MulAtLeast(vsf, width);
      }
      StripePositionIsTarget(offset, width, vsf, last);
    }
  }
}
