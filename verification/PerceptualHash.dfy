/** The two median-thresholded hashes: pHash over an 8x8 grid of coefficients, wHash over a 64x64 grid
    of grey values averaged down to 8x8. */
module PerceptualHash {
  import opened ImageBits
  import opened Median

  type Grid = seq<seq<real>>

  ghost predicate Square(g: Grid, side: nat)
  {
    |g| == side && forall r :: 0 <= r < side ==> |g[r]| == side
  }

  function Flat(g: Grid): (flat: seq<real>)
    requires |g| == 8 && forall r :: 0 <= r < 8 ==> |g[r]| == 8
    ensures |flat| == 64 && forall i :: 0 <= i < 64 ==> flat[i] == g[i / 8][i % 8]
  {
    seq(64, i requires 0 <= i < 64 => g[i / 8][i % 8])
  }

  function Exceeding(values: seq<real>, m: real): (bits: seq<bool>)
    ensures |bits| == |values|
  {
    seq(|values|, i requires 0 <= i < |values| => values[i] > m)
  }

  lemma {:induction false} ExceedingCountsAbove(values: seq<real>, m: real)
    ensures CountTrue(Exceeding(values, m)) == Above(values, m)
    decreases |values|
  {
    if values != [] {
      var n := |values| - 1;
      var bits := Exceeding(values, m);
      ExceedingCountsAbove(values[..n], m);
      assert bits[..n] == Exceeding(values[..n], m);
      AboveLast(values, m);
    }
  }

  lemma {:induction false} AboveLast(values: seq<real>, m: real)
    requires values != []
    ensures Above(values, m) == Above(values[..|values| - 1], m) + Bit(values[|values| - 1] > m)
  {
    if |values| > 1 {
      AboveLast(values[1..], m);
      assert values[1..][..|values| - 2] == values[..|values| - 1][1..];
    }
  }

  // ---------- pHash ----------

  /** The first coefficient sets no bit and does not count towards the median. */
  function PHashBits(coeffs: Grid): (bits: seq<bool>)
    requires |coeffs| == 8 && forall r :: 0 <= r < 8 ==> |coeffs[r]| == 8
    ensures |bits| == 64 && !bits[0]
  {
    var flat := Flat(coeffs);
    Exceeding(flat, MedianOf(flat[1..]))[0 := false]
  }

  function PHash(coeffs: Grid): nat
    requires |coeffs| == 8 && forall r :: 0 <= r < 8 ==> |coeffs[r]| == 8
  {
    Pack(PHashBits(coeffs))
  }

  lemma {:induction false} CountTrueSplit(bits: seq<bool>)
    requires bits != []
    ensures CountTrue(bits) == Bit(bits[0]) + CountTrue(bits[1..])
  {
    if |bits| > 1 {
      var n := |bits| - 1;
      CountTrueSplit(bits[..n]);
      assert bits[..n][1..] == bits[1..][..n - 1];
    }
  }

  /** A pHash has at most 31 bits set, so two of them differ in at most 62 positions. */
  lemma PHashHasAtMost31Bits(coeffs: Grid, other: Grid)
    requires |coeffs| == 8 && forall r :: 0 <= r < 8 ==> |coeffs[r]| == 8
    requires |other| == 8 && forall r :: 0 <= r < 8 ==> |other[r]| == 8
    ensures BitCount(PHash(coeffs)) <= 31
    ensures Hamming(PHash(coeffs), PHash(other)) <= 62
  {
    PHashBitCount(coeffs);
    PHashBitCount(other);
    HammingAtMostBothCounts(PHash(coeffs), PHash(other));
  }

  lemma PHashBitCount(coeffs: Grid)
    requires |coeffs| == 8 && forall r :: 0 <= r < 8 ==> |coeffs[r]| == 8
    ensures BitCount(PHash(coeffs)) <= 31
  {
    var rest := Flat(coeffs)[1..];
    var m := MedianOf(rest);
    var bits := PHashBits(coeffs);
    BitCountOfPack(bits);
    CountTrueSplit(bits);
    assert bits[1..] == Exceeding(rest, m);
    ExceedingCountsAbove(rest, m);
    AtMostHalfAboveMedian(rest);
  }

  /** All coefficients but the first, row by row. */
  function Others(coeffs: Grid): (others: seq<real>)
    requires |coeffs| == 8 && forall r :: 0 <= r < 8 ==> |coeffs[r]| == 8
    ensures |others| == 63
  {
    seq(63, k requires 0 <= k < 63 => coeffs[(k + 1) / 8][(k + 1) % 8])
  }

  /** Exactly which bits a pHash sets, the first coefficient's being the most significant: each but the
      first exactly if its coefficient exceeds the median of all but the first. */
  lemma PHashSetsExactly(coeffs: Grid, i: nat)
    requires |coeffs| == 8 && (forall r :: 0 <= r < 8 ==> |coeffs[r]| == 8) && i < 64
    ensures BinaryDigit(PHash(coeffs), 63 - i) == Bit(i > 0 && coeffs[i / 8][i % 8] > MedianOf(Others(coeffs)))
    ensures Unpack(PHash(coeffs), 64)[i] <==> i > 0 && coeffs[i / 8][i % 8] > MedianOf(Others(coeffs))
  {
    hide MedianOf, Pack, Unpack, BinaryDigit, PHashBits;
    PHashBitIs(coeffs, i);
    PackedBit(PHashBits(coeffs), i);
    UnpackUndoesPack(PHashBits(coeffs));
  }

  lemma PHashBitIs(coeffs: Grid, i: nat)
    requires |coeffs| == 8 && (forall r :: 0 <= r < 8 ==> |coeffs[r]| == 8) && i < 64
    ensures PHashBits(coeffs)[i] <==> i > 0 && coeffs[i / 8][i % 8] > MedianOf(Others(coeffs))
  {
    hide MedianOf;
    assert Flat(coeffs)[1..] == Others(coeffs);
  }

  /** Sixty-three different coefficients set exactly 31 bits. */
  lemma DifferentCoefficientsSet31Bits(coeffs: Grid)
    requires |coeffs| == 8 && forall r :: 0 <= r < 8 ==> |coeffs[r]| == 8
    requires Distinct(Others(coeffs))
    ensures BitCount(PHash(coeffs)) == 31
  {
    var rest := Others(coeffs);
    assert Flat(coeffs)[1..] == rest;
    var m := MedianOf(rest);
    var bits := PHashBits(coeffs);
    BitCountOfPack(bits);
    CountTrueSplit(bits);
    assert bits[1..] == Exceeding(rest, m);
    ExceedingCountsAbove(rest, m);
    HalfOfDistinctExceedTheMedian(rest);
  }

  // ---------- wHash ----------

  function Quarter(g: Grid, r: nat, c: nat): real
    requires 2 * r + 1 < |g| && 2 * c + 1 < |g[2 * r]| && 2 * c + 1 < |g[2 * r + 1]|
  {
    (g[2 * r][2 * c] + g[2 * r][2 * c + 1] + g[2 * r + 1][2 * c] + g[2 * r + 1][2 * c + 1]) / 4.0
  }

  /** One pass: every 2x2 block becomes its mean. */
  function Halved(g: Grid, side: nat): (h: Grid)
    requires Square(g, 2 * side)
    ensures Square(h, side)
  {
    seq(side, r requires 0 <= r < side => seq(side, c requires 0 <= c < side => Quarter(g, r, c)))
  }

  function Averaged(g: Grid): (h: Grid)
    requires Square(g, 64)
    ensures Square(h, 8)
  {
    Halved(Halved(Halved(g, 32), 16), 8)
  }

  function WHashBits(g: Grid): (bits: seq<bool>)
    requires Square(g, 64)
    ensures |bits| == 64
  {
    var flat := Flat(Averaged(g));
    Exceeding(flat, MedianOf(flat))
  }

  method WHash(grey: Grid) returns (hash: nat)
    requires Square(grey, 64)
    ensures hash == Pack(WHashBits(grey))
  {
    var values, side := grey, 64;
    ghost var halved := [grey, Halved(grey, 32), Halved(Halved(grey, 32), 16), Averaged(grey)];
    for pass := 0 to 3
      invariant side == [64, 32, 16, 8][pass] && Square(values, side)
      invariant values == halved[pass]
    {
      side := side / 2;
      values := Halved(values, side);
    }
    var flat := Flat(values);
    hash := BitsToInt(Exceeding(flat, MedianOf(flat)));
  }

  /** A wHash has at most 32 bits set. */
  lemma WHashHasAtMost32Bits(g: Grid)
    requires Square(g, 64)
    ensures BitCount(Pack(WHashBits(g))) <= 32
  {
    hide Averaged;
    var flat := Flat(Averaged(g));
    BitCountOfPack(WHashBits(g));
    ExceedingCountsAbove(flat, MedianOf(flat));
    AtMostHalfAboveMedian(flat);
  }

  // ---------- Three passes are one block mean ----------

  function RowSum(row: seq<real>, c: nat, w: nat): real
    requires c + w <= |row|
  {
    if w == 0 then 0.0 else RowSum(row, c, w - 1) + row[c + w - 1]
  }

  /** The sum over a block of h rows and w columns. */
  function BlockSum(g: Grid, side: nat, r: nat, c: nat, h: nat, w: nat): real
    requires Square(g, side) && r + h <= side && c + w <= side
  {
    if h == 0 then 0.0 else BlockSum(g, side, r, c, h - 1, w) + RowSum(g[r + h - 1], c, w)
  }

  lemma {:induction false} HalvedRow(g: Grid, side: nat, r: nat, c: nat, w: nat)
    requires Square(g, 2 * side) && r < side && c + w <= side
    ensures RowSum(Halved(g, side)[r], c, w)
         == (RowSum(g[2 * r], 2 * c, 2 * w) + RowSum(g[2 * r + 1], 2 * c, 2 * w)) / 4.0
  {
    if w > 0 {
      HalvedRow(g, side, r, c, w - 1);
      var k := 2 * w;
      TwoMore(g[2 * r], 2 * c, 2 * (w - 1));
      TwoMore(g[2 * r + 1], 2 * c, 2 * (w - 1));
    }
  }

  lemma TwoMore(row: seq<real>, c: nat, w: nat)
    requires c + w + 2 <= |row|
    ensures RowSum(row, c, w + 2) == RowSum(row, c, w) + row[c + w] + row[c + w + 1]
  {
    assert RowSum(row, c, w + 1) == RowSum(row, c, w) + row[c + w];
  }

  /** One pass turns every block into one a quarter of its sum. */
  lemma {:induction false} HalvedBlock(g: Grid, side: nat, r: nat, c: nat, h: nat, w: nat)
    requires Square(g, 2 * side) && r + h <= side && c + w <= side
    ensures BlockSum(Halved(g, side), side, r, c, h, w) == BlockSum(g, 2 * side, 2 * r, 2 * c, 2 * h, 2 * w) / 4.0
    decreases h
  {
    if h > 0 {
      HalvedBlock(g, side, r, c, h - 1, w);
      HalvedRow(g, side, r + h - 1, c, w);
      TwoMoreRows(g, 2 * side, 2 * r, 2 * c, 2 * (h - 1), 2 * w);
    }
  }

  lemma TwoMoreRows(g: Grid, side: nat, r: nat, c: nat, h: nat, w: nat)
    requires Square(g, side) && r + h + 2 <= side && c + w <= side
    ensures BlockSum(g, side, r, c, h + 2, w)
         == BlockSum(g, side, r, c, h, w) + RowSum(g[r + h], c, w) + RowSum(g[r + h + 1], c, w)
  {
    assert BlockSum(g, side, r, c, h + 1, w) == BlockSum(g, side, r, c, h, w) + RowSum(g[r + h], c, w);
  }

  lemma SingleCell(g: Grid, side: nat, r: nat, c: nat)
    requires Square(g, side) && r < side && c < side
    ensures BlockSum(g, side, r, c, 1, 1) == g[r][c]
  {
    assert RowSum(g[r], c, 1) == RowSum(g[r], c, 0) + g[r][c];
    assert BlockSum(g, side, r, c, 1, 1) == BlockSum(g, side, r, c, 0, 1) + RowSum(g[r], c, 1);
  }

  /** After the three passes each cell is the mean of its own 8x8 block, and the mean of the whole grid
      is what it was. */
  lemma AveragedIsTheBlockMean(g: Grid, r: nat, c: nat)
    requires Square(g, 64) && r < 8 && c < 8
    ensures Averaged(g)[r][c] == BlockSum(g, 64, 8 * r, 8 * c, 8, 8) / 64.0
    ensures BlockSum(Averaged(g), 8, 0, 0, 8, 8) / 64.0 == BlockSum(g, 64, 0, 0, 64, 64) / 4096.0
  {
    hide Halved, BlockSum;
    var g1 := Halved(g, 32);
    var g2 := Halved(g1, 16);
    SingleCell(Averaged(g), 8, r, c);
    HalvedBlock(g2, 8, r, c, 1, 1);
    HalvedBlock(g1, 16, 2 * r, 2 * c, 2, 2);
    HalvedBlock(g, 32, 4 * r, 4 * c, 4, 4);
    HalvedBlock(g2, 8, 0, 0, 8, 8);
    HalvedBlock(g1, 16, 0, 0, 16, 16);
    HalvedBlock(g, 32, 0, 0, 32, 32);
  }

  /** The mean of the k-th 8x8 block, row by row. */
  function BlockMean(g: Grid, k: nat): real
    requires Square(g, 64) && k < 64
  {
    BlockSum(g, 64, 8 * (k / 8), 8 * (k % 8), 8, 8) / 64.0
  }

  function BlockMeans(g: Grid): (means: seq<real>)
    requires Square(g, 64)
    ensures |means| == 64
  {
    seq(64, k requires 0 <= k < 64 => BlockMean(g, k))
  }

  lemma FlatAveragesAreBlockMeans(g: Grid)
    requires Square(g, 64)
    ensures Flat(Averaged(g)) == BlockMeans(g)
  {
    hide Averaged, BlockSum;
    forall k | 0 <= k < 64
      ensures Flat(Averaged(g))[k] == BlockMean(g, k)
    {
      AveragedIsTheBlockMean(g, k / 8, k % 8);
    }
  }

  /** Exactly which bits a wHash sets, the first block's being the most significant: each exactly if its
      8x8 block mean exceeds the median of the 64 block means. */
  lemma WHashSetsExactly(g: Grid, i: nat)
    requires Square(g, 64) && i < 64
    ensures BinaryDigit(Pack(WHashBits(g)), 63 - i) == Bit(BlockMean(g, i) > MedianOf(BlockMeans(g)))
    ensures Unpack(Pack(WHashBits(g)), 64)[i] <==> BlockMean(g, i) > MedianOf(BlockMeans(g))
  {
    hide Averaged, BlockMean, MedianOf, Pack, Unpack, BinaryDigit;
    FlatAveragesAreBlockMeans(g);
    PackedBit(WHashBits(g), i);
    UnpackUndoesPack(WHashBits(g));
  }

  /** Sixty-four different block means set exactly 32 bits. */
  lemma DifferentBlocksSet32Bits(g: Grid)
    requires Square(g, 64) && Distinct(BlockMeans(g))
    ensures BitCount(Pack(WHashBits(g))) == 32
  {
    hide Averaged, BlockMean, MedianOf;
    FlatAveragesAreBlockMeans(g);
    var flat := BlockMeans(g);
    BitCountOfPack(WHashBits(g));
    ExceedingCountsAbove(flat, MedianOf(flat));
    HalfOfDistinctExceedTheMedian(flat);
    assert WHashBits(g) == Exceeding(flat, MedianOf(flat));
  }

  // ---------- Brightness and contrast ----------

  function AffineGrid(g: Grid, side: nat, a: real, b: real): (h: Grid)
    requires Square(g, side)
    ensures Square(h, side)
  {
    seq(side, r requires 0 <= r < side => Affine(g[r], a, b))
  }

  lemma QuarterAffine(x: real, y: real, z: real, t: real, a: real, b: real)
    ensures (Adjust(x, a, b) + Adjust(y, a, b) + Adjust(z, a, b) + Adjust(t, a, b)) / 4.0
         == Adjust((x + y + z + t) / 4.0, a, b)
  {
  }

  lemma HalvedAffine(g: Grid, side: nat, a: real, b: real)
    requires Square(g, 2 * side)
    ensures Halved(AffineGrid(g, 2 * side, a, b), side) == AffineGrid(Halved(g, side), side, a, b)
  {
    hide Adjust;
    var left, right := Halved(AffineGrid(g, 2 * side, a, b), side), AffineGrid(Halved(g, side), side, a, b);
    forall r | 0 <= r < side
      ensures left[r] == right[r]
    {
      forall c | 0 <= c < side
        ensures left[r][c] == right[r][c]
      {
        QuarterAffine(g[2 * r][2 * c], g[2 * r][2 * c + 1], g[2 * r + 1][2 * c], g[2 * r + 1][2 * c + 1], a, b);
      }
    }
  }

  /** Brightening the grid by any amount and stretching its contrast by any positive factor changes no
      bit of its wHash. */
  lemma WHashIgnoresBrightnessAndContrast(g: Grid, a: real, b: real)
    requires Square(g, 64) && a > 0.0
    ensures WHashBits(AffineGrid(g, 64, a, b)) == WHashBits(g)
  {
    hide Halved, AffineGrid, Adjust;
    HalvedAffine(g, 32, a, b);
    HalvedAffine(Halved(g, 32), 16, a, b);
    HalvedAffine(Halved(Halved(g, 32), 16), 8, a, b);
    assert Averaged(AffineGrid(g, 64, a, b)) == AffineGrid(Averaged(g), 8, a, b);
    hide Averaged;
    var flat := Flat(Averaged(g));
    FlatAffine(Averaged(g), a, b);
    MedianAffine(flat, a, b);
    var m := MedianOf(flat);
    forall i | 0 <= i < 64
      ensures (Adjust(flat[i], a, b) > Adjust(m, a, b)) == (flat[i] > m)
    {
      AdjustKeepsOrder(a, b, flat[i], m);
    }
    hide MedianOf;
    assert Exceeding(Affine(flat, a, b), Adjust(m, a, b)) == Exceeding(flat, m);
  }

  lemma FlatAffine(g: Grid, a: real, b: real)
    requires Square(g, 8)
    ensures Flat(AffineGrid(g, 8, a, b)) == Affine(Flat(g), a, b)
  {
    hide Adjust;
    forall i | 0 <= i < 64
      ensures AffineGrid(g, 8, a, b)[i / 8][i % 8] == Adjust(g[i / 8][i % 8], a, b)
    {
      assert AffineGrid(g, 8, a, b)[i / 8] == Affine(g[i / 8], a, b);
    }
  }
}
