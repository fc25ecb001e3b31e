/** Uniform tile spacing (src/codec/av1_obu.cc, write_tile_info): VA reports how many tiles there are, the
    bitstream how often a doubling was asked for (section 5.9.15 of the AV1 specification). */
module Av1Tiles {
  import opened Bits
  import opened Codes
  import opened BitIO
  import opened BitReading

  // ---------------------------------------------------------------- logarithms

  /** `k` is the smallest with `blkSize` times 2^k at least `target`. */
  ghost predicate IsTileLog2(blkSize: nat, target: nat, k: nat) {
    blkSize * Pow2(k) >= target && (k > 0 ==> blkSize * Pow2(k - 1) < target)
  }

  lemma TileLog2Unique(blkSize: nat, target: nat, j: nat, k: nat)
    requires IsTileLog2(blkSize, target, j) && IsTileLog2(blkSize, target, k)
    ensures j == k
  {
    if j < k {
      LargerPower(blkSize, j, k - 1);
    } else if k < j {
      LargerPower(blkSize, k, j - 1);
    }
  }

  lemma LargerPower(blkSize: nat, j: nat, k: nat)
    requires j <= k
    ensures blkSize * Pow2(j) <= blkSize * Pow2(k)
  {
    Pow2Monotone(j, k);
    MulMonotone(Pow2(j), Pow2(k), blkSize);
  }

  /** tile_log2 */
  method TileLog2(blkSize: nat, target: nat) returns (k: nat)
    requires blkSize > 0
    ensures IsTileLog2(blkSize, target, k)
  {
    k := 0;
    var size := blkSize;
    assert blkSize * Pow2(0) == blkSize;
    while size < target
      invariant size == blkSize * Pow2(k) && size > 0 && (k > 0 ==> blkSize * Pow2(k - 1) < target)
      decreases target - size
    {
      size := 2 * size;
      k := k + 1;
    }
  }

  /** ceil_log2 */
  method CeilingLog2(value: nat) returns (bits: nat)
    ensures bits == CeilLog2(value)
  {
    if value < 2 {
      return 0;
    }
    bits := CountDigits(value - 1);
  }

  lemma CeilLog2Unique(n: nat, k: nat)
    requires n <= Pow2(k) && n > 0 && (k > 0 ==> Pow2(k - 1) < n)
    ensures CeilLog2(n) == k
  {
    if n > 1 {
      WidthUnique(n - 1, k);
    }
  }

  // ---------------------------------------------------------------- tile counts

  function CeilDivide(n: nat, d: nat): nat
    requires d > 0
  {
    (n + d - 1) / d
  }

  lemma CeilDivideBounds(n: nat, d: nat)
    requires d > 0
    ensures CeilDivide(n, d) * d >= n
    ensures n > 0 ==> CeilDivide(n, d) > 0 && (CeilDivide(n, d) - 1) * d < n
  {
    var q := CeilDivide(n, d);
    assert n + d - 1 == q * d + (n + d - 1) % d;
    MulOrder(q, 0, d);
  }

  lemma CeilDivideUnique(n: nat, d: nat, q: nat)
    requires d > 0 && q > 0 && q * d >= n && (q - 1) * d < n
    ensures CeilDivide(n, d) == q
  {
    CeilDivideBounds(n, d);
    var c := CeilDivide(n, d);
    if c < q {
      MulMonotone(c, q - 1, d);
    } else if c > q {
      MulMonotone(q, c - 1, d);
    }
  }

  /** The loop over startSb that counts TileCols or TileRows: tiles of `width` cover `n` superblocks. */
  function CountTiles(n: nat, width: nat, startSb: nat): nat
    requires width > 0
    decreases n + width - startSb
  {
    if startSb >= n then 0 else 1 + CountTiles(n, width, startSb + width)
  }

  lemma {:induction false} CountTilesFrom(n: nat, width: nat, startSb: nat)
    requires width > 0
    ensures CountTiles(n, width, startSb) == if startSb >= n then 0 else CeilDivide(n - startSb, width)
    decreases n + width - startSb
  {
    if startSb < n {
      CountTilesFrom(n, width, startSb + width);
      var rest := CountTiles(n, width, startSb + width);
      if startSb + width < n {
        CeilDivideBounds(n - startSb - width, width);
        CeilDivideUnique(n - startSb, width, rest + 1);
      } else {
        CeilDivideUnique(n - startSb, width, 1);
      }
    }
  }

  /** TileCols for TileColsLog2, and TileRows for TileRowsLog2. */
  function Tiles(n: nat, log2: nat): nat {
    var width := CeilDivide(n, Pow2(log2));
    if width == 0 then 0 else CountTiles(n, width, 0)
  }

  /** The largest logarithm that can be coded for `n` superblocks, tiles being at most 64. */
  ghost predicate IsMaxLog2(n: nat, k: nat) {
    IsTileLog2(1, if n < 64 then n else 64, k)
  }

  lemma HalfWouldNotDo(n: nat, p: nat, w: nat)
    requires p > 0 && n > p && w > 0 && (w - 1) * (2 * p) < n
    ensures w * p < n
  {
    if w == 1 {
      assert w * p == p;
    } else {
      assert (w - 1) * (2 * p) == (w - 1) * p + (w - 1) * p;
      MulMonotone(1, w - 1, p);
      assert w * p == (w - 1) * p + p;
    }
  }

  /** The count determines the logarithm: for every number of superblocks and every legal logarithm. */
  lemma CountGivesLog2(n: nat, k: nat, maxLog2: nat)
    requires n > 0 && IsMaxLog2(n, maxLog2) && k <= maxLog2
    ensures CeilLog2(Tiles(n, k)) == k
  {
    var width := CeilDivide(n, Pow2(k));
    CeilDivideBounds(n, Pow2(k));
    CountTilesFrom(n, width, 0);
    CeilDivideBounds(n, width);
    var c := CeilDivide(n, width);
    MulOrder(Pow2(k), c - 1, width);
    assert c <= Pow2(k);
    if k > 0 {
      var p := Pow2(k - 1);
      Pow2Monotone(k - 1, maxLog2 - 1);
      HalfWouldNotDo(n, p, width);
      MulOrder(c, p, width);
      assert p < c;
    }
    CeilLog2Unique(c, k);
  }

  // ---------------------------------------------------------------- increment bits

  function IncrementsCode(low: nat, high: nat, k: nat): seq<bool>
    decreases high - low
  {
    if low >= high then [] else if low < k then [true] + IncrementsCode(low + 1, high, k) else [false]
  }

  function ReadIncrements(s: seq<bool>, low: nat, high: nat): Parsed<nat>
    decreases high - low
  {
    if low >= high then Read(low, s)
    else
      var (increment, s) :- ReadBit(s);
      if increment then ReadIncrements(s, low + 1, high) else Read(low, s)
  }

  lemma {:induction false} IncrementsRoundTrip(low: nat, high: nat, k: nat, rest: seq<bool>)
    requires low <= k <= high
    ensures ReadIncrements(IncrementsCode(low, high, k) + rest, low, high) == Read(k, rest)
    decreases high - low
  {
    if low >= high {
      assert [] + rest == rest;
    } else if low < k {
      Associative([true], IncrementsCode(low + 1, high, k), rest);
      IncrementsRoundTrip(low + 1, high, k, rest);
    }
  }

  method WriteIncrements(b: BitWriter, low: nat, high: nat, k: nat)
    requires b.Valid()
    modifies b
    ensures b.Valid() && b.contents == old(b.contents) + IncrementsCode(low, high, k)
  {
    hide ByteBits, FromBytes;
    var i := low;
    while i < high
      invariant b.Valid() && b.contents + IncrementsCode(i, high, k) == old(b.contents) + IncrementsCode(low, high, k)
    {
      ghost var was := b.contents;
      var increment := i < k;
      b.Bit(increment);
      if !increment {
        return;
      }
      Associative(was, [true], IncrementsCode(i + 1, high, k));
      i := i + 1;
    }
    assert b.contents + [] == b.contents;
  }

  // ---------------------------------------------------------------- the uniform branch

  /** The limits of section 5.9.15 for a frame of `sbCols` times `sbRows` superblocks. */
  datatype Limits = Limits(minCols: nat, maxCols: nat, maxRows: nat, minTiles: nat)

  ghost predicate AreLimits(use128: bool, sbCols: nat, sbRows: nat, l: Limits) {
    var sbSize := if use128 then 128 else 64;
    var maxWidthSb, maxAreaSb := 4096 / sbSize, 4096 * 2304 / (sbSize * sbSize);
    && IsTileLog2(maxWidthSb, sbCols, l.minCols)
    && IsMaxLog2(sbCols, l.maxCols) && IsMaxLog2(sbRows, l.maxRows)
    && exists area :: IsTileLog2(maxAreaSb, sbRows * sbCols, area) && l.minTiles == Max(l.minCols, area)
  }

  /** The limits depend on the frame only. */
  lemma LimitsUnique(use128: bool, sbCols: nat, sbRows: nat, l: Limits, m: Limits)
    requires AreLimits(use128, sbCols, sbRows, l) && AreLimits(use128, sbCols, sbRows, m)
    ensures l == m
  {
    hide IsTileLog2;
    var maxWidthSb, maxAreaSb := if use128 then 32 else 64, if use128 then 576 else 2304;
    TileLog2Unique(maxWidthSb, sbCols, l.minCols, m.minCols);
    TileLog2Unique(1, if sbCols < 64 then sbCols else 64, l.maxCols, m.maxCols);
    TileLog2Unique(1, if sbRows < 64 then sbRows else 64, l.maxRows, m.maxRows);
    var a :| IsTileLog2(maxAreaSb, sbRows * sbCols, a) && l.minTiles == Max(l.minCols, a);
    var b :| IsTileLog2(maxAreaSb, sbRows * sbCols, b) && m.minTiles == Max(m.minCols, b);
    TileLog2Unique(maxAreaSb, sbRows * sbCols, a, b);
  }

  function Max(a: nat, b: nat): nat {
    if a < b then b else a
  }

  function MinRows(l: Limits, colsLog2: nat): nat {
    if l.minTiles > colsLog2 then l.minTiles - colsLog2 else 0
  }

  function UniformCode(l: Limits, colsLog2: nat, rowsLog2: nat): seq<bool> {
    [true] + (IncrementsCode(l.minCols, l.maxCols, colsLog2)
        + IncrementsCode(MinRows(l, colsLog2), l.maxRows, rowsLog2))
  }

  /** tile_info( ) up to the logarithms, when the spacing is uniform. */
  function ReadUniform(s: seq<bool>, l: Limits): Parsed<(nat, nat)> {
    var (uniform, s) :- ReadBit(s);
    if !uniform then Malformed
    else
      var (colsLog2, s) :- ReadIncrements(s, l.minCols, l.maxCols);
      var minLog2TileRows := if l.minTiles < colsLog2 then 0 else l.minTiles - colsLog2;
      var (rowsLog2, s) :- ReadIncrements(s, minLog2TileRows, l.maxRows);
      Read((colsLog2, rowsLog2), s)
  }

  /** A pair of logarithms that the syntax can express. */
  predicate Legal(l: Limits, colsLog2: nat, rowsLog2: nat) {
    l.minCols <= colsLog2 <= l.maxCols && l.minTiles - colsLog2 <= rowsLog2 <= l.maxRows
  }

  lemma UniformRoundTrip(l: Limits, colsLog2: nat, rowsLog2: nat, rest: seq<bool>)
    requires Legal(l, colsLog2, rowsLog2)
    ensures ReadUniform(UniformCode(l, colsLog2, rowsLog2) + rest, l) == Read((colsLog2, rowsLog2), rest)
  {
    hide IncrementsCode, ReadIncrements;
    var cols := IncrementsCode(l.minCols, l.maxCols, colsLog2);
    var rows := IncrementsCode(MinRows(l, colsLog2), l.maxRows, rowsLog2);
    Associative([true], cols + rows, rest);
    Associative(cols, rows, rest);
    IncrementsRoundTrip(l.minCols, l.maxCols, colsLog2, rows + rest);
    IncrementsRoundTrip(MinRows(l, colsLog2), l.maxRows, rowsLog2, rest);
  }

  /** What the stream said is what is written: the counts that follow from legal logarithms are accepted, and
      the bits written for them are read back as those logarithms. */
  lemma UniformRecovered(use128: bool, sbCols: nat, sbRows: nat, l: Limits, colsLog2: nat, rowsLog2: nat,
                         rest: seq<bool>)
    requires sbCols > 0 && sbRows > 0 && AreLimits(use128, sbCols, sbRows, l) && Legal(l, colsLog2, rowsLog2)
    ensures var c, r := CeilLog2(Tiles(sbCols, colsLog2)), CeilLog2(Tiles(sbRows, rowsLog2));
            Legal(l, c, r) && ReadUniform(UniformCode(l, c, r) + rest, l) == Read((colsLog2, rowsLog2), rest)
  {
    hide UniformCode, ReadUniform, Tiles, CeilLog2;
    CountGivesLog2(sbCols, colsLog2, l.maxCols);
    CountGivesLog2(sbRows, rowsLog2, l.maxRows);
    UniformRoundTrip(l, colsLog2, rowsLog2, rest);
  }

  method FrameLimits(use128: bool, sbCols: nat, sbRows: nat) returns (l: Limits)
    ensures AreLimits(use128, sbCols, sbRows, l)
  {
    hide IsTileLog2;
    var maxWidthSb, maxAreaSb := if use128 then 32 else 64, if use128 then 576 else 2304;
    var minCols := TileLog2(maxWidthSb, sbCols);
    var maxCols := TileLog2(1, if sbCols < 64 then sbCols else 64);
    var maxRows := TileLog2(1, if sbRows < 64 then sbRows else 64);
    var area := TileLog2(maxAreaSb, sbRows * sbCols);
    l := Limits(minCols, maxCols, maxRows, Max(minCols, area));
  }

  /** The uniform branch of write_tile_info; false for counts that the syntax cannot express. */
  method WriteUniform(b: BitWriter, use128: bool, sbCols: nat, sbRows: nat, tileCols: nat, tileRows: nat)
    returns (ok: bool, ghost l: Limits)
    requires b.Valid()
    modifies b
    ensures b.Valid() && AreLimits(use128, sbCols, sbRows, l)
    ensures ok <==> Legal(l, CeilLog2(tileCols), CeilLog2(tileRows))
    ensures ok ==> b.contents == old(b.contents) + UniformCode(l, CeilLog2(tileCols), CeilLog2(tileRows))
  {
    hide ByteBits, FromBytes, IncrementsCode, AreLimits, CeilLog2;
    var limits := FrameLimits(use128, sbCols, sbRows);
    l := limits;
    b.Bit(true);
    var colsLog2 := CeilingLog2(tileCols);
    if colsLog2 < limits.minCols || colsLog2 > limits.maxCols {
      return false, limits;
    }
    WriteIncrements(b, limits.minCols, limits.maxCols, colsLog2);
    var minRows := if limits.minTiles > colsLog2 then limits.minTiles - colsLog2 else 0;
    var rowsLog2 := CeilingLog2(tileRows);
    if rowsLog2 < minRows || rowsLog2 > limits.maxRows {
      return false, limits;
    }
    WriteIncrements(b, minRows, limits.maxRows, rowsLog2);
    UniformShape(old(b.contents), IncrementsCode(limits.minCols, limits.maxCols, colsLog2),
                 IncrementsCode(minRows, limits.maxRows, rowsLog2));
    ok := true;
  }

  lemma UniformShape(w: seq<bool>, cols: seq<bool>, rows: seq<bool>)
    ensures ((w + [true]) + cols) + rows == w + ([true] + (cols + rows))
  {
  }
}
