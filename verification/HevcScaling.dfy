/** Scaling lists (src/codec/hevc.cc, scaling_lists): VA's raster matrices as the differences, along the
    up-right diagonal scan, that section 7.3.4 of H.265 decodes. */
module HevcScaling {
  import opened Bits
  import opened Codes
  import opened BitIO

  // ---------------------------------------------------------------- the scan

  datatype Cell = Cell(x: nat, y: nat)

  function Min(a: nat, b: nat): nat {
    if a < b then a else b
  }

  /** The cells of a diagonal from (x, y) up and to the right. */
  function Diagonal(side: nat, x: nat, y: int): seq<Cell>
    decreases side - x
  {
    if y < 0 || x >= side then [] else [Cell(x, y)] + Diagonal(side, x + 1, y - 1)
  }

  /** The walk from diagonal `d` on. */
  function ScanFrom(side: nat, d: nat): seq<Cell>
    decreases 2 * side - d
  {
    if d + 1 >= 2 * side then []
    else Diagonal(side, d - Min(d, side - 1), Min(d, side - 1)) + ScanFrom(side, d + 1)
  }

  function Scan(side: nat): seq<Cell> {
    ScanFrom(side, 0)
  }

  /** Section 6.5.3: from (0, d) up to (d, 0), keeping the positions inside the block. */
  function StandardDiagonal(side: nat, x: nat, y: int): seq<Cell>
    decreases y + 1
  {
    if y < 0 then []
    else (if x < side && y < side then [Cell(x, y)] else []) + StandardDiagonal(side, x + 1, y - 1)
  }

  /** ... until the block is full; `left` positions are still missing. */
  function StandardScan(side: nat, d: nat, left: int): seq<Cell>
    decreases 2 * side - d
  {
    if left <= 0 || d >= 2 * side then []
    else
      var cells := StandardDiagonal(side, 0, d);
      cells + StandardScan(side, d + 1, left - |cells|)
  }

  lemma {:induction false} InsideBlock(side: nat, x: nat, y: int)
    requires y < side
    ensures StandardDiagonal(side, x, y) == Diagonal(side, x, y)
    decreases y + 1
  {
    if y >= 0 {
      InsideBlock(side, x + 1, y - 1);
      if x >= side {
        OutsideRight(side, x, y);
      }
    }
  }

  lemma {:induction false} OutsideRight(side: nat, x: nat, y: int)
    requires x >= side
    ensures StandardDiagonal(side, x, y) == []
    decreases y + 1
  {
    if y >= 0 {
      OutsideRight(side, x + 1, y - 1);
    }
  }

  lemma {:induction false} SkipsBelow(side: nat, x: nat, y: int)
    requires side > 0
    ensures y >= side ==> StandardDiagonal(side, x, y) == StandardDiagonal(side, x + (y - side + 1), side - 1)
    decreases y + 1
  {
    if y >= side {
      SkipsBelow(side, x + 1, y - 1);
    }
  }

  lemma SameDiagonal(side: nat, d: nat)
    requires side > 0
    ensures StandardDiagonal(side, 0, d) == Diagonal(side, d - Min(d, side - 1), Min(d, side - 1))
  {
    if d < side {
      InsideBlock(side, 0, d);
    } else {
      SkipsBelow(side, 0, d);
      InsideBlock(side, d - side + 1, side - 1);
    }
  }

  lemma {:induction false} DiagonalLength(side: nat, x: nat, y: int)
    requires y < side
    ensures |Diagonal(side, x, y)| == if y < 0 || x >= side then 0 else Min(y + 1, side - x)
    decreases side - x
  {
    if y >= 0 && x < side {
      DiagonalLength(side, x + 1, y - 1);
    }
  }

  /** The number of cells from diagonal `d` on. */
  lemma {:induction false} ScanLength(side: nat, d: nat)
    requires side > 0 && d < 2 * side
    ensures d >= side ==> 2 * |ScanFrom(side, d)| == (2 * side - 1 - d) * (2 * side - d)
    ensures d < side ==> 2 * (side * side - |ScanFrom(side, d)|) == d * (d + 1)
    decreases 2 * side - d
  {
    if d + 1 == 2 * side {
    } else {
      ScanLength(side, d + 1);
      DiagonalLength(side, d - Min(d, side - 1), Min(d, side - 1));
      LengthStep(side, d, |ScanFrom(side, d + 1)|);
    }
  }

  lemma LengthStep(side: nat, d: nat, rest: nat)
    requires side > 0 && d + 1 < 2 * side
    requires d + 1 >= side ==> 2 * rest == (2 * side - 2 - d) * (2 * side - 1 - d)
    requires d + 1 < side ==> 2 * (side * side - rest) == (d + 1) * (d + 2)
    ensures d >= side ==> 2 * (2 * side - 1 - d + rest) == (2 * side - 1 - d) * (2 * side - d)
    ensures d < side ==> 2 * (side * side - (d + 1) - rest) == d * (d + 1)
  {
    if d >= side {
      var k := 2 * side - 1 - d;
      assert 2 * k + (k - 1) * k == k * (k + 1);
    } else if d == side - 1 {
      assert 2 * rest == (side - 1) * side;
      assert 2 * (side * side) == 2 * side + 2 * ((side - 1) * side);
    } else {
      assert (d + 1) * (d + 2) == d * (d + 1) + 2 * (d + 1);
    }
  }

  /** The walk is the up-right diagonal scan of section 6.5.3. */
  lemma {:induction false} ScanIsStandardFrom(side: nat, d: nat)
    requires side > 0 && d < 2 * side
    ensures StandardScan(side, d, |ScanFrom(side, d)|) == ScanFrom(side, d)
    decreases 2 * side - d
  {
    if d + 1 < 2 * side {
      ScanIsStandardFrom(side, d + 1);
      SameDiagonal(side, d);
      DiagonalLength(side, d - Min(d, side - 1), Min(d, side - 1));
    }
  }

  lemma ScanIsStandard(side: nat)
    requires side > 0
    ensures |Scan(side)| == side * side && Scan(side) == StandardScan(side, 0, side * side)
  {
    ScanLength(side, 0);
    ScanIsStandardFrom(side, 0);
  }

  // ---------------------------------------------------------------- each cell exactly once

  lemma {:induction false} DiagonalCells(side: nat, x: nat, y: int, c: Cell)
    ensures c in Diagonal(side, x, y) <==> x <= c.x < side && c.y >= 0 && c.x + c.y == x + y && y >= 0
    decreases side - x
  {
    if y >= 0 && x < side {
      DiagonalCells(side, x + 1, y - 1, c);
    }
  }

  lemma {:induction false} ScanCells(side: nat, d: nat, c: Cell)
    requires side > 0
    ensures c in ScanFrom(side, d) <==> c.x < side && c.y < side && c.x + c.y >= d
    decreases 2 * side - d
  {
    if d + 1 < 2 * side {
      ScanCells(side, d + 1, c);
      DiagonalCells(side, d - Min(d, side - 1), Min(d, side - 1), c);
    }
  }

  ghost predicate NoRepeats(s: seq<Cell>) {
    forall i, j :: 0 <= i < j < |s| ==> s[i] != s[j]
  }

  lemma {:induction false} DiagonalNoRepeats(side: nat, x: nat, y: int)
    ensures NoRepeats(Diagonal(side, x, y))
    decreases side - x
  {
    if y >= 0 && x < side {
      DiagonalNoRepeats(side, x + 1, y - 1);
      DiagonalCells(side, x + 1, y - 1, Cell(x, y));
    }
  }

  lemma {:induction false} ScanNoRepeats(side: nat, d: nat)
    requires side > 0
    ensures NoRepeats(ScanFrom(side, d))
    decreases 2 * side - d
  {
    if d + 1 < 2 * side {
      var here, rest := Diagonal(side, d - Min(d, side - 1), Min(d, side - 1)), ScanFrom(side, d + 1);
      DiagonalNoRepeats(side, d - Min(d, side - 1), Min(d, side - 1));
      ScanNoRepeats(side, d + 1);
      forall i, j | 0 <= i < |here| && 0 <= j < |rest|
        ensures here[i] != rest[j]
      {
        assert here[i] in here && rest[j] in rest;
        DiagonalCells(side, d - Min(d, side - 1), Min(d, side - 1), here[i]);
        ScanCells(side, d + 1, rest[j]);
      }
    }
  }

  /** Every cell is visited, and none twice. */
  lemma VisitsEachCellOnce(side: nat, c: Cell)
    requires side > 0
    ensures c in Scan(side) <==> c.x < side && c.y < side
    ensures forall i, j :: 0 <= i < j < |Scan(side)| ==> Scan(side)[i] != Scan(side)[j]
  {
    ScanCells(side, 0, c);
    ScanNoRepeats(side, 0);
  }

  // ---------------------------------------------------------------- coefficients

  /** A matrix in raster order and its DC value. */
  datatype Matrix = Matrix(values: seq<byte>, dc: byte)

  predicate Square(m: Matrix, side: nat) {
    |m.values| == side * side
  }

  /** Raster position of a cell. */
  function At(side: nat, c: Cell): nat {
    c.y * side + c.x
  }

  lemma InRaster(side: nat, c: Cell)
    requires c.x < side && c.y < side
    ensures At(side, c) < side * side
  {
    MulMonotone(c.y + 1, side, side);
  }

  lemma RowByRow(side: nat, c: Cell)
    ensures At(side, c) == c.y * side + c.x
  {
  }

  ghost predicate Inside(cells: seq<Cell>, side: nat) {
    forall c :: c in cells ==> At(side, c) < side * side
  }

  /** The matrix entries along a sequence of cells. */
  function Along(values: seq<byte>, side: nat, cells: seq<Cell>): seq<byte>
    requires |values| == side * side && Inside(cells, side)
  {
    if cells == [] then []
    else
      assert cells[0] in cells;
      [values[At(side, cells[0])]] + Along(values, side, cells[1..])
  }

  /** scaling_list_delta_coef for `value` after `previous`. */
  function Delta(value: byte, previous: byte): (d: int)
    ensures -128 <= d <= 127
    ensures (previous + d + 256) % 256 == value
  {
    var d := (value - previous + 256) % 256;
    if d > 127 then d - 256 else d
  }

  function DeltasCode(previous: byte, values: seq<byte>): seq<bool>
    decreases |values|
  {
    if values == [] then [] else SeCode(Delta(values[0], previous)) + DeltasCode(values[0], values[1..])
  }

  /** scaling_list_pred_mode_flag, scaling_list_dc_coef_minus8 and the coefficients. */
  function MatrixCode(m: Matrix, side: nat, hasDc: bool): seq<bool>
    requires Square(m, side) && Inside(Scan(side), side)
  {
    [true] + ((if hasDc then SeCode(m.dc - 8) else [])
        + DeltasCode(if hasDc then m.dc else 8, Along(m.values, side, Scan(side))))
  }

  function ReadDeltas(s: seq<bool>, nextCoef: byte, n: nat): Parsed<seq<byte>>
    decreases n
  {
    if n == 0 then Read([], s)
    else
      var (delta, s) :- ReadSe(s);
      var coef: byte := (nextCoef + delta + 256) % 256;
      var (rest, s) :- ReadDeltas(s, coef, n - 1);
      Read([coef] + rest, s)
  }

  /** A list that is not predicted (7.3.4): its DC value, 16 if there is none, and its coefficients. */
  function ReadMatrix(s: seq<bool>, n: nat, hasDc: bool): Parsed<(int, seq<byte>)> {
    var (explicit, s) :- ReadBit(s);
    if !explicit then Malformed
    else if hasDc then
      var (dcMinus8, s) :- ReadSe(s);
      if !(0 <= dcMinus8 + 8 < 256) then Malformed
      else
        var (coefs, s) :- ReadDeltas(s, dcMinus8 + 8, n);
        Read((dcMinus8 + 8, coefs), s)
    else
      var (coefs, s) :- ReadDeltas(s, 8, n);
      Read((16, coefs), s)
  }

  lemma {:induction false} DeltasRoundTrip(previous: byte, values: seq<byte>, rest: seq<bool>)
    ensures ReadDeltas(DeltasCode(previous, values) + rest, previous, |values|) == Read(values, rest)
    decreases |values|
  {
    hide SeCode, ReadSe;
    if values == [] {
      assert DeltasCode(previous, values) + rest == rest;
    } else {
      var tail := DeltasCode(values[0], values[1..]);
      Associative(SeCode(Delta(values[0], previous)), tail, rest);
      SeRoundTrip(Delta(values[0], previous), tail + rest);
      DeltasRoundTrip(values[0], values[1..], rest);
      assert values == [values[0]] + values[1..];
    }
  }

  lemma MatrixRoundTrip(m: Matrix, side: nat, hasDc: bool, rest: seq<bool>)
    requires Square(m, side) && Inside(Scan(side), side)
    ensures var coefs := Along(m.values, side, Scan(side));
            ReadMatrix(MatrixCode(m, side, hasDc) + rest, |coefs|, hasDc)
                == Read((if hasDc then m.dc else 16, coefs), rest)
  {
    hide SeCode, ReadSe, DeltasCode, ReadDeltas, Along, Scan;
    var coefs := Along(m.values, side, Scan(side));
    var code := DeltasCode(if hasDc then m.dc else 8, coefs);
    if hasDc {
      SeRoundTrip(m.dc - 8, code + rest);
      MatrixShape(SeCode(m.dc - 8), code, rest);
    } else {
      MatrixShape([], code, rest);
    }
    DeltasRoundTrip(if hasDc then m.dc else 8, coefs, rest);
  }

  lemma MatrixShape(dc: seq<bool>, code: seq<bool>, rest: seq<bool>)
    ensures ([true] + (dc + code)) + rest == [true] + (dc + (code + rest))
    ensures dc == [] ==> dc + (code + rest) == code + rest
  {
  }

  lemma {:induction false} AlongAt(values: seq<byte>, side: nat, cells: seq<Cell>)
    requires |values| == side * side && Inside(cells, side)
    ensures |Along(values, side, cells)| == |cells|
    ensures forall i {:trigger Along(values, side, cells)[i]} :: 0 <= i < |cells| ==>
              At(side, cells[i]) < |values| && Along(values, side, cells)[i] == values[At(side, cells[i])]
  {
    if cells != [] {
      AlongAt(values, side, cells[1..]);
      forall i | 0 <= i < |cells|
        ensures At(side, cells[i]) < |values| && Along(values, side, cells)[i] == values[At(side, cells[i])]
      {
        assert cells[i] in cells;
        if i > 0 {
          assert cells[i] == cells[1..][i - 1];
        }
      }
    }
  }

  /** The decoder puts coefficient `i` at position `i` of the scan: it gets VA's matrix, row by row, cell by cell. */
  lemma DecodedMatrix(m: Matrix, side: nat, hasDc: bool, rest: seq<bool>, c: Cell, k: nat)
    requires side > 0 && Square(m, side) && Inside(Scan(side), side) && c.x < side && c.y < side
    requires k == c.y * side + c.x
    ensures var r := ReadMatrix(MatrixCode(m, side, hasDc) + rest, side * side, hasDc);
            && r.Read? && r.rest == rest && r.value.0 == (if hasDc then m.dc else 16)
            && |r.value.1| == side * side == |StandardScan(side, 0, side * side)|
            && (exists i :: 0 <= i < side * side && StandardScan(side, 0, side * side)[i] == c)
            && (forall i :: 0 <= i < side * side && StandardScan(side, 0, side * side)[i] == c ==>
                  k < |m.values| && r.value.1[i] == m.values[k])
  {
    hide StandardScan, Scan, MatrixCode, ReadMatrix, Along, At, Inside;
    DecodedCell(m, side, hasDc, rest, c);
    RowByRow(side, c);
  }

  lemma DecodedCell(m: Matrix, side: nat, hasDc: bool, rest: seq<bool>, c: Cell)
    requires side > 0 && Square(m, side) && Inside(Scan(side), side) && c.x < side && c.y < side
    ensures var r := ReadMatrix(MatrixCode(m, side, hasDc) + rest, side * side, hasDc);
            && r.Read? && r.rest == rest && r.value.0 == (if hasDc then m.dc else 16)
            && |r.value.1| == side * side == |StandardScan(side, 0, side * side)|
            && (exists i :: 0 <= i < side * side && StandardScan(side, 0, side * side)[i] == c)
            && (forall i :: 0 <= i < side * side && StandardScan(side, 0, side * side)[i] == c ==>
                  At(side, c) < |m.values| && r.value.1[i] == m.values[At(side, c)])
  {
    ScanIsStandard(side);
    VisitsEachCellOnce(side, c);
    hide StandardScan, Scan, MatrixCode, ReadMatrix, Along;
    AlongAt(m.values, side, Scan(side));
    MatrixRoundTrip(m, side, hasDc, rest);
    assert c in Scan(side);
    InRaster(side, c);
  }

  // ---------------------------------------------------------------- scaling_list_data( )

  function Side(sizeId: nat): nat {
    if sizeId == 0 then 4 else 8
  }

  function Count(sizeId: nat): nat {
    if sizeId == 3 then 2 else 6
  }

  /** VA's matrices of one size. */
  ghost predicate Shaped(ms: seq<Matrix>, sizeId: nat) {
    |ms| == Count(sizeId) && forall m :: m in ms ==> Square(m, Side(sizeId))
  }

  ghost predicate AllShaped(lists: seq<seq<Matrix>>) {
    |lists| == 4 && forall sizeId :: 0 <= sizeId < 4 ==> Shaped(lists[sizeId], sizeId)
  }

  lemma ScanInside(side: nat)
    requires side > 0
    ensures Inside(Scan(side), side)
  {
    forall c | c in Scan(side)
      ensures At(side, c) < side * side
    {
      ScanCells(side, 0, c);
      InRaster(side, c);
    }
  }

  function CodeOf(m: Matrix, sizeId: nat): seq<bool>
    requires Square(m, Side(sizeId))
  {
    ScanInside(Side(sizeId));
    MatrixCode(m, Side(sizeId), sizeId > 1)
  }

  function SizeCode(ms: seq<Matrix>, sizeId: nat): seq<bool>
    requires forall m :: m in ms ==> Square(m, Side(sizeId))
  {
    if ms == [] then [] else CodeOf(ms[0], sizeId) + SizeCode(ms[1..], sizeId)
  }

  function ScalingCode(lists: seq<seq<Matrix>>): seq<bool>
    requires AllShaped(lists)
  {
    SizeCode(lists[0], 0) + (SizeCode(lists[1], 1) + (SizeCode(lists[2], 2) + SizeCode(lists[3], 3)))
  }

  /** coefNum of section 7.3.4. */
  function CoefNum(sizeId: nat): nat {
    if sizeId == 0 then 16 else 64
  }

  function ReadSize(s: seq<bool>, sizeId: nat, n: nat): Parsed<seq<(int, seq<byte>)>>
    decreases n
  {
    if n == 0 then Read([], s)
    else
      var (m, s) :- ReadMatrix(s, CoefNum(sizeId), sizeId > 1);
      var (rest, s) :- ReadSize(s, sizeId, n - 1);
      Read([m] + rest, s)
  }

  /** All four sizes; of the largest there are two, the chroma format being 4:2:0. */
  function ReadScaling(s: seq<bool>): Parsed<seq<seq<(int, seq<byte>)>>> {
    var (l0, s) :- ReadSize(s, 0, 6);
    var (l1, s) :- ReadSize(s, 1, 6);
    var (l2, s) :- ReadSize(s, 2, 6);
    var (l3, s) :- ReadSize(s, 3, 2);
    Read([l0, l1, l2, l3], s)
  }

  /** What a decoder should have of one matrix. */
  function Decoded(m: Matrix, sizeId: nat): (int, seq<byte>)
    requires Square(m, Side(sizeId))
  {
    ScanInside(Side(sizeId));
    (if sizeId > 1 then m.dc else 16, Along(m.values, Side(sizeId), Scan(Side(sizeId))))
  }

  function DecodedSize(ms: seq<Matrix>, sizeId: nat): seq<(int, seq<byte>)>
    requires forall m :: m in ms ==> Square(m, Side(sizeId))
  {
    seq(|ms|, i requires 0 <= i < |ms| => assert ms[i] in ms; Decoded(ms[i], sizeId))
  }

  lemma OneRoundTrip(m: Matrix, sizeId: nat, rest: seq<bool>)
    requires Square(m, Side(sizeId))
    ensures ReadMatrix(CodeOf(m, sizeId) + rest, CoefNum(sizeId), sizeId > 1) == Read(Decoded(m, sizeId), rest)
  {
    hide MatrixCode, ReadMatrix, Scan, Along;
    ScanInside(Side(sizeId));
    ScanIsStandard(Side(sizeId));
    AlongAt(m.values, Side(sizeId), Scan(Side(sizeId)));
    MatrixRoundTrip(m, Side(sizeId), sizeId > 1, rest);
  }

  lemma {:induction false} SizeRoundTrip(ms: seq<Matrix>, sizeId: nat, rest: seq<bool>)
    requires forall m :: m in ms ==> Square(m, Side(sizeId))
    ensures ReadSize(SizeCode(ms, sizeId) + rest, sizeId, |ms|) == Read(DecodedSize(ms, sizeId), rest)
  {
    hide CodeOf, ReadMatrix, Decoded, Square, Side;
    if ms == [] {
      assert SizeCode(ms, sizeId) + rest == rest;
    } else {
      assert ms[0] in ms && forall m :: m in ms[1..] ==> m in ms;
      var tail := SizeCode(ms[1..], sizeId);
      Associative(CodeOf(ms[0], sizeId), tail, rest);
      OneRoundTrip(ms[0], sizeId, tail + rest);
      SizeRoundTrip(ms[1..], sizeId, rest);
      assert DecodedSize(ms, sizeId) == [Decoded(ms[0], sizeId)] + DecodedSize(ms[1..], sizeId);
    }
  }

  /** A decoder reads back every matrix, along the scan, and every DC value. */
  lemma ScalingRoundTrip(lists: seq<seq<Matrix>>, rest: seq<bool>)
    requires AllShaped(lists)
    ensures ReadScaling(ScalingCode(lists) + rest)
         == Read([DecodedSize(lists[0], 0), DecodedSize(lists[1], 1), DecodedSize(lists[2], 2),
             DecodedSize(lists[3], 3)], rest)
  {
    assert Shaped(lists[0], 0) && Shaped(lists[1], 1) && Shaped(lists[2], 2) && Shaped(lists[3], 3);
    hide SizeCode, ReadSize, DecodedSize, Side;
    var c1, c2, c3 := SizeCode(lists[1], 1), SizeCode(lists[2], 2), SizeCode(lists[3], 3);
    Peel4(SizeCode(lists[0], 0), c1, c2, c3, rest);
    SizeRoundTrip(lists[0], 0, c1 + (c2 + (c3 + rest)));
    SizeRoundTrip(lists[1], 1, c2 + (c3 + rest));
    SizeRoundTrip(lists[2], 2, c3 + rest);
    SizeRoundTrip(lists[3], 3, rest);
  }

  /** `r` is the matrix: its DC value, and at each position of the scan the value of that cell, row by row. */
  ghost predicate Matches(r: (int, seq<byte>), m: Matrix, sizeId: nat) {
    var side := if sizeId == 0 then 4 else 8;
    var cells := StandardScan(side, 0, side * side);
    && r.0 == (if sizeId == 2 || sizeId == 3 then m.dc else 16)
    && |r.1| == |m.values| == |cells| == side * side
    && forall i :: 0 <= i < side * side ==>
         cells[i].x < side && cells[i].y * side + cells[i].x < side * side
         && r.1[i] == m.values[cells[i].y * side + cells[i].x]
  }

  ghost predicate AllMatch(rs: seq<(int, seq<byte>)>, ms: seq<Matrix>, sizeId: nat) {
    |rs| == |ms| && forall id :: 0 <= id < |ms| ==> Matches(rs[id], ms[id], sizeId)
  }

  /** So a decoder has six matrices of each of the first three sizes and two of the largest, each of them VA's. */
  lemma ScalingMeaning(lists: seq<seq<Matrix>>, rest: seq<bool>)
    requires AllShaped(lists)
    ensures var r := ReadScaling(ScalingCode(lists) + rest);
            && r.Read? && r.rest == rest && |r.value| == 4
            && |r.value[0]| == |r.value[1]| == |r.value[2]| == 6 && |r.value[3]| == 2
            && forall sizeId :: 0 <= sizeId < 4 ==> AllMatch(r.value[sizeId], lists[sizeId], sizeId)
  {
    hide ReadScaling, ScalingCode, DecodedSize, Square, AllMatch, Side;
    assert Shaped(lists[0], 0) && Shaped(lists[1], 1) && Shaped(lists[2], 2) && Shaped(lists[3], 3);
    ScalingRoundTrip(lists, rest);
    SizeMatches(lists[0], 0);
    SizeMatches(lists[1], 1);
    SizeMatches(lists[2], 2);
    SizeMatches(lists[3], 3);
  }

  lemma SizeMatches(ms: seq<Matrix>, sizeId: nat)
    requires sizeId <= 3 && Shaped(ms, sizeId)
    ensures |DecodedSize(ms, sizeId)| == |ms| && AllMatch(DecodedSize(ms, sizeId), ms, sizeId)
  {
    hide Matches, Square, Side, Decoded;
    forall id | 0 <= id < |ms|
      ensures Matches(DecodedSize(ms, sizeId)[id], ms[id], sizeId)
    {
      assert ms[id] in ms;
      DecodedMatches(ms[id], sizeId);
    }
  }

  lemma DecodedMatches(m: Matrix, sizeId: nat)
    requires sizeId <= 3 && Square(m, Side(sizeId))
    ensures Matches(Decoded(m, sizeId), m, sizeId)
  {
    hide StandardScan, Scan, Along;
    var side := Side(sizeId);
    ScanIsStandard(side);
    ScanInside(side);
    AlongAt(m.values, side, Scan(side));
    forall i | 0 <= i < side * side
      ensures Scan(side)[i].x < side && Scan(side)[i].y < side
    {
      VisitsEachCellOnce(side, Scan(side)[i]);
    }
  }

  // ---------------------------------------------------------------- the writer

  method WriteDiagonal(b: BitWriter, values: seq<byte>, side: nat, d: nat, previous0: byte, ghost rest: seq<Cell>)
    returns (previous: byte)
    requires b.Valid() && side > 0 && |values| == side * side && d + 1 < 2 * side
    requires var cells := Diagonal(side, d - Min(d, side - 1), Min(d, side - 1)) + rest; Inside(cells, side)
    modifies b
    ensures b.Valid() && Inside(rest, side)
    ensures var cells := Diagonal(side, d - Min(d, side - 1), Min(d, side - 1)) + rest;
            (b.contents + DeltasCode(previous, Along(values, side, rest))
             == old(b.contents) + DeltasCode(previous0, Along(values, side, cells)))
  {
    hide ByteBits, FromBytes, SeCode;
    var y: int := Min(d, side - 1);
    var x := d - y;
    previous := previous0;
    ghost var goal := old(b.contents) + DeltasCode(previous0, Along(values, side, Diagonal(side, x, y) + rest));
    while y >= 0 && x < side
      invariant b.Valid() && y < side && Inside(Diagonal(side, x, y) + rest, side)
      invariant b.contents + DeltasCode(previous, Along(values, side, Diagonal(side, x, y) + rest)) == goal
      decreases side - x
    {
      ghost var cells, next := Diagonal(side, x, y) + rest, Diagonal(side, x + 1, y - 1) + rest;
      assert cells == [Cell(x, y)] + next;
      InRaster(side, Cell(x, y));
      var value := values[y * side + x];
      var delta := (value - previous + 256) % 256;
      if delta > 127 {
        delta := delta - 256;
      }
      Associative(b.contents, SeCode(delta), DeltasCode(value, Along(values, side, next)));
      b.Se(delta);
      previous := value;
      y := y - 1;
      x := x + 1;
    }
    assert Diagonal(side, x, y) + rest == rest;
  }

  method WriteWalk(b: BitWriter, values: seq<byte>, side: nat, first: byte)
    requires b.Valid() && side > 0 && |values| == side * side && Inside(Scan(side), side)
    modifies b
    ensures b.Valid() && b.contents == old(b.contents) + DeltasCode(first, Along(values, side, Scan(side)))
  {
    hide ByteBits, FromBytes, DeltasCode, Along, Diagonal;
    var previous := first;
    for d := 0 to 2 * side - 1
      invariant b.Valid() && Inside(ScanFrom(side, d), side)
      invariant b.contents + DeltasCode(previous, Along(values, side, ScanFrom(side, d)))
             == old(b.contents) + DeltasCode(first, Along(values, side, Scan(side)))
    {
      previous := WriteDiagonal(b, values, side, d, previous, ScanFrom(side, d + 1));
    }
    NoMore(previous, values, side);
    assert b.contents + [] == b.contents;
  }

  method WriteMatrix(b: BitWriter, m: Matrix, sizeId: nat)
    requires b.Valid() && Square(m, Side(sizeId))
    modifies b
    ensures b.Valid() && b.contents == old(b.contents) + CodeOf(m, sizeId)
  {
    hide ByteBits, FromBytes, SeCode, DeltasCode, Along, Scan;
    ScanInside(Side(sizeId));
    b.Bit(true);
    var previous: byte := 8;
    if sizeId > 1 {
      previous := m.dc;
      b.Se(previous - 8);
    }
    ghost var coefs := DeltasCode(previous, Along(m.values, Side(sizeId), Scan(Side(sizeId))));
    WriteWalk(b, m.values, Side(sizeId), previous);
  }

  lemma NoMore(previous: byte, values: seq<byte>, side: nat)
    requires |values| == side * side
    ensures DeltasCode(previous, Along(values, side, [])) == []
  {
  }

  method WriteScalingLists(b: BitWriter, lists: seq<seq<Matrix>>)
    requires b.Valid() && AllShaped(lists)
    modifies b
    ensures b.Valid() && b.contents == old(b.contents) + ScalingCode(lists)
  {
    hide ByteBits, FromBytes, SizeCode, CodeOf, Side;
    ghost var goal := old(b.contents) + ScalingCode(lists);
    for sizeId := 0 to 4
      invariant b.Valid() && b.contents + ScalingTail(lists, sizeId) == goal
    {
      assert Shaped(lists[sizeId], sizeId);
      ghost var was := b.contents;
      WriteSize(b, lists[sizeId], sizeId);
    }
    assert b.contents + [] == b.contents;
  }

  function ScalingTail(lists: seq<seq<Matrix>>, sizeId: nat): seq<bool>
    requires AllShaped(lists) && sizeId <= 4
  {
    if sizeId == 0 then ScalingCode(lists)
    else if sizeId == 1 then SizeCode(lists[1], 1) + (SizeCode(lists[2], 2) + SizeCode(lists[3], 3))
    else if sizeId == 2 then SizeCode(lists[2], 2) + SizeCode(lists[3], 3)
    else if sizeId == 3 then SizeCode(lists[3], 3)
    else []
  }

  method WriteSize(b: BitWriter, ms: seq<Matrix>, sizeId: nat)
    requires b.Valid() && forall m :: m in ms ==> Square(m, Side(sizeId))
    modifies b
    ensures b.Valid() && b.contents == old(b.contents) + SizeCode(ms, sizeId)
  {
    hide ByteBits, FromBytes, CodeOf, Side, Square;
    ghost var goal := old(b.contents) + SizeCode(ms, sizeId);
    assert ms[0..] == ms;
    for id := 0 to |ms|
      invariant b.Valid() && b.contents + SizeCode(ms[id..], sizeId) == goal
    {
      assert ms[id] in ms && ms[id..][1..] == ms[id + 1..];
      Associative(b.contents, CodeOf(ms[id], sizeId), SizeCode(ms[id + 1..], sizeId));
      WriteMatrix(b, ms[id], sizeId);
    }
    assert b.contents + [] == b.contents;
  }
}
