/** Strided copies of NV12 and P010 frames: into a stable buffer (src/iris/publish.cc) and into a packed image
    (src/va/image.cc), and the layout of stable buffers (src/iris/alloc.cc). */
module Planes {
  import opened Bits
  import opened Layouts
  import opened Outcome

  /** `(x + 1) & ~1u` */
  function EvenUp(x: nat): nat {
    (x + 1) / 2 * 2
  }

  function ChromaRows(height: nat): nat {
    (height + 1) / 2
  }

  /** The least even number that is not below `x`, and half of it. */
  lemma ChromaSize(x: nat)
    ensures EvenUp(x) == x + x % 2 && 2 * ChromaRows(x) == x + x % 2
  {
  }

  // ---------------------------------------------------------------- rows

  /** `s` in place of the bytes of `d` from `at` on. */
  function Splice(d: seq<byte>, at: nat, s: seq<byte>): (r: seq<byte>)
    requires at + |s| <= |d|
    ensures |r| == |d|
  {
    d[..at] + s + d[at + |s|..]
  }

  function RowAt(at: nat, stride: nat, row: nat): nat {
    at + row * stride
  }

  /** `rows` rows of `n` bytes, `stride` apart from `at`, end before `size`. */
  predicate RowsFit(at: nat, stride: nat, n: nat, rows: nat, size: nat) {
    rows > 0 ==> RowAt(at, stride, rows - 1) + n <= size
  }

  lemma RowFits(at: nat, stride: nat, n: nat, rows: nat, size: nat, row: nat)
    requires RowsFit(at, stride, n, rows, size) && row < rows
    ensures RowAt(at, stride, row) + n <= size
  {
    MulMonotone(row, rows - 1, stride);
  }

  lemma FewerRowsFit(at: nat, stride: nat, n: nat, rows: nat, size: nat)
    requires RowsFit(at, stride, n, rows, size) && rows > 0
    ensures RowsFit(at, stride, n, rows - 1, size)
  {
    if rows > 1 {
      RowFits(at, stride, n, rows, size, rows - 2);
    }
  }

  /** `dst` with `rows` rows of `n` bytes copied into it. */
  function CopyRows(dst: seq<byte>, dstAt: nat, dstStride: nat, src: seq<byte>, srcAt: nat, srcStride: nat, n: nat,
                    rows: nat)
    : (r: seq<byte>)
    requires RowsFit(dstAt, dstStride, n, rows, |dst|) && RowsFit(srcAt, srcStride, n, rows, |src|)
    ensures |r| == |dst|
  {
    if rows == 0 then dst
    else
      FewerRowsFit(dstAt, dstStride, n, rows, |dst|);
      FewerRowsFit(srcAt, srcStride, n, rows, |src|);
      var k := rows - 1;
      var from := RowAt(srcAt, srcStride, k);
      Splice(CopyRows(dst, dstAt, dstStride, src, srcAt, srcStride, n, k), RowAt(dstAt, dstStride, k),
          src[from..from + n])
  }

  lemma SpliceAt(d: seq<byte>, at: nat, s: seq<byte>, k: nat)
    requires at + |s| <= |d| && k < |d|
    ensures Splice(d, at, s)[k] == if at <= k < at + |s| then s[k - at] else d[k]
  {
  }

  /** Outside the rows nothing changes. */
  lemma {:induction false} CopyRowsOutside(dst: seq<byte>, dstAt: nat, dstStride: nat, src: seq<byte>, srcAt: nat,
                                           srcStride: nat,
                                           n: nat, rows: nat, k: nat)
    requires RowsFit(dstAt, dstStride, n, rows, |dst|) && RowsFit(srcAt, srcStride, n, rows, |src|) && k < |dst|
    requires forall row :: 0 <= row < rows ==> !(RowAt(dstAt, dstStride, row) <= k < RowAt(dstAt, dstStride, row) + n)
    ensures CopyRows(dst, dstAt, dstStride, src, srcAt, srcStride, n, rows)[k] == dst[k]
  {
    hide Splice, RowAt;
    if rows > 0 {
      FewerRowsFit(dstAt, dstStride, n, rows, |dst|);
      FewerRowsFit(srcAt, srcStride, n, rows, |src|);
      CopyRowsOutside(dst, dstAt, dstStride, src, srcAt, srcStride, n, rows - 1, k);
      var from := RowAt(srcAt, srcStride, rows - 1);
      SpliceAt(CopyRows(dst, dstAt, dstStride, src, srcAt, srcStride, n, rows - 1), RowAt(dstAt, dstStride, rows - 1),
               src[from..from + n], k);
    }
  }

  lemma ApartRows(at: nat, stride: nat, n: nat, row: nat, other: nat)
    requires n <= stride && row < other
    ensures RowAt(at, stride, row) + n <= RowAt(at, stride, other)
  {
    MulMonotone(row + 1, other, stride);
    assert (row + 1) * stride == row * stride + stride;
  }

  /** Every byte of every row is where it should be: rows do not overlap. */
  lemma {:induction false} CopyRowsAt(dst: seq<byte>, dstAt: nat, dstStride: nat, src: seq<byte>, srcAt: nat,
                                      srcStride: nat,
                                      n: nat, rows: nat, row: nat, col: nat)
    requires RowsFit(dstAt, dstStride, n, rows, |dst|) && RowsFit(srcAt, srcStride, n, rows, |src|)
    requires row < rows && col < n <= dstStride
    ensures RowAt(dstAt, dstStride, row) + col < |dst| && RowAt(srcAt, srcStride, row) + col < |src|
    ensures CopyRows(dst, dstAt, dstStride, src, srcAt, srcStride, n, rows)[RowAt(dstAt, dstStride, row) + col]
         == src[RowAt(srcAt, srcStride, row) + col]
  {
    hide Splice, RowAt;
    RowFits(dstAt, dstStride, n, rows, |dst|, row);
    RowFits(srcAt, srcStride, n, rows, |src|, row);
    FewerRowsFit(dstAt, dstStride, n, rows, |dst|);
    FewerRowsFit(srcAt, srcStride, n, rows, |src|);
    var last := rows - 1;
    var from := RowAt(srcAt, srcStride, last);
    SpliceAt(CopyRows(dst, dstAt, dstStride, src, srcAt, srcStride, n, last), RowAt(dstAt, dstStride, last),
        src[from..from + n],
             RowAt(dstAt, dstStride, row) + col);
    if row < last {
      ApartRows(dstAt, dstStride, n, row, last);
      CopyRowsAt(dst, dstAt, dstStride, src, srcAt, srcStride, n, last, row, col);
    }
  }

  /** Copying from another place that holds the same bytes gives the same result. */
  lemma {:induction false} CopyRowsSame(dst: seq<byte>, dstAt: nat, dstStride: nat, a: seq<byte>, aAt: nat,
                                        aStride: nat,
                                        b: seq<byte>, bAt: nat, bStride: nat, n: nat, rows: nat)
    requires RowsFit(dstAt, dstStride, n, rows, |dst|)
    requires RowsFit(aAt, aStride, n, rows, |a|) && RowsFit(bAt, bStride, n, rows, |b|)
    requires forall row :: 0 <= row < rows ==> SameRow(a, RowAt(aAt, aStride, row), b, RowAt(bAt, bStride, row), n)
    ensures CopyRows(dst, dstAt, dstStride, a, aAt, aStride, n, rows)
            == CopyRows(dst, dstAt, dstStride, b, bAt, bStride, n, rows)
  {
    hide Splice, SameRow, RowAt;
    if rows > 0 {
      FewerRowsFit(dstAt, dstStride, n, rows, |dst|);
      FewerRowsFit(aAt, aStride, n, rows, |a|);
      FewerRowsFit(bAt, bStride, n, rows, |b|);
      CopyRowsSame(dst, dstAt, dstStride, a, aAt, aStride, b, bAt, bStride, n, rows - 1);
      SameSlices(a, RowAt(aAt, aStride, rows - 1), b, RowAt(bAt, bStride, rows - 1), n);
    }
  }

  predicate SameRow(a: seq<byte>, aAt: nat, b: seq<byte>, bAt: nat, n: nat) {
    aAt + n <= |a| && bAt + n <= |b| && a[aAt..aAt + n] == b[bAt..bAt + n]
  }

  lemma SameSlices(a: seq<byte>, aAt: nat, b: seq<byte>, bAt: nat, n: nat)
    requires SameRow(a, aAt, b, bAt, n)
    ensures aAt + n <= |a| && bAt + n <= |b| && a[aAt..aAt + n] == b[bAt..bAt + n]
  {
  }

  /** A row of the copy holds the bytes of the source row. */
  lemma CopyRowsRow(dst: seq<byte>, dstAt: nat, dstStride: nat, src: seq<byte>, srcAt: nat, srcStride: nat, n: nat,
                    rows: nat,
                    row: nat, m: nat)
    requires RowsFit(dstAt, dstStride, n, rows, |dst|) && RowsFit(srcAt, srcStride, n, rows, |src|)
    requires row < rows && m <= n <= dstStride
    ensures SameRow(CopyRows(dst, dstAt, dstStride, src, srcAt, srcStride, n, rows), RowAt(dstAt, dstStride, row),
                    src, RowAt(srcAt, srcStride, row), m)
  {
    hide CopyRows, RowAt;
    RowFits(dstAt, dstStride, n, rows, |dst|, row);
    RowFits(srcAt, srcStride, n, rows, |src|, row);
    var r := CopyRows(dst, dstAt, dstStride, src, srcAt, srcStride, n, rows);
    var a, b := RowAt(dstAt, dstStride, row), RowAt(srcAt, srcStride, row);
    var x, y := r[a..a + m], src[b..b + m];
    forall i | 0 <= i < m
      ensures x[i] == y[i]
    {
      CopyRowsAt(dst, dstAt, dstStride, src, srcAt, srcStride, n, rows, row, i);
    }
    assert x == y;
  }

  /** Bytes before the first row stay. */
  lemma CopyRowsBefore(dst: seq<byte>, dstAt: nat, dstStride: nat, src: seq<byte>, srcAt: nat, srcStride: nat, n: nat,
                       rows: nat,
                       a: nat, m: nat)
    requires RowsFit(dstAt, dstStride, n, rows, |dst|) && RowsFit(srcAt, srcStride, n, rows, |src|)
    requires a + m <= dstAt && a + m <= |dst|
    ensures SameRow(CopyRows(dst, dstAt, dstStride, src, srcAt, srcStride, n, rows), a, dst, a, m)
  {
    RowsStartAt(dstAt, dstStride);
    hide CopyRows, RowAt;
    var r := CopyRows(dst, dstAt, dstStride, src, srcAt, srcStride, n, rows);
    var x, y := r[a..a + m], dst[a..a + m];
    forall i | 0 <= i < m
      ensures x[i] == y[i]
    {
      CopyRowsOutside(dst, dstAt, dstStride, src, srcAt, srcStride, n, rows, a + i);
    }
    assert x == y;
  }

  lemma RowsStartAt(at: nat, stride: nat)
    ensures forall row: nat :: RowAt(at, stride, row) >= at
  {
    forall row: nat
      ensures RowAt(at, stride, row) >= at
    {
      MulMonotone(0, row, stride);
    }
  }

  lemma SameRowOn(a: seq<byte>, aAt: nat, b: seq<byte>, bAt: nat, c: seq<byte>, cAt: nat, n: nat)
    requires SameRow(a, aAt, b, bAt, n) && SameRow(b, bAt, c, cAt, n)
    ensures SameRow(a, aAt, c, cAt, n)
  {
  }

  /** A loop of memcpy calls. */
  method CopyPlane(dst: array<byte>, dstAt: nat, dstStride: nat, src: array<byte>, srcAt: nat, srcStride: nat, n: nat,
                   rows: nat)
    requires dst != src
    requires RowsFit(dstAt, dstStride, n, rows, dst.Length) && RowsFit(srcAt, srcStride, n, rows, src.Length)
    modifies dst
    ensures dst[..] == CopyRows(old(dst[..]), dstAt, dstStride, src[..], srcAt, srcStride, n, rows)
  {
    hide RowAt, Splice;
    var row := 0;
    while row < rows
      invariant row <= rows
      invariant RowsFit(dstAt, dstStride, n, row, dst.Length) && RowsFit(srcAt, srcStride, n, row, src.Length)
      invariant dst[..] == CopyRows(old(dst[..]), dstAt, dstStride, src[..], srcAt, srcStride, n, row)
    {
      RowFits(dstAt, dstStride, n, rows, dst.Length, row);
      RowFits(srcAt, srcStride, n, rows, src.Length, row);
      CopyBytes(dst, RowAt(dstAt, dstStride, row), src, RowAt(srcAt, srcStride, row), n);
      row := row + 1;
    }
  }

  /** memcpy */
  method CopyBytes(dst: array<byte>, dstAt: nat, src: array<byte>, srcAt: nat, n: nat)
    requires dst != src && dstAt + n <= dst.Length && srcAt + n <= src.Length
    modifies dst
    ensures dst[..] == Splice(old(dst[..]), dstAt, src[srcAt..srcAt + n])
  {
    forall k | dstAt <= k < dstAt + n {
      dst[k] := src[srcAt + (k - dstAt)];
    }
    assert forall k :: dstAt <= k < dstAt + n ==> dst[k] == src[srcAt + (k - dstAt)];
    assert dst[..dstAt] == old(dst[..])[..dstAt];
    assert dst[dstAt..dstAt + n] == src[srcAt..srcAt + n];
    assert dst[dstAt + n..] == old(dst[..])[dstAt + n..];
    assert dst[..] == dst[..dstAt] + dst[dstAt..dstAt + n] + dst[dstAt + n..];
  }

  // ---------------------------------------------------------------- two planes, byte by byte

  /** Byte `k` is in column `col` of row `row`. */
  ghost predicate IsByte(k: nat, at: nat, stride: nat, row: nat, col: nat) {
    k == at + row * stride + col
  }

  /** Byte `k` is in none of the `rows` rows of `n` bytes. */
  ghost predicate IsOutside(k: nat, at: nat, stride: nat, n: nat, rows: nat) {
    forall row: nat, col: nat | row < rows && col < n :: !IsByte(k, at, stride, row, col)
  }

  lemma ByteOfRow(k: nat, at: nat, stride: nat, row: nat, col: nat)
    ensures IsByte(k, at, stride, row, col) <==> k == RowAt(at, stride, row) + col
  {
  }

  lemma OutsideRows(k: nat, at: nat, stride: nat, n: nat, rows: nat)
    requires IsOutside(k, at, stride, n, rows)
    ensures forall row :: 0 <= row < rows ==> !(RowAt(at, stride, row) <= k < RowAt(at, stride, row) + n)
  {
    hide RowAt, IsByte;
    forall row | 0 <= row < rows && RowAt(at, stride, row) <= k < RowAt(at, stride, row) + n
      ensures false
    {
      ByteOfRow(k, at, stride, row, k - RowAt(at, stride, row));
    }
  }

  /** A place for `rows` rows of `n` bytes. */
  datatype Place = Place(at: nat, stride: nat, n: nat, rows: nat)

  /** The place of a plane of the same size. */
  datatype Plane = Plane(dst: Place, at: nat, stride: nat)

  ghost predicate PlaneFits(p: Plane, dst: nat, src: nat) {
    && RowsFit(p.dst.at, p.dst.stride, p.dst.n, p.dst.rows, dst) && RowsFit(p.at, p.stride, p.dst.n, p.dst.rows, src)
  }

  function WithPlane(dst: seq<byte>, src: seq<byte>, p: Plane): (r: seq<byte>)
    requires PlaneFits(p, |dst|, |src|)
    ensures |r| == |dst|
  {
    CopyRows(dst, p.dst.at, p.dst.stride, src, p.at, p.stride, p.dst.n, p.dst.rows)
  }

  /** Every byte of every row has arrived. */
  ghost predicate PlaneCopied(r: seq<byte>, src: seq<byte>, p: Plane) {
    forall row: nat, col: nat, k: nat, j: nat ::
      row < p.dst.rows && col < p.dst.n
      && IsByte(k, p.dst.at, p.dst.stride, row, col) && IsByte(j, p.at, p.stride, row, col)
      ==> k < |r| && j < |src| && r[k] == src[j]
  }

  /** Both planes are there, and nothing else has changed. */
  ghost predicate BothPlanes(r: seq<byte>, dst: seq<byte>, src: seq<byte>, p: Plane, q: Plane) {
    && |r| == |dst| && PlaneCopied(r, src, p) && PlaneCopied(r, src, q)
    && forall k: nat | k < |r| ::
         IsOutside(k, p.dst.at, p.dst.stride, p.dst.n, p.dst.rows)
         && IsOutside(k, q.dst.at, q.dst.stride, q.dst.n, q.dst.rows)
         ==> r[k] == dst[k]
  }

  lemma PlaneByte(dst: seq<byte>, src: seq<byte>, p: Plane, row: nat, col: nat, k: nat, j: nat)
    requires PlaneFits(p, |dst|, |src|) && p.dst.n <= p.dst.stride && row < p.dst.rows && col < p.dst.n
    requires IsByte(k, p.dst.at, p.dst.stride, row, col) && IsByte(j, p.at, p.stride, row, col)
    ensures k < |dst| && j < |src| && WithPlane(dst, src, p)[k] == src[j]
  {
    hide RowAt, IsByte, CopyRows, RowsFit;
    ByteOfRow(k, p.dst.at, p.dst.stride, row, col);
    ByteOfRow(j, p.at, p.stride, row, col);
    CopyRowsAt(dst, p.dst.at, p.dst.stride, src, p.at, p.stride, p.dst.n, p.dst.rows, row, col);
  }

  lemma PlaneOutside(dst: seq<byte>, src: seq<byte>, p: Plane, k: nat)
    requires PlaneFits(p, |dst|, |src|) && k < |dst|
    requires IsOutside(k, p.dst.at, p.dst.stride, p.dst.n, p.dst.rows) || k < p.dst.at
    ensures WithPlane(dst, src, p)[k] == dst[k]
  {
    RowsStartAt(p.dst.at, p.dst.stride);
    hide RowAt, IsByte, CopyRows, RowsFit;
    if k >= p.dst.at {
      OutsideRows(k, p.dst.at, p.dst.stride, p.dst.n, p.dst.rows);
    }
    CopyRowsOutside(dst, p.dst.at, p.dst.stride, src, p.at, p.stride, p.dst.n, p.dst.rows, k);
  }

  lemma PlanesByByte(dst: seq<byte>, src: seq<byte>, p: Plane, q: Plane)
    requires PlaneFits(p, |dst|, |src|) && PlaneFits(q, |dst|, |src|)
    requires p.dst.n <= p.dst.stride && q.dst.n <= q.dst.stride
    requires RowsFit(p.dst.at, p.dst.stride, p.dst.n, p.dst.rows, q.dst.at)
    ensures BothPlanes(WithPlane(WithPlane(dst, src, p), src, q), dst, src, p, q)
  {
    hide IsByte, WithPlane, RowAt, RowsFit;
    var first := WithPlane(dst, src, p);
    var r := WithPlane(first, src, q);
    forall row: nat, col: nat, k: nat, j: nat | row < p.dst.rows && col < p.dst.n
        && IsByte(k, p.dst.at, p.dst.stride, row, col) && IsByte(j, p.at, p.stride, row, col)
      ensures k < |r| && j < |src| && r[k] == src[j]
    {
      PlaneByte(dst, src, p, row, col, k, j);
      RowFits(p.dst.at, p.dst.stride, p.dst.n, p.dst.rows, q.dst.at, row);
      ByteOfRow(k, p.dst.at, p.dst.stride, row, col);
      PlaneOutside(first, src, q, k);
    }
    forall row: nat, col: nat, k: nat, j: nat | row < q.dst.rows && col < q.dst.n
        && IsByte(k, q.dst.at, q.dst.stride, row, col) && IsByte(j, q.at, q.stride, row, col)
      ensures k < |r| && j < |src| && r[k] == src[j]
    {
      PlaneByte(first, src, q, row, col, k, j);
    }
    forall k: nat | k < |r| && IsOutside(k, p.dst.at, p.dst.stride, p.dst.n, p.dst.rows)
        && IsOutside(k, q.dst.at, q.dst.stride, q.dst.n, q.dst.rows)
      ensures r[k] == dst[k]
    {
      PlaneOutside(dst, src, p, k);
      PlaneOutside(first, src, q, k);
    }
  }

  // ---------------------------------------------------------------- copying a frame

  /** validate */
  predicate Validates(l: Layout, width: nat, height: nat, bytes: nat, size: nat) {
    var rowBytes := EvenUp(width) * bytes;
    && width > 0 && height > 0 && width <= l.width && height <= l.height && height <= l.storageHeight
    && rowBytes <= l.stride
    && l.ChromaOffset() + (ChromaRows(height) - 1) * l.stride + rowBytes <= size
  }

  /** The chroma row ends within the buffer. */
  ghost predicate ChromaRowEnds(l: Layout, row: nat, n: nat, size: nat) {
    l.dataOffset + l.stride * l.storageHeight + row * l.stride + n <= size
  }

  /** A layout validates exactly if the picture is not empty and within the visible part and the storage rows, and
      both rows and buffer have room for each of its chroma rows. */
  lemma ValidatesExactly(l: Layout, width: nat, height: nat, bytes: nat, size: nat)
    ensures Validates(l, width, height, bytes, size) <==>
              && 0 < width <= l.width && 0 < height <= l.height && height <= l.storageHeight
              && var n := (width + width % 2) * bytes;
                 n <= l.stride && forall row: nat :: 2 * row < height ==> ChromaRowEnds(l, row, n, size)
  {
    hide EvenUp, ChromaRows, ChromaRowEnds;
    ChromaSize(width);
    if height > 0 {
      LastChromaRow(l, height, (width + width % 2) * bytes, size);
    }
  }

  lemma LastChromaRow(l: Layout, height: nat, n: nat, size: nat)
    requires height > 0
    ensures l.ChromaOffset() + (ChromaRows(height) - 1) * l.stride + n <= size
       <==> forall row: nat :: 2 * row < height ==> ChromaRowEnds(l, row, n, size)
  {
    hide ChromaRows;
    ChromaSize(height);
    assert 0 < ChromaRows(height);
    var last: nat := ChromaRows(height) - 1;
    assert last < ChromaRows(height);
    assert ChromaRowEnds(l, last, n, size) <==> l.ChromaOffset() + last * l.stride + n <= size;
    forall row: nat | 2 * row < height
      ensures ChromaRowEnds(l, last, n, size) ==> ChromaRowEnds(l, row, n, size)
    {
      assert 2 * row < 2 * ChromaRows(height);
      MulMonotone(row, last, l.stride);
    }
  }

  lemma EvenUpBounds(x: nat)
    ensures x <= EvenUp(x) <= x + 1
  {
  }

  lemma EvenUpMonotone(x: nat, y: nat)
    requires x <= y
    ensures EvenUp(x) <= EvenUp(y) && ChromaRows(x) <= ChromaRows(y)
  {
  }

  /** Both planes of a valid layout are in bounds, and the luma rows end before the chroma rows begin. */
  lemma PlanesFit(l: Layout, width: nat, height: nat, size: nat)
    requires Validates(l, width, height, l.Bytes(), size)
    ensures RowsFit(l.dataOffset, l.stride, width * l.Bytes(), height, l.ChromaOffset())
    ensures RowsFit(l.dataOffset, l.stride, width * l.Bytes(), height, size)
    ensures RowsFit(l.ChromaOffset(), l.stride, EvenUp(width) * l.Bytes(), ChromaRows(height), size)
    ensures width * l.Bytes() <= EvenUp(width) * l.Bytes() <= l.stride
    ensures l.dataOffset <= l.ChromaOffset() <= size
  {
    hide EvenUp, Layout.Bytes, RowAt;
    EvenUpBounds(width);
    MulMonotone(width, EvenUp(width), l.Bytes());
    LumaEnds(l.dataOffset, l.stride, width * l.Bytes(), height, l.storageHeight);
    LastRow(l.ChromaOffset(), l.stride, ChromaRows(height));
    MulMonotone(0, ChromaRows(height) - 1, l.stride);
    MulMonotone(0, l.storageHeight, l.stride);
  }

  lemma LastRow(at: nat, stride: nat, rows: nat)
    ensures rows > 0 ==> RowAt(at, stride, rows - 1) == at + (rows - 1) * stride
  {
  }

  lemma LumaEnds(at: nat, stride: nat, n: nat, height: nat, storageHeight: nat)
    requires 0 < height <= storageHeight && n <= stride
    ensures RowAt(at, stride, height - 1) + n <= at + stride * storageHeight
  {
    MulMonotone(height, storageHeight, stride);
    assert (height - 1) * stride + stride == height * stride;
  }

  /** Both planes, row by row. */
  function CopyFrame(dst: seq<byte>, to: Layout, src: seq<byte>, from: Layout): (r: seq<byte>)
    requires to.fourcc == from.fourcc
    requires Validates(from, to.width, to.height, from.Bytes(), |src|)
             && Validates(to, to.width, to.height, to.Bytes(), |dst|)
    ensures |r| == |dst|
  {
    PlanesFit(from, to.width, to.height, |src|);
    PlanesFit(to, to.width, to.height, |dst|);
    var luma := CopyRows(dst, to.dataOffset, to.stride, src, from.dataOffset, from.stride, to.width * to.Bytes(),
        to.height);
    CopyRows(luma, to.ChromaOffset(), to.stride, src, from.ChromaOffset(), from.stride, EvenUp(to.width) * to.Bytes(),
             ChromaRows(to.height))
  }

  /** CpuCopy::copy */
  method Copy(dst: array<byte>, to: Layout, src: array<byte>, from: Layout) returns (r: Result<()>)
    requires dst != src
    modifies dst
    ensures r == if from.fourcc != to.fourcc then Err(InvalidImageFormat)
                 else if Validates(from, to.width, to.height, from.Bytes(), src.Length)
                      && Validates(to, to.width, to.height, to.Bytes(), dst.Length) then Ok(())
                 else Err(InvalidSurface)
    ensures dst[..] == if r.Ok? then CopyFrame(old(dst[..]), to, src[..], from) else old(dst[..])
  {
    hide CopyRows;
    if from.fourcc != to.fourcc {
      return Err(InvalidImageFormat);
    }
    var bytes := from.Bytes();
    var width, height := to.width, to.height;
    if !Validates(from, width, height, bytes, src.Length) || !Validates(to, width, height, bytes, dst.Length) {
      return Err(InvalidSurface);
    }
    PlanesFit(from, width, height, src.Length);
    PlanesFit(to, width, height, dst.Length);
    for plane := 0 to 2
      invariant plane == 0 ==> dst[..] == old(dst[..])
      invariant plane == 1 ==>
        dst[..] == CopyRows(old(dst[..]), to.dataOffset, to.stride, src[..], from.dataOffset, from.stride,
            width * bytes, height)
      invariant plane == 2 ==> dst[..] == CopyFrame(old(dst[..]), to, src[..], from)
    {
      var srcOffset := if plane == 1 then from.ChromaOffset() else from.dataOffset;
      var dstOffset := if plane == 1 then to.ChromaOffset() else to.dataOffset;
      var rows := if plane == 1 then ChromaRows(height) else height;
      var rowBytes := (if plane == 1 then EvenUp(width) else width) * bytes;
      CopyPlane(dst, dstOffset, to.stride, src, srcOffset, from.stride, rowBytes, rows);
    }
    r := Ok(());
  }

  /** The copy has every visible byte of both planes where its layout says, and nothing else has changed. */
  lemma FrameByByte(dst: seq<byte>, to: Layout, src: seq<byte>, from: Layout)
    requires to.fourcc == from.fourcc
    requires Validates(from, to.width, to.height, from.Bytes(), |src|)
             && Validates(to, to.width, to.height, to.Bytes(), |dst|)
    ensures var bytes := if to.fourcc == P010 then 2 else 1;
            var luma := Place(to.dataOffset, to.stride, to.width * bytes, to.height);
            var chroma := Place(to.dataOffset + to.stride * to.storageHeight, to.stride,
                (to.width + to.width % 2) * bytes, (to.height + 1) / 2);
            BothPlanes(CopyFrame(dst, to, src, from), dst, src, Plane(luma, from.dataOffset, from.stride),
                Plane(chroma, from.dataOffset + from.stride * from.storageHeight, from.stride))
  {
    hide CopyRows, RowAt, BothPlanes, RowsFit, Validates;
    PlanesFit(from, to.width, to.height, |src|);
    PlanesFit(to, to.width, to.height, |dst|);
    ChromaSize(to.width);
    var luma := Place(to.dataOffset, to.stride, to.width * to.Bytes(), to.height);
    var chroma := Place(to.ChromaOffset(), to.stride, EvenUp(to.width) * to.Bytes(), ChromaRows(to.height));
    PlanesByByte(dst, src, Plane(luma, from.dataOffset, from.stride), Plane(chroma, from.ChromaOffset(), from.stride));
  }

  // ---------------------------------------------------------------- images

  datatype Image = Image(
    fourcc: Fourcc, width: nat, height: nat, pitch0: nat, pitch1: nat, offset0: nat, offset1: nat, dataSize: nat)

  function Area(stride: nat, rows: nat): nat {
    stride * rows
  }

  lemma AreaIs(stride: nat, rows: nat)
    ensures Area(stride, rows) == stride * rows
  {
  }

  /** fill_image: two planes without padding. The size is kept in sixteen bits, offsets and sizes in thirty-two.
      Below 2^16 in both directions the image describes its planes exactly if they fit into 2^32 bytes. */
  method FillImage(fourcc: Fourcc, width: nat, height: nat) returns (image: Image)
    requires width < U32 && height < U32
    ensures image.fourcc == fourcc && image.width == width % 0x1_0000 && image.height == height % 0x1_0000
    ensures width < 0x1_0000 && height < 0x1_0000 ==>
              && image.dataSize == PackedSize(fourcc, width, height) % U32
              && (PackedImage(image) <==> PackedSize(fourcc, width, height) < U32)
  {
    hide Area, EvenUp, ChromaRows, PackedImage, PackedSize;
    var bytes := if fourcc == P010 then 2 else 1;
    var pitch0 := width * bytes % U32;
    var pitch1 := (width + 1) % U32 / 2 * 2 * bytes % U32;
    var offset1 := Area(pitch0, height) % U32;
    var chroma := Area(pitch1, (height + 1) % U32 / 2);
    image := Image(fourcc, width % 0x1_0000, height % 0x1_0000, pitch0, pitch1, 0, offset1, (offset1 + chroma) % U32);
    WrappedSum(Area(pitch0, height), chroma);
    if width < 0x1_0000 && height < 0x1_0000 {
      SmallRow(width, bytes);
      SmallHeight(height);
      SizeIs(fourcc, width, height);
      PackedExactly(image, width, height);
    }
  }

  lemma SizeIs(fourcc: Fourcc, width: nat, height: nat)
    ensures var bytes := if fourcc == P010 then 2 else 1;
            PackedSize(fourcc, width, height) ==
              Area(width * bytes, height) + Area(EvenUp(width) * bytes, ChromaRows(height))
  {
  }

  /** Sizes below 2^16 do not wrap in a row. */
  lemma SmallRow(width: nat, bytes: nat)
    requires width < 0x1_0000 && 1 <= bytes <= 2
    ensures width * bytes % U32 == width * bytes && width % 0x1_0000 == width
    ensures (width + 1) % U32 / 2 * 2 * bytes % U32 == EvenUp(width) * bytes
  {
    assert (width + 1) % U32 == width + 1;
    var even := EvenUp(width);
    assert even <= width + 1;
    if bytes == 1 {
      assert even * bytes == even;
    } else {
      assert even * bytes == 2 * even;
    }
  }

  lemma SmallHeight(height: nat)
    requires height < 0x1_0000
    ensures (height + 1) % U32 / 2 == ChromaRows(height) && height % 0x1_0000 == height
  {
    assert (height + 1) % U32 == height + 1;
  }

  lemma PackedExactly(image: Image, width: nat, height: nat)
    requires image.width == width && image.height == height && image.offset0 == 0
    requires var bytes := if image.fourcc == P010 then 2 else 1;
             && image.pitch0 == width * bytes && image.pitch1 == EvenUp(width) * bytes
             && image.offset1 == Area(image.pitch0, height) % U32
             && image.dataSize == PackedSize(image.fourcc, width, height) % U32
    ensures PackedImage(image) <==> PackedSize(image.fourcc, width, height) < U32
  {
    hide Area, EvenUp, ChromaRows, PackedSize;
    var luma, chroma := Area(image.pitch0, height), Area(image.pitch1, ChromaRows(height));
    AreaIs(image.pitch0, height);
    AreaIs(image.pitch1, ChromaRows(height));
    SizeIs(image.fourcc, width, height);
    if luma + chroma < U32 {
      assert luma % U32 == luma && (luma + chroma) % U32 == luma + chroma;
    }
  }

  /** The bytes of both planes, one after the other. */
  function PackedSize(fourcc: Fourcc, width: nat, height: nat): nat {
    var bytes := if fourcc == P010 then 2 else 1;
    Area(width * bytes, height) + Area(EvenUp(width) * bytes, ChromaRows(height))
  }

  lemma WrappedSum(a: nat, b: nat)
    ensures (a % U32 + b) % U32 == (a + b) % U32
  {
    assert a == a / U32 * U32 + a % U32;
    MultipleAside(a / U32, a % U32 + b);
  }

  lemma {:induction false} MultipleAside(k: nat, x: nat)
    ensures (k * U32 + x) % U32 == x % U32
  {
    if k > 0 {
      MultipleAside(k - 1, x);
      assert k * U32 + x == ((k - 1) * U32 + x) + U32;
    }
  }

  /** The planes follow each other without gaps and fill the image. */
  predicate PackedImage(image: Image) {
    var bytes := if image.fourcc == P010 then 2 else 1;
    && image.pitch0 == image.width * bytes && image.pitch1 == EvenUp(image.width) * bytes
    && image.offset0 == 0 && image.offset1 == image.pitch0 * image.height
    && image.dataSize == image.offset1 + image.pitch1 * ChromaRows(image.height)
  }

  function Min(a: nat, b: nat): nat {
    if a < b then a else b
  }

  /** The rows that a read touches exist: on both sides. */
  predicate Readable(image: Image, l: Layout, out: nat, mem: nat) {
    var w, h, bytes := Min(image.width, l.width), Min(image.height, l.height), l.Bytes();
    && RowsFit(image.offset0, image.pitch0, w * bytes, h, out)
    && RowsFit(image.offset1, image.pitch1, EvenUp(w) * bytes, ChromaRows(h), out)
    && RowsFit(l.dataOffset, l.stride, w * bytes, h, mem)
    && RowsFit(l.ChromaOffset(), l.stride, EvenUp(w) * bytes, ChromaRows(h), mem)
  }

  /** The image after the visible part of a surface has been read into it. */
  function ReadImage(out: seq<byte>, image: Image, mem: seq<byte>, l: Layout): (r: seq<byte>)
    requires Readable(image, l, |out|, |mem|)
    ensures |r| == |out|
  {
    var w, h, bytes := Min(image.width, l.width), Min(image.height, l.height), l.Bytes();
    var luma := CopyRows(out, image.offset0, image.pitch0, mem, l.dataOffset, l.stride, w * bytes, h);
    CopyRows(luma, image.offset1, image.pitch1, mem, l.ChromaOffset(), l.stride, EvenUp(w) * bytes, ChromaRows(h))
  }

  /** copy_pixels, on the frame that the surface holds or on its stable buffer. */
  method CopyPixels(out: array<byte>, image: Image, mem: array<byte>, l: Layout) returns (r: Result<()>)
    requires out != mem && (l.fourcc == image.fourcc ==> Readable(image, l, out.Length, mem.Length))
    modifies out
    ensures r == if l.fourcc != image.fourcc then Err(InvalidImageFormat) else Ok(())
    ensures out[..] == if r.Ok? then ReadImage(old(out[..]), image, mem[..], l) else old(out[..])
  {
    hide CopyRows;
    if l.fourcc != image.fourcc {
      return Err(InvalidImageFormat);
    }
    var bytes := l.Bytes();
    var width, height := Min(image.width, l.width), Min(image.height, l.height);
    CopyPlane(out, image.offset0, image.pitch0, mem, l.dataOffset, l.stride, width * bytes, height);
    CopyPlane(out, image.offset1, image.pitch1, mem, l.ChromaOffset(), l.stride, EvenUp(width) * bytes,
        ChromaRows(height));
    r := Ok(());
  }

  /** Fewer and shorter rows fit, too. */
  lemma RowsShrink(at: nat, stride: nat, n: nat, rows: nat, size: nat, n': nat, rows': nat)
    requires RowsFit(at, stride, n, rows, size) && n' <= n && rows' <= rows
    ensures RowsFit(at, stride, n', rows', size)
  {
    if rows' > 0 {
      MulMonotone(rows' - 1, rows - 1, stride);
    }
  }

  /** A packed image no larger than the valid part of a surface can be read, into a buffer of its size. */
  lemma PackedReadable(image: Image, l: Layout, width: nat, height: nat, out: nat, mem: nat)
    requires PackedImage(image) && image.fourcc == l.fourcc && out >= image.dataSize
    requires image.width <= width && image.height <= height && Validates(l, width, height, l.Bytes(), mem)
    ensures Readable(image, l, out, mem)
  {
    PlanesFit(l, width, height, mem);
    VisibleFits(l, width, height, mem);
    EvenUpMonotone(image.width, width);
    EvenUpMonotone(image.height, height);
    hide EvenUp, ChromaRows, RowAt, RowsFit, Validates, Layout.Bytes, Layout.ChromaOffset;
    var bytes := l.Bytes();
    MulMonotone(image.width, width, bytes);
    MulMonotone(EvenUp(image.width), EvenUp(width), bytes);
    RowsShrink(l.dataOffset, l.stride, width * bytes, height, mem, image.width * bytes, image.height);
    RowsShrink(l.ChromaOffset(), l.stride, EvenUp(width) * bytes, ChromaRows(height), mem,
               EvenUp(image.width) * bytes, ChromaRows(image.height));
    PackedFits(image, l, out);
  }

  lemma PackedFits(image: Image, l: Layout, out: nat)
    requires PackedImage(image) && image.fourcc == l.fourcc && out >= image.dataSize
    ensures RowsFit(image.offset0, image.pitch0, image.width * l.Bytes(), image.height, out)
    ensures RowsFit(image.offset1, image.pitch1, EvenUp(image.width) * l.Bytes(), ChromaRows(image.height), out)
  {
    PackedRows(0, image.pitch0, image.height);
    PackedRows(image.offset1, image.pitch1, ChromaRows(image.height));
    MulMonotone(0, image.pitch1, ChromaRows(image.height));
    hide EvenUp, ChromaRows, RowAt;
  }

  lemma PackedRows(at: nat, pitch: nat, rows: nat)
    ensures RowsFit(at, pitch, pitch, rows, at + pitch * rows)
  {
    if rows > 0 {
      assert (rows - 1) * pitch + pitch == pitch * rows;
    }
  }

  /** The image has every byte of both planes of the visible part, and nothing else has changed. */
  lemma ImageByByte(out: seq<byte>, image: Image, mem: seq<byte>, l: Layout)
    requires PackedImage(image) && image.fourcc == l.fourcc && Readable(image, l, |out|, |mem|)
    ensures var bytes := if l.fourcc == P010 then 2 else 1;
            var w := if image.width < l.width then image.width else l.width;
            var h := if image.height < l.height then image.height else l.height;
            var luma := Place(image.offset0, image.pitch0, w * bytes, h);
            var chroma := Place(image.offset1, image.pitch1, (w + w % 2) * bytes, (h + 1) / 2);
            BothPlanes(ReadImage(out, image, mem, l), out, mem, Plane(luma, l.dataOffset, l.stride),
                Plane(chroma, l.dataOffset + l.stride * l.storageHeight, l.stride))
  {
    hide CopyRows, RowAt, BothPlanes, RowsFit, PackedImage, EvenUp, ChromaRows;
    var w, h, bytes := Min(image.width, l.width), Min(image.height, l.height), l.Bytes();
    PackedApart(image, w, h, bytes);
    ChromaSize(w);
    ChromaSize(h);
    var luma := Place(image.offset0, image.pitch0, w * bytes, h);
    var chroma := Place(image.offset1, image.pitch1, EvenUp(w) * bytes, ChromaRows(h));
    PlanesByByte(out, mem, Plane(luma, l.dataOffset, l.stride), Plane(chroma, l.ChromaOffset(), l.stride));
  }

  /** The planes of a packed image do not overlap. */
  lemma PackedApart(image: Image, w: nat, h: nat, bytes: nat)
    requires PackedImage(image) && w <= image.width && h <= image.height
    requires bytes == if image.fourcc == P010 then 2 else 1
    ensures w * bytes <= image.pitch0 && EvenUp(w) * bytes <= image.pitch1
    ensures RowsFit(image.offset0, image.pitch0, w * bytes, h, image.offset1)
  {
    EvenUpMonotone(w, image.width);
    PackedRows(0, image.pitch0, image.height);
    hide EvenUp, ChromaRows, RowAt, RowsFit;
    MulMonotone(w, image.width, bytes);
    MulMonotone(EvenUp(w), EvenUp(image.width), bytes);
    RowsShrink(image.offset0, image.pitch0, image.pitch0, image.height, image.offset1, w * bytes, h);
  }

  // ---------------------------------------------------------------- Direct and Copy

  /** A luma row of the stable buffer holds the bytes of the frame's: the chroma rows come after it. */
  lemma LumaCopied(stable: seq<byte>, to: Layout, frame: seq<byte>, from: Layout, row: nat, n: nat)
    requires to.fourcc == from.fourcc && row < to.height && n <= to.width * to.Bytes()
    requires Validates(from, to.width, to.height, from.Bytes(), |frame|)
             && Validates(to, to.width, to.height, to.Bytes(), |stable|)
    ensures SameRow(CopyFrame(stable, to, frame, from), RowAt(to.dataOffset, to.stride, row),
                    frame, RowAt(from.dataOffset, from.stride, row), n)
  {
    hide CopyRows, RowAt, EvenUp, ChromaRows, SameRow, Validates, Layout.Bytes, Layout.ChromaOffset;
    SameBytes(to, from);
    PlanesFit(from, to.width, to.height, |frame|);
    PlanesFit(to, to.width, to.height, |stable|);
    var full := to.width * to.Bytes();
    var luma := CopyRows(stable, to.dataOffset, to.stride, frame, from.dataOffset, from.stride, full, to.height);
    var a := RowAt(to.dataOffset, to.stride, row);
    RowFits(to.dataOffset, to.stride, full, to.height, to.ChromaOffset(), row);
    CopyRowsRow(stable, to.dataOffset, to.stride, frame, from.dataOffset, from.stride, full, to.height, row, n);
    CopyRowsBefore(luma, to.ChromaOffset(), to.stride, frame, from.ChromaOffset(), from.stride,
                   EvenUp(to.width) * to.Bytes(), ChromaRows(to.height), a, n);
    SameRowOn(CopyFrame(stable, to, frame, from), a, luma, a, frame, RowAt(from.dataOffset, from.stride, row), n);
  }

  lemma ChromaCopied(stable: seq<byte>, to: Layout, frame: seq<byte>, from: Layout, row: nat, n: nat)
    requires to.fourcc == from.fourcc && row < ChromaRows(to.height) && n <= EvenUp(to.width) * to.Bytes()
    requires Validates(from, to.width, to.height, from.Bytes(), |frame|)
             && Validates(to, to.width, to.height, to.Bytes(), |stable|)
    ensures SameRow(CopyFrame(stable, to, frame, from), RowAt(to.ChromaOffset(), to.stride, row),
                    frame, RowAt(from.ChromaOffset(), from.stride, row), n)
  {
    hide CopyRows, RowAt, EvenUp, ChromaRows, SameRow, Validates, Layout.Bytes, Layout.ChromaOffset;
    SameBytes(to, from);
    PlanesFit(from, to.width, to.height, |frame|);
    PlanesFit(to, to.width, to.height, |stable|);
    var luma := CopyRows(stable, to.dataOffset, to.stride, frame, from.dataOffset, from.stride, to.width * to.Bytes(),
        to.height);
    CopyRowsRow(luma, to.ChromaOffset(), to.stride, frame, from.ChromaOffset(), from.stride,
                EvenUp(to.width) * to.Bytes(), ChromaRows(to.height), row, n);
  }

  /** Direct and Copy are the same to a reader: a packed image can be read from the frame and from the stable
      buffer alike, and what is read from the buffer, after the frame has been copied there, is what is read
      from the frame itself. */
  lemma DirectEqualsCopy(out: seq<byte>, image: Image, stable: seq<byte>, to: Layout, frame: seq<byte>, from: Layout)
    requires image.fourcc == to.fourcc == from.fourcc && image.width <= to.width && image.height <= to.height
    requires PackedImage(image) && |out| >= image.dataSize
    requires Validates(from, to.width, to.height, from.Bytes(), |frame|)
             && Validates(to, to.width, to.height, to.Bytes(), |stable|)
    ensures Readable(image, to, |out|, |stable|) && Readable(image, from, |out|, |frame|)
    ensures ReadImage(out, image, CopyFrame(stable, to, frame, from), to) == ReadImage(out, image, frame, from)
  {
    hide Validates, PackedImage, Readable, ReadImage, CopyFrame;
    PackedReadable(image, to, to.width, to.height, |out|, |stable|);
    PackedReadable(image, from, to.width, to.height, |out|, |frame|);
    ReadsEqual(out, image, stable, to, frame, from);
  }

  /** ... wherever both reads are possible. */
  lemma ReadsEqual(out: seq<byte>, image: Image, stable: seq<byte>, to: Layout, frame: seq<byte>, from: Layout)
    requires image.fourcc == to.fourcc == from.fourcc && image.width <= to.width && image.height <= to.height
    requires Validates(from, to.width, to.height, from.Bytes(), |frame|)
             && Validates(to, to.width, to.height, to.Bytes(), |stable|)
    requires Readable(image, to, |out|, |stable|) && Readable(image, from, |out|, |frame|)
    ensures ReadImage(out, image, CopyFrame(stable, to, frame, from), to) == ReadImage(out, image, frame, from)
  {
    hide CopyRows, CopyFrame, RowAt, EvenUp, ChromaRows, SameRow, Layout.Bytes, Layout.ChromaOffset, RowsFit, Validates;
    var copied := CopyFrame(stable, to, frame, from);
    var w, h := image.width, image.height;
    SameBytes(to, from);
    VisibleFits(from, to.width, to.height, |frame|);
    LumaRowsCopied(stable, to, frame, from, w, h);
    CopyRowsSame(out, image.offset0, image.pitch0, copied, to.dataOffset, to.stride, frame, from.dataOffset,
        from.stride,
                 w * to.Bytes(), h);
    var luma := CopyRows(out, image.offset0, image.pitch0, frame, from.dataOffset, from.stride, w * to.Bytes(), h);
    ChromaRowsCopied(stable, to, frame, from, w, h);
    CopyRowsSame(luma, image.offset1, image.pitch1, copied, to.ChromaOffset(), to.stride, frame, from.ChromaOffset(),
        from.stride,
                 EvenUp(w) * to.Bytes(), ChromaRows(h));
  }

  lemma VisibleFits(l: Layout, width: nat, height: nat, size: nat)
    requires Validates(l, width, height, l.Bytes(), size)
    ensures width <= l.width && height <= l.height
  {
  }

  lemma LumaRowsCopied(stable: seq<byte>, to: Layout, frame: seq<byte>, from: Layout, w: nat, h: nat)
    requires to.fourcc == from.fourcc && w <= to.width && h <= to.height
    requires Validates(from, to.width, to.height, from.Bytes(), |frame|)
             && Validates(to, to.width, to.height, to.Bytes(), |stable|)
    ensures forall row :: 0 <= row < h ==>
              SameRow(CopyFrame(stable, to, frame, from), RowAt(to.dataOffset, to.stride, row),
                      frame, RowAt(from.dataOffset, from.stride, row), w * to.Bytes())
  {
    hide CopyFrame, RowAt, EvenUp, ChromaRows, SameRow, Validates, Layout.Bytes;
    MulMonotone(w, to.width, to.Bytes());
    forall row | 0 <= row < h
      ensures SameRow(CopyFrame(stable, to, frame, from), RowAt(to.dataOffset, to.stride, row),
                      frame, RowAt(from.dataOffset, from.stride, row), w * to.Bytes())
    {
      LumaCopied(stable, to, frame, from, row, w * to.Bytes());
    }
  }

  lemma ChromaRowsCopied(stable: seq<byte>, to: Layout, frame: seq<byte>, from: Layout, w: nat, h: nat)
    requires to.fourcc == from.fourcc && w <= to.width && h <= to.height
    requires Validates(from, to.width, to.height, from.Bytes(), |frame|)
             && Validates(to, to.width, to.height, to.Bytes(), |stable|)
    ensures forall row :: 0 <= row < ChromaRows(h) ==>
              SameRow(CopyFrame(stable, to, frame, from), RowAt(to.ChromaOffset(), to.stride, row),
                      frame, RowAt(from.ChromaOffset(), from.stride, row), EvenUp(w) * to.Bytes())
  {
    hide CopyFrame, RowAt, EvenUp, ChromaRows, SameRow, Validates, Layout.Bytes, Layout.ChromaOffset;
    EvenUpMonotone(w, to.width);
    EvenUpMonotone(h, to.height);
    MulMonotone(EvenUp(w), EvenUp(to.width), to.Bytes());
    forall row | 0 <= row < ChromaRows(h)
      ensures SameRow(CopyFrame(stable, to, frame, from), RowAt(to.ChromaOffset(), to.stride, row),
                      frame, RowAt(from.ChromaOffset(), from.stride, row), EvenUp(w) * to.Bytes())
    {
      ChromaCopied(stable, to, frame, from, row, EvenUp(w) * to.Bytes());
    }
  }

  lemma SameBytes(a: Layout, b: Layout)
    ensures a.fourcc == b.fourcc ==> a.Bytes() == b.Bytes()
  {
  }

  // ---------------------------------------------------------------- stable buffers

  /** `(x + a - 1) & ~(a - 1)` */
  function AlignUp(x: nat, a: nat): nat
    requires a > 0
  {
    (x + a - 1) / a * a
  }

  /** stable_layout; the geometry must be small enough for the 32-bit pitch and row arithmetic. */
  function StableLayout(fourcc: Fourcc, width: nat, height: nat): Result<Layout>
    requires 2 * width + 255 < U32 && height + 31 < U32
  {
    var bytes := if fourcc == P010 then 2 else 1;
    var stride := AlignUp(width * bytes, if fourcc == P010 then 256 else 128);
    var lumaRows, chromaRows := AlignUp(height, 32), AlignUp((height + 1) / 2, 16);
    var total := AlignUp(Area(stride, lumaRows) + Area(stride, chromaRows), 4096);
    if width == 0 || height == 0 || total > 0xffff_ffff then Err(InvalidParameter)
    else Ok(Layout(fourcc, width, height, stride, lumaRows, 0, total))
  }

  /** The least multiple of `a` that is not below `x`. */
  ghost predicate LeastMultiple(m: nat, a: nat, x: nat)
    requires a > 0
  {
    m % a == 0 && x <= m < x + a
  }

  lemma LeastIsAligned(m: nat, a: nat, x: nat)
    requires a > 0
    ensures LeastMultiple(m, a, x) <==> m == AlignUp(x, a)
  {
    var q := AlignUpBounds(x, a);
    if LeastMultiple(m, a, x) {
      var k := m / a;
      assert m == k * a;
      DivideUnique(x + a - 1, a, k, x + a - 1 - m);
    }
    QuotientRemainder(q * a, a, q, 0);
  }

  /** The driver's geometry: the pitch, both planes' rows and the size are each rounded up no further than to their
      alignment. */
  lemma StableLayoutExactly(fourcc: Fourcc, width: nat, height: nat, stride: nat, lumaRows: nat, chromaRows: nat,
                            total: nat)
    requires 2 * width + 255 < U32 && height + 31 < U32
    requires fourcc == NV12 ==> LeastMultiple(stride, 128, width)
    requires fourcc == P010 ==> LeastMultiple(stride, 256, 2 * width)
    requires LeastMultiple(lumaRows, 32, height) && LeastMultiple(chromaRows, 16, (height + 1) / 2)
    requires LeastMultiple(total, 4096, stride * lumaRows + stride * chromaRows)
    ensures StableLayout(fourcc, width, height)
         == if width > 0 && height > 0 && total < 0x1_0000_0000
            then Ok(Layout(fourcc, width, height, stride, lumaRows, 0, total)) else Err(InvalidParameter)
  {
    AreaIs(stride, lumaRows);
    AreaIs(stride, chromaRows);
    hide AlignUp, LeastMultiple, Area;
    LeastIsAligned(stride, if fourcc == P010 then 256 else 128, if fourcc == P010 then width * 2 else width);
    LeastIsAligned(lumaRows, 32, height);
    LeastIsAligned(chromaRows, 16, (height + 1) / 2);
    LeastIsAligned(total, 4096, Area(stride, lumaRows) + Area(stride, chromaRows));
  }

  lemma AlignUpBounds(x: nat, a: nat) returns (q: nat)
    requires a > 0
    ensures x <= AlignUp(x, a) < x + a && AlignUp(x, a) == q * a
  {
    q := (x + a - 1) / a;
    var r := (x + a - 1) % a;
    assert x + a - 1 == q * a + r;
  }

  lemma EvenUpParity(x: nat) returns (h: nat)
    ensures EvenUp(x) == 2 * h && (x == 2 * h || x == 2 * h - 1)
  {
    h := (x + 1) / 2;
  }

  /** An even alignment leaves room for the even width. */
  lemma EvenRowFits(x: nat)
    ensures EvenUp(x) <= AlignUp(x, 128) && EvenUp(x) * 2 <= AlignUp(x * 2, 256)
  {
    hide AlignUp, EvenUp;
    var h := EvenUpParity(x);
    var q := AlignUpBounds(x, 128);
    var r := AlignUpBounds(x * 2, 256);
    HalfBound(h, x, 64 * q);
    HalfBound(h, x, 64 * r);
  }

  lemma HalfBound(h: nat, x: nat, k: nat)
    requires 2 * h - 1 <= x <= 2 * k
    ensures h <= k
  {
  }

  /** Every stable layout has room for its own picture, in both planes: the copy never rejects it. */
  lemma StableLayoutValidates(fourcc: Fourcc, width: nat, height: nat)
    requires 2 * width + 255 < U32 && height + 31 < U32 && StableLayout(fourcc, width, height).Ok?
    ensures var l := StableLayout(fourcc, width, height).value;
            Validates(l, width, height, l.Bytes(), l.size)
  {
    hide AlignUp, EvenUp, Area;
    var l := StableLayout(fourcc, width, height).value;
    var chromaRows := AlignUp((height + 1) / 2, 16);
    EvenRowFits(width);
    var _ := AlignUpBounds(height, 32);
    var _ := AlignUpBounds((height + 1) / 2, 16);
    var _ := AlignUpBounds(Area(l.stride, l.storageHeight) + Area(l.stride, chromaRows), 4096);
    LastRowFits(ChromaRows(height), chromaRows, l.stride, EvenUp(width) * l.Bytes());
    AreaIs(l.stride, l.storageHeight);
  }

  lemma LastRowFits(rows: nat, aligned: nat, stride: nat, n: nat)
    requires 0 < rows <= aligned && n <= stride
    ensures (rows - 1) * stride + n <= Area(stride, aligned)
  {
    MulMonotone(rows, aligned, stride);
    assert (rows - 1) * stride + stride == rows * stride;
  }
}
