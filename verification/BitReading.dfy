/** The zero-extending bit reader of src/codec/bitwriter.h. The functions give the value read at a
    position of a bit string; the class moves the position. On conforming syntax they agree with the
    standard's parsing process. */
module BitReading {
  import opened Bits
  import opened Codes
  import opened BitIO

  function BitAt(s: seq<bool>, p: nat): bool {
    p < |s| && s[p]
  }

  /** `n` bits from `p`; the 32-bit accumulator is exact for up to 32 of them. */
  function BitsAt(s: seq<bool>, p: nat, n: nat): nat {
    if n == 0 then 0
    else 2 * BitsAt(s, p, n - 1) + (if BitAt(s, p + n - 1) then 1 else 0)
  }

  /** Zero bits from `p`, counting no more than `limit`. */
  function ZerosAt(s: seq<bool>, p: nat, limit: nat): (z: nat)
    ensures z <= limit
    decreases limit
  {
    if limit == 0 || BitAt(s, p) then 0 else 1 + ZerosAt(s, p + 1, limit - 1)
  }

  /** The value read by ue() at `p`, and the position after it. */
  function UeAt(s: seq<bool>, p: nat): (r: (nat, nat))
    ensures r.1 > p
  {
    var z := ZerosAt(s, p, 32);
    (UeValue(z, BitsAt(s, p + z + 1, z)), p + 2 * z + 1)
  }

  /** For 32 zeros the shifted-out power of two is taken as 0, and 0 - 1 wraps. */
  function UeValue(z: nat, low: nat): nat {
    if z < 32 then Pow2(z) - 1 + low else if low == 0 then U32 - 1 else low - 1
  }

  /** `s` continues at `p` with `code` and then `rest`. */
  ghost predicate Ahead(s: seq<bool>, p: nat, code: seq<bool>, rest: seq<bool>) {
    p <= |s| && s[p..] == code + rest
  }

  lemma {:induction false} BitsAtPrefix(s: seq<bool>, p: nat, code: seq<bool>, rest: seq<bool>, n: nat)
    requires Ahead(s, p, code, rest) && n <= |code|
    ensures BitsAt(s, p, n) == Value(code[..n]) < Pow2(n)
  {
    if n > 0 {
      BitsAtPrefix(s, p, code, rest, n - 1);
      assert code[..n][..n - 1] == code[..n - 1];
    }
  }

  lemma ReadsBits(s: seq<bool>, p: nat, v: nat, n: nat, rest: seq<bool>)
    requires v < Pow2(n) && Ahead(s, p, Fixed(v, n), rest)
    ensures BitsAt(s, p, n) == v && p + n <= |s| && s[p + n..] == rest
  {
    var code := Fixed(v, n);
    BitsAtPrefix(s, p, code, rest, n);
    assert code[..n] == code;
    ValueOfFixed(v, n);
  }

  lemma ReadsBit(s: seq<bool>, p: nat, b: bool, rest: seq<bool>)
    requires Ahead(s, p, [b], rest)
    ensures BitAt(s, p) == b && p + 1 <= |s| && s[p + 1..] == rest
  {
  }

  lemma {:induction false} CountsZeros(s: seq<bool>, p: nat, z: nat, limit: nat, tail: seq<bool>)
    requires z < limit && Ahead(s, p, Zeros(z), [true] + tail)
    ensures ZerosAt(s, p, limit) == z
    decreases z
  {
    assert s[p..][z];
    if z > 0 {
      assert s[p + 1..] == s[p..][1..];
      assert Ahead(s, p + 1, Zeros(z - 1), [true] + tail);
      CountsZeros(s, p + 1, z - 1, limit - 1, tail);
    }
  }

  lemma ReadsUe(s: seq<bool>, p: nat, v: nat, rest: seq<bool>)
    requires v < U32 - 1 && Ahead(s, p, UeCode(v), rest)
    ensures UeAt(s, p) == (v, p + |UeCode(v)|)
    ensures p + |UeCode(v)| <= |s| && s[p + |UeCode(v)|..] == rest
  {
    hide Fixed, Pow2, Width, UeCode, UeAt;
    var z, low := UeParts(v, rest);
    ReadsParts(s, p, z, low, rest);
  }

  lemma UeParts(v: nat, rest: seq<bool>) returns (z: nat, low: nat)
    requires v < U32 - 1
    ensures z < 32 && low < Pow2(z) && v == Pow2(z) - 1 + low && |UeCode(v)| == 2 * z + 1
    ensures UeCode(v) + rest == Zeros(z) + ([true] + (Fixed(low, z) + rest))
  {
    hide Fixed, Pow2, Width, UeCode;
    z := Width(v + 1) - 1;
    UeShape(v, z);
    UeWidth(v);
    low := v + 1 - Pow2(z);
    UeSplit(Zeros(z), Fixed(low, z), rest);
  }

  lemma ReadsParts(s: seq<bool>, p: nat, z: nat, low: nat, rest: seq<bool>)
    requires z < 32 && low < Pow2(z) && Ahead(s, p, Zeros(z), [true] + (Fixed(low, z) + rest))
    ensures UeAt(s, p) == (Pow2(z) - 1 + low, p + 2 * z + 1)
  {
    hide Fixed, Pow2, BitsAt, ZerosAt;
    var tail := Fixed(low, z) + rest;
    CountsZeros(s, p, z, 32, tail);
    ReadsBit(s, p + z, true, tail);
    ReadsBits(s, p + z + 1, low, z, rest);
  }

  lemma UeWidth(v: nat)
    requires v < U32 - 1
    ensures 0 < Width(v + 1) <= 32
  {
    Pow2Of32();
    WidthBound(v + 1, 32);
  }

  // ---------------------------------------------------------------- emulation prevention

  function NextZeros(zeros: nat, b: byte): nat {
    if b == 0 then zeros + 1 else 0
  }

  /** The payload with emulation prevention bytes, after a run of `zeros` zero bytes. */
  function Escape(payload: seq<byte>, zeros: nat := 0): seq<byte> {
    if payload == [] then []
    else if zeros >= 2 && payload[0] <= 3 then
      [3, payload[0]] + Escape(payload[1..], NextZeros(0, payload[0]))
    else
      [payload[0]] + Escape(payload[1..], NextZeros(zeros, payload[0]))
  }

  /** Which bytes of `Escape(payload, zeros)` were inserted. */
  function Inserted(payload: seq<byte>, zeros: nat := 0): (r: seq<bool>)
    ensures |r| == |Escape(payload, zeros)|
  {
    if payload == [] then []
    else if zeros >= 2 && payload[0] <= 3 then
      [true, false] + Inserted(payload[1..], NextZeros(0, payload[0]))
    else
      [false] + Inserted(payload[1..], NextZeros(zeros, payload[0]))
  }

  /** What the reader keeps of a NAL unit whose first `header` bytes are taken verbatim. */
  function Unescape(nal: seq<byte>, header: nat, zeros: nat := 0): seq<byte> {
    if nal == [] then []
    else if header == 0 && zeros == 2 && nal[0] == 3 then Unescape(nal[1..], 0, 0)
    else [nal[0]] + Unescape(nal[1..], if header == 0 then 0 else header - 1, NextZeros(zeros, nal[0]))
  }

  lemma {:induction false} UnescapeEscape(payload: seq<byte>, zeros: nat)
    requires zeros <= 2
    ensures Unescape(Escape(payload, zeros), 0, zeros) == payload
    decreases |payload|
  {
    if payload != [] {
      var b := payload[0];
      var next := if zeros == 2 && b <= 3 then NextZeros(0, b) else NextZeros(zeros, b);
      var rest := Escape(payload[1..], next);
      UnescapeEscape(payload[1..], next);
      assert ([b] + rest)[1..] == rest && ([3, b] + rest)[1..] == [b] + rest;
      assert [b] + payload[1..] == payload;
    }
  }

  /** Bytes `j` and `j + 1` are zero. */
  ghost predicate TwoZeros(e: seq<byte>, j: nat) {
    j + 2 < |e| && e[j] == 0 && e[j + 1] == 0
  }

  /** After two zero bytes comes nothing below 3, and a 3 exactly where one was inserted; an inserted byte is
      followed by one that needs it. */
  ghost predicate Protected(e: seq<byte>, inserted: seq<bool>)
    requires |inserted| == |e|
  {
    && (forall j: nat :: TwoZeros(e, j) ==> e[j + 2] >= 3)
    && (forall j: nat :: TwoZeros(e, j) ==> (e[j + 2] == 3 <==> inserted[j + 2]))
    && (forall j: nat :: j < |e| && inserted[j] ==>
          e[j] == 3 && j >= 2 && TwoZeros(e, j - 2) && j + 1 < |e| && e[j + 1] <= 3)
  }

  /** The same, scanned from the left after a run of `zeros` zero bytes. */
  ghost predicate Scan(e: seq<byte>, inserted: seq<bool>, zeros: nat)
    requires |inserted| == |e|
  {
    e != [] ==>
      && (if zeros >= 2 then e[0] >= 3 && (e[0] == 3 <==> inserted[0]) else !inserted[0])
      && (inserted[0] ==> |e| > 1 && e[1] <= 3)
      && Scan(e[1..], inserted[1..], NextZeros(zeros, e[0]))
  }

  lemma {:induction false} EscapeScans(payload: seq<byte>, zeros: nat)
    ensures Scan(Escape(payload, zeros), Inserted(payload, zeros), zeros)
    decreases |payload|
  {
    if payload != [] {
      var b := payload[0];
      var next := if zeros >= 2 && b <= 3 then NextZeros(0, b) else NextZeros(zeros, b);
      EscapeScans(payload[1..], next);
    }
  }

  lemma {:induction false} ScanForward(e: seq<byte>, m: seq<bool>, zeros: nat, j: nat)
    requires |m| == |e| && Scan(e, m, zeros) && TwoZeros(e, j)
    ensures e[j + 2] >= 3 && (e[j + 2] == 3 <==> m[j + 2])
    decreases j
  {
    if j == 0 {
      assert e[1..][1..] == e[2..] && m[1..][1..] == m[2..];
      assert Scan(e[2..], m[2..], NextZeros(NextZeros(zeros, e[0]), e[1]));
    } else {
      ScanForward(e[1..], m[1..], NextZeros(zeros, e[0]), j - 1);
    }
  }

  lemma {:induction false} ScanBackward(e: seq<byte>, m: seq<bool>, zeros: nat, j: nat)
    requires |m| == |e| && Scan(e, m, zeros) && j < |e| && m[j]
    ensures e[j] == 3 && j + 1 < |e| && e[j + 1] <= 3
    ensures if j == 0 then zeros >= 2
            else if j == 1 then zeros >= 1 && e[0] == 0 else TwoZeros(e, j - 2)
    decreases j
  {
    if j > 0 {
      ScanBackward(e[1..], m[1..], NextZeros(zeros, e[0]), j - 1);
    }
  }

  /** The payload of a NAL unit follows the rules for emulation prevention (section 7.4.2 of H.265). */
  lemma EscapeProtects(payload: seq<byte>)
    ensures Protected(Escape(payload), Inserted(payload))
  {
    var e, m := Escape(payload), Inserted(payload);
    EscapeScans(payload, 0);
    forall j: nat | TwoZeros(e, j)
      ensures e[j + 2] >= 3 && (e[j + 2] == 3 <==> m[j + 2])
    {
      ScanForward(e, m, 0, j);
    }
    forall j: nat | j < |e| && m[j]
      ensures e[j] == 3 && j >= 2 && TwoZeros(e, j - 2) && j + 1 < |e| && e[j + 1] <= 3
    {
      ScanBackward(e, m, 0, j);
    }
  }

  /** The escaped payload together with the header bytes before it is what the reader undoes. */
  lemma {:induction false} UnescapeAfterHeader(header: seq<byte>, payload: seq<byte>, zeros: nat)
    ensures Unescape(header + payload, |header|, zeros)
         == header + Unescape(payload, 0, RunAfter(header, zeros))
    decreases |header|
  {
    if header == [] {
      assert header + payload == payload;
    } else {
      assert (header + payload)[1..] == header[1..] + payload;
      UnescapeAfterHeader(header[1..], payload, NextZeros(zeros, header[0]));
      assert header == [header[0]] + header[1..];
    }
  }

  /** The zero counter after some bytes that are taken verbatim. */
  function RunAfter(bytes: seq<byte>, zeros: nat): nat {
    if bytes == [] then zeros else RunAfter(bytes[1..], NextZeros(zeros, bytes[0]))
  }

  /** Appends a start code, the NAL unit header and the escaped payload. */
  method AppendEscapedNal(stream: seq<byte>, header: seq<byte>, writer: BitWriter) returns (r: seq<byte>)
    ensures r == stream + [0, 0, 0, 1] + header + Escape(writer.data)
  {
    r := stream + [0, 0, 0, 1] + header;
    ghost var base := r;
    var zeroCount := 0;
    var data := writer.data;
    assert data[0..] == data;
    for i := 0 to |data|
      invariant r + Escape(data[i..], zeroCount) == base + Escape(data)
    {
      var b := data[i];
      ghost var was, rest := r, data[i + 1..];
      assert data[i..][1..] == rest;
      if zeroCount >= 2 && b <= 3 {
        r := r + [3];
        zeroCount := 0;
        Associative(was, [3], [b] + Escape(rest, NextZeros(0, b)));
        assert [3] + ([b] + Escape(rest, NextZeros(0, b))) == [3, b] + Escape(rest, NextZeros(0, b));
      }
      Associative(r, [b], Escape(rest, NextZeros(zeroCount, b)));
      r := r + [b];
      zeroCount := if b == 0 then zeroCount + 1 else 0;
    }
    assert r + [] == r;
  }

  // ---------------------------------------------------------------- the reader

  lemma {:induction false} FromBytesAt(data: seq<byte>, p: nat)
    requires p < 8 * |data|
    ensures FromBytes(data)[p] == ByteBits(data[p / 8])[p % 8]
  {
    hide ByteBits;
    var n := |data| - 1;
    if p < 8 * n {
      FromBytesAt(data[..n], p);
    } else {
      assert p / 8 == n;
    }
  }

  /** Ceil(Log2(n)), zero for zero. */
  function CeilLog2(n: nat): (k: nat)
    ensures n <= Pow2(k)
    ensures k > 0 ==> Pow2(k - 1) < n
  {
    if n == 0 then 0 else Width(n - 1)
  }

  method NalCeilLog2(n: nat) returns (bits: nat)
    ensures bits == CeilLog2(n)
  {
    bits := CountDigits(if n != 0 then n - 1 else 0);
  }

  class BitReader {
    var bytes: seq<byte>
    var position: nat

    ghost function Source(): (s: seq<bool>)
      reads this
    {
      FromBytes(bytes)
    }

    constructor (nal: seq<byte>, headerBytes: nat)
      ensures bytes == Unescape(nal, headerBytes) && position == 0
    {
      var kept: seq<byte> := [];
      var zeros := 0;
      assert nal[0..] == nal;
      for i := 0 to |nal|
        invariant kept + Unescape(nal[i..], if i < headerBytes then headerBytes - i else 0, zeros)
               == Unescape(nal, headerBytes)
      {
        var b := nal[i];
        assert nal[i..][1..] == nal[i + 1..];
        if i >= headerBytes && zeros == 2 && b == 3 {
          zeros := 0;
        } else {
          Associative(kept, [b],
            Unescape(nal[i + 1..], if i + 1 < headerBytes then headerBytes - i - 1 else 0, NextZeros(zeros, b)));
          kept := kept + [b];
          zeros := if b == 0 then zeros + 1 else 0;
        }
      }
      assert kept + [] == kept;
      bytes := kept;
      position := 0;
    }

    method Bit() returns (b: bool)
      modifies this`position
      ensures b == BitAt(Source(), old(position)) && position == old(position) + 1
    {
      var p := position;
      position := position + 1;
      if p >= 8 * |bytes| {
        return false;
      }
      FromBytesAt(bytes, p);
      FixedAt(bytes[p / 8], 8, p % 8);
      b := bytes[p / 8] / Pow2(7 - p % 8) % 2 == 1;
    }

    method ReadBits(count: nat) returns (value: nat)
      requires count <= 32
      modifies this`position
      ensures value == BitsAt(Source(), old(position), count) && position == old(position) + count
    {
      value := 0;
      for i := 0 to count
        invariant position == old(position) + i && value == BitsAt(Source(), old(position), i)
      {
        var b := Bit();
        value := 2 * value + (if b then 1 else 0);
      }
    }

    method Ue() returns (value: nat)
      modifies this`position
      ensures (value, position) == UeAt(Source(), old(position))
    {
      hide FromBytes, BitsAt, Pow2, UeValue;
      var zeros := CountZeros();
      var low := ReadBits(zeros);
      value := UeValue(zeros, low);
    }

    /** Reads zeros and the bit that ends them, at most 33 bits. */
    method CountZeros() returns (zeros: nat)
      modifies this`position
      ensures zeros == ZerosAt(Source(), old(position), 32) && position == old(position) + zeros + 1
    {
      hide FromBytes;
      zeros := 0;
      var b := Bit();
      while !b && zeros < 32
        invariant zeros <= 32 && position == old(position) + zeros + 1
        invariant b == BitAt(Source(), old(position) + zeros)
        invariant ZerosAt(Source(), old(position), 32) == zeros + ZerosAt(Source(), old(position) + zeros, 32 - zeros)
        decreases 32 - zeros
      {
        zeros := zeros + 1;
        b := Bit();
      }
    }

    /** Appends the bits from the position up to `end`, or to the end of the NAL unit. */
    method Copy(writer: BitWriter, end: nat)
      requires writer.Valid()
      modifies this`position, writer
      ensures writer.Valid()
      ensures writer.contents == old(writer.contents) + Window(Source(), old(position), end)
      ensures position == old(position) + |Window(Source(), old(position), end)|
    {
      hide FromBytes, ByteBits;
      ghost var s, start := Source(), position;
      assert Window(s, start, start) == [];
      while position < end && position < 8 * |bytes|
        invariant writer.Valid() && start <= position
        invariant position == start || (position <= end && position <= |s|)
        invariant writer.contents == old(writer.contents) + Window(s, start, position)
      {
        Associative(old(writer.contents), Window(s, start, position), [s[position]]);
        var b := Bit();
        writer.Bit(b);
      }
    }
  }

  /** The bits [p, end) that exist. */
  function Window(s: seq<bool>, p: nat, end: nat): seq<bool> {
    if end <= |s| then (if p <= end then s[p..end] else [])
    else (if p <= |s| then s[p..] else [])
  }

}
