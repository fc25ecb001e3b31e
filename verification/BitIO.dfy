/** The byte-packing writer and the zero-extending reader (src/codec/bitwriter.h). */
module BitIO {
  import opened Bits
  import opened Codes

  // ---------------------------------------------------------------- packing

  /** `b | 1 << (7 - k)`. */
  function OrBit(b: byte, k: nat): (r: byte)
    requires k < 8
    ensures ByteBits(r) == ByteBits(b)[k := true]
  {
    SmallPowers();
    if ByteBits(b)[k] then
      assert ByteBits(b)[k := true] == ByteBits(b);
      b
    else
      SetDigit(b, 8, k);
      b + Pow2(7 - k)
  }

  lemma {:induction false} SetDigit(v: nat, n: nat, k: nat)
    requires k < n && v < Pow2(n) && !Fixed(v, n)[k]
    ensures v + Pow2(n - 1 - k) < Pow2(n)
    ensures Fixed(v + Pow2(n - 1 - k), n) == Fixed(v, n)[k := true]
  {
    if k < n - 1 {
      SetDigit(v / 2, n - 1, k);
    }
  }

  /** How many bits of the last byte are still free. */
  function Padding(length: nat): (p: nat)
    ensures p < 8 && (length + p) % 8 == 0
  {
    (8 - length % 8) % 8
  }

  /** The digit-counting loop that the writer's codes share. */
  method CountDigits(n: nat) returns (w: nat)
    ensures w == Width(n)
  {
    w := 0;
    var v := n;
    while v > 0
      invariant w + Width(v) == Width(n)
    {
      v := v / 2;
      w := w + 1;
    }
  }

  ghost predicate FreeFrom(bits: seq<bool>, k: nat) {
    forall i :: k <= i < |bits| ==> !bits[i]
  }

  /** The last byte holds `k` digits, followed by zeros. */
  ghost predicate Partial(data: seq<byte>, k: nat, contents: seq<bool>)
    requires k < 8
  {
    && |data| > 0
    && var bits := ByteBits(data[|data| - 1]);
       FreeFrom(bits, k) && contents == FromBytes(data[..|data| - 1]) + bits[..k]
  }

  lemma ZeroByte(data: seq<byte>)
    ensures ByteBits(0) == Zeros(8)
    ensures (data + [0])[..|data|] == data && FromBytes(data) + ByteBits(0)[..0] == FromBytes(data)
  {
  }

  /** Writing digit `k` of a byte whose digits from `k` on are zero. */
  lemma PlaceBit(head: seq<byte>, bits: seq<bool>, k: nat, value: bool)
    requires k < 8 == |bits| && FreeFrom(bits, k)
    ensures var r := if value then bits[k := true] else bits;
            && FreeFrom(r, k + 1)
            && FromBytes(head) + r[..k + 1] == (FromBytes(head) + bits[..k]) + [value]
            && (k == 7 ==> r[..k + 1] == r)
  {
    var r := if value then bits[k := true] else bits;
    assert r[..k + 1] == bits[..k] + [value];
  }

  /** An append-only bit string kept as bytes; the free bits of the last byte are zero. */
  class BitWriter {
    var data: seq<byte>
    var bitOffset: nat

    /** The bits written so far. */
    ghost var contents: seq<bool>

    ghost predicate Valid()
      reads this
    {
      && bitOffset < 8
      && (bitOffset == 0 ==> contents == FromBytes(data))
      && (bitOffset > 0 ==> Partial(data, bitOffset, contents))
    }

    constructor ()
      ensures Valid() && contents == []
    {
      data := [];
      bitOffset := 0;
      contents := [];
    }

    /** The bytes are the bits written, padded with zeros. */
    lemma DataBits()
      requires Valid()
      ensures FromBytes(data) == contents + Zeros(Padding(|contents|))
      ensures bitOffset == |contents| % 8
    {
      if bitOffset > 0 {
        assert |contents| == 8 * (|data| - 1) + bitOffset;
        assert Padding(|contents|) == 8 - bitOffset;
      } else {
        assert contents + Zeros(0) == contents;
      }
    }

    method Bit(value: bool)
      requires Valid()
      modifies this
      ensures Valid() && contents == old(contents) + [value]
      ensures bitOffset == if old(bitOffset) == 7 then 0 else old(bitOffset) + 1
    {
      hide ByteBits, OrBit;
      if bitOffset == 0 {
        ZeroByte(data);
        data := data + [0];
      }
      ghost var head, last := data[..|data| - 1], data[|data| - 1];
      data := data[|data| - 1 := if value then OrBit(data[|data| - 1], bitOffset) else data[|data| - 1]];
      PlaceBit(head, ByteBits(last), bitOffset, value);
      assert data[..|data| - 1] == head;
      bitOffset := (bitOffset + 1) % 8;
      contents := contents + [value];
    }

    method WriteBits(value: nat, count: nat)
      requires Valid()
      modifies this
      ensures Valid() && contents == old(contents) + Fixed(value, count)
    {
      var i := count;
      ghost var code := Fixed(value, count);
      assert old(contents) + code[..0] == old(contents);
      while i > 0
        invariant 0 <= i <= count
        invariant Valid() && contents == old(contents) + code[..count - i]
      {
        FixedAt(value, count, count - i);
        assert code[..count - i + 1] == code[..count - i] + [code[count - i]];
        Bit(value / Pow2(i - 1) % 2 == 1);
        i := i - 1;
      }
      assert code[..count] == code;
    }

    method Ue(value: nat)
      requires value < U32
      requires Valid()
      modifies this
      ensures Valid() && contents == old(contents) + UeCode(value)
    {
      var codeNum := if value + 1 == U32 then 0 else value + 1;
      var width := CountDigits(codeNum);
      var zeros: nat := if width == 0 then 0 else width - 1;
      ZeroRun(zeros);
      Associative(old(contents), Zeros(zeros), Fixed(codeNum, width));
      WriteBits(codeNum, width);
    }

    method ZeroRun(count: nat)
      requires Valid()
      modifies this
      ensures Valid() && contents == old(contents) + Zeros(count)
    {
      assert old(contents) + Zeros(0) == old(contents);
      for i := 0 to count
        invariant Valid() && contents == old(contents) + Zeros(i)
      {
        Bit(false);
      }
    }

    /** Twice the value must fit the 32-bit arithmetic. */
    method Se(value: int)
      requires -0x4000_0000 < value < 0x4000_0000
      requires Valid()
      modifies this
      ensures Valid() && contents == old(contents) + SeCode(value)
    {
      Ue(if value > 0 then value * 2 - 1 else -value * 2);
    }

    method Su(value: int, count: nat)
      requires -0x8000_0000 <= value < 0x8000_0000
      requires Valid()
      modifies this
      ensures Valid() && contents == old(contents) + SuCode(value, count)
    {
      WriteBits(if value < 0 then value + U32 else value, count);
    }

    /** The 32-bit shift and sum must not wrap. */
    method Ns(value: nat, n: nat)
      requires value < 0x8000_0000 && n < 0x8000_0000
      requires Valid()
      modifies this
      ensures Valid() && contents == old(contents) + NsCode(value, n)
    {
      ghost var code := NsCode(value, n);
      if n <= 1 {
        assert contents + code == contents;
        return;
      }
      var w := CountDigits(n);
      var m := Pow2(w) - n;
      if value < m {
        assert code == Fixed(value, w - 1);
        WriteBits(value, w - 1);
      } else {
        assert code == Fixed(value + m, w);
        WriteBits(value + m, w);
      }
    }

    method Leb128(value: nat)
      requires value < 0x1_0000_0000_0000_0000
      requires Valid()
      modifies this
      ensures Valid() && contents == old(contents) + Leb128Code(value)
    {
      hide Fixed, Low7, High7, ByteBits, FromBytes;
      var v := value;
      var more := true;
      while more
        invariant Valid()
        invariant old(contents) + Leb128Code(value)
               == if more then contents + Leb128Code(v) else contents
        decreases more, v
      {
        var low := Low7(v);
        more := High7(v) != 0;
        ghost var was := contents;
        Associative(was, Fixed(low + 128, 8), Leb128Code(High7(v)));
        WriteBits(if more then low + 128 else low, 8);
        v := High7(v);
      }
    }

    /** A one bit, then zeros to the next byte boundary. */
    method TrailingBits()
      requires Valid()
      modifies this
      ensures Valid() && bitOffset == 0
      ensures contents == old(contents) + ([true] + Zeros(Padding(|old(contents)| + 1)))
      ensures FromBytes(data) == contents
    {
      Bit(true);
      ghost var marked := contents;
      ByteAlign();
      assert marked + Zeros(Padding(|marked|))
          == old(contents) + ([true] + Zeros(Padding(|old(contents)| + 1)));
    }

    method ByteAlign()
      requires Valid()
      modifies this
      ensures Valid() && bitOffset == 0
      ensures contents == old(contents) + Zeros(Padding(|old(contents)|))
      ensures FromBytes(data) == contents
    {
      ghost var before, pad := contents, Padding(|contents|);
      ghost var written := 0;
      assert pad == (8 - bitOffset) % 8 by { DataBits(); }
      assert before + Zeros(0) == before;
      while bitOffset != 0
        invariant Valid() && written <= pad
        invariant bitOffset == (if written == pad then 0 else 8 - pad + written)
        invariant contents == before + Zeros(written)
        decreases pad - written
      {
        Bit(false);
        written := written + 1;
      }
    }
  }
}
