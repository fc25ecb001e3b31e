/** rewrite_slice of src/codec/hevc.cc, step by step: a reader, a writer and the `copied` position. */
module HevcRewriter {
  import opened Bits
  import opened Codes
  import opened BitIO
  import opened BitReading
  import opened Outcome
  import opened HevcReferences
  import opened HevcRps
  import opened HevcSlice
  import opened HevcRewrite
  import opened HevcRewriteMeaning
  import opened HevcSliceTheorems

  /** Copies the bits between `copied` and `end` and leaves the reader where it was. */
  method CopyTo(r: BitReader, b: BitWriter, copied: nat, end: nat)
    requires b.Valid()
    modifies r`position, b
    ensures b.Valid() && b.contents == old(b.contents) + Window(r.Source(), copied, end)
    ensures r.position == old(r.position)
  {
    var saved := r.position;
    r.position := copied;
    r.Copy(b, end);
    r.position := saved;
  }

  method WritePreamble(r: BitReader, b: BitWriter, nalType: nat) returns (first: bool, copied: nat)
    requires b.Valid() && b.contents == [] && r.position == 0
    modifies r`position, b
    ensures b.Valid() && first == BitAt(r.Source(), 0)
    ensures Cursor(b.contents, copied, r.position) == Preamble(r.Source(), nalType)
  {
    hide FromBytes, UeCode, UeAt;
    first := r.Bit();
    b.Bit(first);
    assert [] + [first] == [first];
    if 16 <= nalType <= 23 {
      var _ := r.Bit();
      b.Bit(false);
    }
    var _ := r.Ue();
    b.Ue(0);
    copied := r.position;
  }

  method ReadAddress(r: BitReader, b: BitWriter, first: bool, slice: VaSlice, p: VaPicture, ghost copied: nat)
    returns (result: Result<bool>)
    requires first == BitAt(r.Source(), 0) && CeilLog2(PicSizeInCtbs(p)) <= 32
    modifies r`position
    ensures match Address(r.Source(), Cursor(b.contents, copied, old(r.position)), slice, p)
            case Ok(next) => result == Ok(next.1) && Cursor(b.contents, copied, r.position) == next.0
            case Err(e) => result == Err(e)
  {
    hide FromBytes, Pow2, CeilLog2;
    if first {
      return Ok(false);
    }
    var dependent := false;
    if p.dependentEnabled {
      dependent := r.Bit();
    }
    var bits := NalCeilLog2(PicSizeInCtbs(p));
    var address := r.ReadBits(bits);
    if address != slice.address {
      return Err(InvalidBuffer);
    }
    result := Ok(dependent);
  }

  method RewriteType(r: BitReader, b: BitWriter, copied0: nat, slice: VaSlice,
                     p: VaPicture) returns (result: Result<nat>)
    requires b.Valid()
    modifies r`position, b
    ensures b.Valid()
    ensures match Type(r.Source(), Cursor(old(b.contents), copied0, old(r.position)), slice, p)
            case Ok(next) => result.Ok? && Cursor(b.contents, result.value, r.position) == next
            case Err(e) => result == Err(e)
  {
    hide FromBytes, UeAt, ByteBits;
    var copied := copied0;
    r.position := r.position + p.extraBits;
    var sliceType := r.Ue();
    if sliceType > 2 || sliceType != slice.sliceType {
      return Err(InvalidBuffer);
    }
    if p.outputFlagPresent {
      CopyTo(r, b, copied, r.position);
      var _ := r.Bit();
      b.Bit(true);
      copied := r.position;
    }
    if p.separatePlanes {
      var _ := r.ReadBits(2);
    }
    result := Ok(copied);
  }

  method SkipShortTerm(r: BitReader, p: VaPicture) returns (result: Result<()>)
    requires CeilLog2(p.stSets) <= 32
    modifies r`position
    ensures match SkipSt(r.Source(), old(r.position), p)
            case Ok(end) => result == Ok(()) && r.position == end
            case Err(e) => result == Err(e)
  {
    hide FromBytes, UeAt, Pow2, CeilLog2;
    var fromSps := r.Bit();
    if fromSps {
      if p.stSets == 0 {
        return Err(InvalidBuffer);
      }
      var bits := NalCeilLog2(p.stSets);
      var _ := r.ReadBits(bits);
      return Ok(());
    }
    var start := r.position;
    var predicted := false;
    if p.stSets > 0 {
      predicted := r.Bit();
    }
    if predicted {
      if p.stRpsBits == 0 {
        return Err(InvalidBuffer);
      }
      r.position := start;
      r.position := r.position + p.stRpsBits;
      return Ok(());
    }
    var neg := r.Ue();
    var pos := r.Ue();
    var total := Add32(neg, pos);
    if total > 16 {
      return Err(InvalidBuffer);
    }
    ghost var end := SkipPairs(r.Source(), r.position, total);
    for i := 0 to total
      invariant SkipPairs(r.Source(), r.position, total - i) == end
    {
      var _ := r.Ue();
      var _ := r.Bit();
    }
    result := Ok(());
  }

  method SkipLongTerm(r: BitReader, p: VaPicture) returns (result: Result<()>)
    requires CeilLog2(p.ltSets) <= 32 && p.pocLsbMinus4 <= 12
    modifies r`position
    ensures match SkipLt(r.Source(), old(r.position), p)
            case Ok(end) => result == Ok(()) && r.position == end
            case Err(e) => result == Err(e)
  {
    hide FromBytes, UeAt, Pow2, CeilLog2, SkipLtEntries;
    if !p.longTermPresent {
      return Ok(());
    }
    var ns := 0;
    if p.ltSets > 0 {
      ns := r.Ue();
    }
    var np := r.Ue();
    var total := Add32(ns, np);
    if ns > p.ltSets || total > 16 {
      return Err(InvalidBuffer);
    }
    SkipLongTermEntries(r, p, ns, total);
    result := Ok(());
  }

  method SkipMsbCycle(r: BitReader)
    modifies r`position
    ensures r.position == SkipMsb(r.Source(), old(r.position))
  {
    hide FromBytes, UeAt;
    var msb := r.Bit();
    if msb {
      var _ := r.Ue();
    }
  }

  method SkipLongTermEntries(r: BitReader, p: VaPicture, ns: nat, total: nat)
    requires CeilLog2(p.ltSets) <= 32 && p.pocLsbMinus4 <= 12
    modifies r`position
    ensures var fromSps := if ns < total then ns else total;
            r.position == SkipLtEntries(r.Source(), old(r.position), p, fromSps, total - fromSps)
  {
    hide FromBytes, SkipMsb, BitsAt, CeilLog2;
    ghost var fromSps := if ns < total then ns else total;
    for i := 0 to total
      invariant SkipLtEntries(r.Source(), r.position, p, if i < fromSps then fromSps - i else 0,
                              if i < fromSps then total - fromSps else total - i)
             == SkipLtEntries(r.Source(), old(r.position), p, fromSps, total - fromSps)
    {
      if i < ns {
        var bits := NalCeilLog2(p.ltSets);
        var _ := r.ReadBits(bits);
      } else {
        var _ := r.ReadBits(p.pocLsbMinus4 + 4);
        var _ := r.Bit();
      }
      SkipMsbCycle(r);
    }
  }

  method RewriteTiming(r: BitReader, b: BitWriter, copied0: nat, nalType: nat, p: VaPicture, refs: References)
    returns (result: Result<nat>)
    requires b.Valid() && CeilLog2(p.stSets) <= 32 && CeilLog2(p.ltSets) <= 32 && p.pocLsbMinus4 <= 12
    requires |refs.before| < U32 && |refs.after| < U32 && |refs.longTerm| < U32
    modifies r`position, b
    ensures b.Valid()
    ensures match Timing(r.Source(), Cursor(old(b.contents), copied0, old(r.position)), nalType, p, refs)
            case Ok(next) => result.Ok? && Cursor(b.contents, result.value, r.position) == next
            case Err(e) => result == Err(e)
  {
    hide FromBytes, UeAt, ByteBits, WrittenRps, RpsCode, SkipSt, SkipLt, Pow2, CeilLog2;
    if nalType == 19 || nalType == 20 {
      return Ok(copied0);
    }
    var _ := r.ReadBits(p.pocLsbMinus4 + 4);
    CopyTo(r, b, copied0, r.position);
    var _ :- SkipShortTerm(r, p);
    var _ :- SkipLongTerm(r, p);
    var copied := r.position;
    var _ :- WriteRps(b, refs, p.poc, p.longTermPresent, p.pocLsbMinus4 + 4);
    if p.tmvpEnabled {
      var _ := r.Bit();
    }
    result := Ok(copied);
  }

  lemma {:induction false} FirstPosition(list: seq<nat>, x: nat, i: nat)
    requires i <= |list| && x !in list[..i] && (i < |list| ==> list[i] == x)
    ensures Position(list, x) == i
  {
    if i > 0 {
      assert list[0] in list[..i];
      assert list[1..][..i - 1] == list[1..i];
      assert forall y :: y in list[1..i] ==> y in list[..i];
      FirstPosition(list[1..], x, i - 1);
    }
  }

  /** std::find over the initial list. */
  method FindPosition(list: seq<nat>, x: nat) returns (i: nat)
    ensures i == Position(list, x)
  {
    hide Position;
    i := 0;
    while i < |list| && list[i] != x
      invariant i <= |list| && x !in list[..i]
    {
      i := i + 1;
    }
    FirstPosition(list, x, i);
  }

  /** Skips the original list modification, if there is one. */
  method SkipModification(r: BitReader, p: VaPicture, total: nat, count: nat)
    modifies r`position
    ensures r.position == ModificationEnd(r.Source(), old(r.position), p, total, count)
  {
    hide FromBytes, Pow2, CeilLog2;
    if p.modificationPresent && total > 1 {
      var modified := r.Bit();
      if modified {
        var bits := NalCeilLog2(total);
        r.position := r.position + count * bits;
      }
    }
  }

  method RewriteList(r: BitReader, b: BitWriter, p: VaPicture, total: nat, count: nat, list: seq<nat>, va: seq<nat>)
    returns (result: Result<()>)
    requires b.Valid() && |va| == 15
    modifies r`position, b
    ensures b.Valid()
    ensures match List(r.Source(), old(b.contents), old(r.position), p, total, count, list, va)
            case Ok(next) => result == Ok(()) && (b.contents, r.position) == next
            case Err(e) => result == Err(e)
  {
    hide FromBytes, ByteBits, Pow2, CeilLog2, Fixed, ModificationEnd, Positions, EntriesCode;
    if count > 15 {
      return Err(InvalidBuffer);
    }
    SkipModification(r, p, total, count);
    result := WriteEntries(b, total, list, va[..count]);
  }

  method WriteEntries(b: BitWriter, total: nat, list: seq<nat>, va: seq<nat>) returns (result: Result<()>)
    requires b.Valid()
    modifies b
    ensures b.Valid()
    ensures match Positions(list, va)
            case Ok(es) =>
              && result == Ok(())
              && b.contents == if total > 1 then old(b.contents) + ([true] + EntriesCode(es, CeilLog2(total)))
                               else old(b.contents)
            case Err(e) => result == Err(e)
  {
    hide FromBytes, ByteBits, Pow2, CeilLog2, Fixed;
    var bits := NalCeilLog2(total);
    ghost var all := Positions(list, va);
    if total > 1 {
      b.Bit(true);
    }
    ghost var base := b.contents;
    assert va[0..] == va;
    for j := 0 to |va|
      invariant b.Valid()
      invariant var rest := Positions(list, va[j..]);
                if rest.Ok? then
                  && all.Ok?
                  && if total > 1 then b.contents + EntriesCode(rest.value, bits) == base + EntriesCode(all.value, bits)
                     else b.contents == base
                else all == rest
    {
      ghost var was := b.contents;
      assert va[j..][1..] == va[j + 1..];
      var i := FindPosition(list, va[j]);
      if i == |list| {
        return Err(InvalidBuffer);
      }
      ghost var rest := Positions(list, va[j + 1..]);
      if total > 1 {
        b.WriteBits(i, bits);
        if rest.Ok? {
          Associative(was, Fixed(i, bits), EntriesCode(rest.value, bits));
        }
      }
    }
    assert b.contents + [] == b.contents;
    if total > 1 {
      Associative(old(b.contents), [true], EntriesCode(all.value, bits));
    }
    result := Ok(());
  }

  method ReadCounts(r: BitReader, p: VaPicture, sliceType: nat) returns (count0: nat, count1: nat)
    modifies r`position
    ensures (count0, count1, r.position) == ReadActive(r.Source(), old(r.position), p, sliceType)
  {
    hide FromBytes, UeAt;
    count0, count1 := p.default0Minus1 + 1, p.default1Minus1 + 1;
    var override := r.Bit();
    if override {
      var n0 := r.Ue();
      count0 := Add32(n0, 1);
      if sliceType == B_SLICE {
        var n1 := r.Ue();
        count1 := Add32(n1, 1);
      }
    }
  }

  method RewriteLists(r: BitReader, b: BitWriter, copied0: nat, slice: VaSlice, p: VaPicture, refs: References)
    returns (result: Result<nat>)
    requires b.Valid() && VaShaped(slice, p)
    modifies r`position, b
    ensures b.Valid()
    ensures match Lists(r.Source(), Cursor(old(b.contents), copied0, old(r.position)), slice, p, refs)
            case Ok(next) => result.Ok? && Cursor(b.contents, result.value, r.position) == next
            case Err(e) => result == Err(e)
  {
    hide FromBytes, ByteBits, Pow2, CeilLog2, UeAt, HevcRewrite.List, UsedIndices, PicSizeInCtbs, ReadActive, Window;
    var copied := copied0;
    if p.saoEnabled {
      var _ := r.Bit();
      var _ := r.Bit();
    }
    if slice.sliceType != I_SLICE {
      var count0, count1 := ReadCounts(r, p, slice.sliceType);
      var total := refs.TotalCurr();
      if !(total > 0 && total <= 16) {
        return Err(InvalidBuffer);
      }
      CopyTo(r, b, copied, r.position);
      var _ :- RewriteList(r, b, p, total, count0, refs.List(0), slice.list0);
      if slice.sliceType == B_SLICE {
        var _ :- RewriteList(r, b, p, total, count1, refs.List(1), slice.list1);
      }
      copied := r.position;
    }
    result := Ok(copied);
  }

  /** The last one bit before `from`, which is not before `parsed` and at most eight bits before `data`; an error
      if there is no such bit. */
  ghost predicate LastOne(s: seq<bool>, parsed: nat, data: nat, from: nat, r: Result<nat>) {
    match r
    case Ok(a) => parsed <= a < from && data - a <= 8 && BitAt(s, a) && forall j :: a < j < from ==> !BitAt(s, j)
    case Err(e) => e == InvalidBuffer && forall j :: parsed <= j < from && data - j <= 8 ==> !BitAt(s, j)
  }

  lemma {:induction false} LastOneFound(s: seq<bool>, parsed: nat, data: nat, from: nat)
    requires from <= data
    ensures LastOne(s, parsed, data, from, Alignment(s, parsed, data, from))
    decreases from
  {
    hide BitAt;
    if from > parsed && data - from < 8 && !BitAt(s, from - 1) {
      LastOneFound(s, parsed, data, from - 1);
    }
  }

  /** Walks back from the slice data to the one bit of byte_alignment(). */
  method FindAlignment(r: BitReader, data: nat) returns (result: Result<nat>)
    requires r.position <= data
    modifies r`position
    ensures result == Alignment(r.Source(), old(r.position), data, data)
    ensures LastOne(r.Source(), old(r.position), data, data, result)
  {
    hide FromBytes;
    LastOneFound(r.Source(), r.position, data, data);
    var parsed := r.position;
    var alignment := data;
    var found := false;
    while !found
      invariant parsed <= alignment <= data
      invariant Alignment(r.Source(), parsed, data, data)
             == if found then Ok(alignment) else Alignment(r.Source(), parsed, data, alignment)
      decreases alignment, !found
    {
      if !(alignment > parsed && data - alignment < 8) {
        return Err(InvalidBuffer);
      }
      alignment := alignment - 1;
      r.position := alignment;
      found := r.Bit();
    }
    result := Ok(alignment);
  }

  method FinishSlice(r: BitReader, b: BitWriter, copied: nat, slice: VaSlice) returns (result: Result<()>)
    requires b.Valid()
    modifies r`position, b
    ensures b.Valid()
    ensures match Finish(r.Source(), Cursor(old(b.contents), copied, old(r.position)), slice)
            case Ok(bits) => result == Ok(()) && b.contents == bits
            case Err(e) => result == Err(e)
  {
    hide FromBytes, ByteBits, Fixed, Alignment, Window, Padding;
    if slice.dataOffset < 3 {
      return Err(InvalidBuffer);
    }
    var data := (slice.dataOffset - 2) * 8;
    if data > 8 * |r.bytes| || data < r.position {
      return Err(InvalidBuffer);
    }
    var alignment :- FindAlignment(r, data);
    r.position := copied;
    r.Copy(b, alignment);
    b.TrailingBits();
    r.position := data;
    r.Copy(b, 8 * |r.bytes|);
    result := Ok(());
  }

  /** The NAL unit header of a slice of the base layer. */
  predicate SliceHeaderBytes(b0: byte, b1: byte) {
    && b0 < 128                        // forbidden_zero_bit
    && b0 % 2 * 32 + b1 / 8 == 0       // nuh_layer_id
    && b1 % 8 != 0                     // nuh_temporal_id_plus1
    && b0 / 2 % 64 <= 31               // a VCL NAL unit type
  }

  /** The six bits of the type, a zero layer, and a temporal id. */
  lemma BaseLayerSlice(b0: byte, b1: byte)
    ensures SliceHeaderBytes(b0, b1) <==> b0 % 2 == 0 && b0 / 2 <= 31 && 1 <= b1 <= 7
  {
  }

  /** A NAL unit has been appended: its payload is `bits`, padded with zeros to a whole byte. */
  ghost predicate Emitted(out: seq<byte>, stream: seq<byte>, header: seq<byte>, bits: seq<bool>) {
    exists payload: seq<byte> ::
      && FromBytes(payload) == bits + Zeros(Padding(|bits|))
      && out == stream + [0, 0, 0, 1] + header + Escape(payload)
  }

  method RewriteSlice(nal: seq<byte>, slice: VaSlice, p: VaPicture, refs: References, stream: seq<byte>)
    returns (result: Result<seq<byte>>)
    requires VaShaped(slice, p)
    requires |refs.before| < U32 && |refs.after| < U32 && |refs.longTerm| < U32
    ensures if |nal| < 3 || !(nal[0] % 2 == 0 && nal[0] / 2 <= 31 && 1 <= nal[1] <= 7)
            then result == Err(InvalidBuffer)
            else match RewriteBits(FromBytes(Unescape(nal[2..], 0)), nal[0] / 2 % 64, slice, p, refs)
                 case Ok(bits) =>
                   result.Ok? && Emitted(result.value, stream, nal[..2], bits)
                 case Err(e) => result == Err(e)
  {
    if |nal| >= 3 {
      BaseLayerSlice(nal[0], nal[1]);
    }
    if |nal| < 3 || !SliceHeaderBytes(nal[0], nal[1]) {
      return Err(InvalidBuffer);
    }
    hide FromBytes, ByteBits, Preamble, Address, Type, Timing, Lists, Finish, Unescape, Escape, VaShaped,
         HevcSlice.PicSizeInCtbs;
    assert CeilLog2(PicSizeInCtbs(p)) <= 32 && CeilLog2(p.stSets) <= 32 && CeilLog2(p.ltSets) <= 32
           && p.pocLsbMinus4 <= 12;
    var r := new BitReader(nal[2..], 0);
    var b := new BitWriter();
    var nalType := nal[0] / 2 % 64;
    var first, copied := WritePreamble(r, b, nalType);
    var dependent :- ReadAddress(r, b, first, slice, p, copied);
    if !dependent {
      copied :- RewriteType(r, b, copied, slice, p);
      copied :- RewriteTiming(r, b, copied, nalType, p, refs);
      copied :- RewriteLists(r, b, copied, slice, p, refs);
    }
    var _ :- FinishSlice(r, b, copied, slice);
    b.DataBits();
    var out := AppendEscapedNal(stream, nal[..2], b);
    result := Ok(out);
  }

  // ---------------------------------------------------------------- the NAL unit, as a decoder sees it

  lemma FinishIsWhole(s: seq<bool>, bytes: nat, cur: Cursor, slice: VaSlice)
    requires |s| == 8 * bytes && Finish(s, cur, slice).Ok?
    ensures |Finish(s, cur, slice).value| % 8 == 0
  {
    hide Padding, Alignment;
    var data := slice.dataOffset - 2;
    var alignment := Alignment(s, cur.pos, data * 8, data * 8).value;
  }

  lemma RewrittenIsWhole(s: seq<bool>, bytes: nat, nalType: nat, slice: VaSlice, p: VaPicture, refs: References)
    requires |s| == 8 * bytes && VaShaped(slice, p) && RewriteBits(s, nalType, slice, p, refs).Ok?
    ensures Padding(|RewriteBits(s, nalType, slice, p, refs).value|) == 0
  {
    hide Finish, Preamble, Type, Timing, Lists, VaShaped, HevcRewrite.Address, Padding;
    var cur, dependent := HevcRewrite.Address(s, Preamble(s, nalType), slice, p).value.0,
                          HevcRewrite.Address(s, Preamble(s, nalType), slice, p).value.1;
    if !dependent {
      cur := Lists(s, Timing(s, Type(s, cur, slice, p).value, nalType, p, refs).value, slice, p, refs).value;
    }
    assert RewriteBits(s, nalType, slice, p, refs) == Finish(s, cur, slice);
    FinishIsWhole(s, bytes, cur, slice);
  }

  /** Undoing emulation prevention on the emitted NAL unit gives its header and exactly the bits. */
  lemma EmittedReadsBack(out: seq<byte>, header: seq<byte>, bits: seq<bool>)
    requires |header| == 2 && header[1] != 0 && Padding(|bits|) == 0 && Emitted(out, [], header, bits)
    ensures |out| >= 4 && out[..4] == [0, 0, 0, 1]
    ensures FromBytes(Unescape(out[4..], 2)) == FromBytes(header) + bits
  {
    hide FromBytes, Unescape, Escape, Padding;
    var payload: seq<byte> :| FromBytes(payload) == bits + Zeros(Padding(|bits|))
                           && out == [] + [0, 0, 0, 1] + header + Escape(payload);
    assert out[4..] == header + Escape(payload);
    UnescapeAfterHeader(header, Escape(payload), 0);
    HeaderRun(header);
    UnescapeEscape(payload, 0);
    FromBytesConcat(header, payload);
    assert bits + Zeros(0) == bits;
  }

  lemma HeaderRun(header: seq<byte>)
    requires |header| == 2 && header[1] != 0
    ensures RunAfter(header, 0) == 0
  {
    var next := NextZeros(0, header[0]);
    assert header[1..][0] == header[1] && header[1..][1..] == [];
    assert RunAfter(header[1..], next) == RunAfter([], 0);
  }

  /** The slice segment of a NAL unit, as the reader sees it. */
  function SegmentBits(nal: seq<byte>): seq<bool>
    requires |nal| >= 2
  {
    FromBytes(Unescape(nal[2..], 0))
  }

  /** The NAL unit is accepted, and `bits` is what its payload becomes. */
  ghost predicate Accepted(nal: seq<byte>, nalType: nat, slice: VaSlice, p: VaPicture, refs: References,
                           bits: seq<bool>) {
    && |nal| >= 3 && SliceHeaderBytes(nal[0], nal[1]) && nalType == nal[0] / 2 % 64 && VaShaped(slice, p)
    && RewriteBits(SegmentBits(nal), nalType, slice, p, refs) == Ok(bits)
  }

  lemma AcceptedBits(nal: seq<byte>, nalType: nat, slice: VaSlice, p: VaPicture, refs: References, bits: seq<bool>)
    requires Accepted(nal, nalType, slice, p, refs, bits)
    ensures |nal| >= 3 && nal[1] != 0 && VaShaped(slice, p) && Padding(|bits|) == 0
    ensures RewriteBits(SegmentBits(nal), nalType, slice, p, refs) == Ok(bits)
  {
    hide RewriteBits, VaShaped, Padding;
    RewrittenIsWhole(SegmentBits(nal), |Unescape(nal[2..], 0)|, nalType, slice, p, refs);
  }

  /** A NAL unit that carries a slice segment header and is accepted comes out as a NAL unit whose payload is
      parsed, under the generated parameter sets, as the same header (but for the PPS, the forced flags, the
      explicit set and the list modification), the rest of the original header, and the same slice data. */
  lemma RewrittenNal(nal: seq<byte>, nalType: nat, slice: VaSlice, p: VaPicture, refs: References,
                     h: Header, tail: seq<bool>, k: nat, data: seq<bool>, bits: seq<bool>, out: seq<byte>)
    requires Distinct(p.frames, p.poc, |p.frames|) && refs == Collected(p.frames, p.poc)
    requires Accepted(nal, nalType, slice, p, refs, bits) && |nal| >= 3
    requires Carries(SegmentBits(nal), nalType, slice, p, refs, h, tail, k, data)
    requires Emitted(out, [], nal[..2], bits)
    ensures |out| >= 4 && out[..4] == [0, 0, 0, 1] && FromBytes(Unescape(out[4..], 2)) == FromBytes(nal[..2]) + bits
    ensures VaShaped(slice, p) && Writable(Original(p, nalType), h, slice, p, refs)
    ensures ParsesAs(GeneratedFor(p, nalType), bits, Rewritten(Original(p, nalType), h, slice, p, refs), tail, data)
  {
    hide FromBytes, Unescape, RewriteBits, Carries, ParsesAs, Rewritten, Emitted, Collected, VaShaped, Writable,
         Padding,
         Distinct, Accepted, SegmentBits;
    AcceptedBits(nal, nalType, slice, p, refs, bits);
    SliceMeaningPreserved(SegmentBits(nal), nalType, slice, p, h, tail, k, data);
    EmittedReadsBack(out, nal[..2], bits);
  }
}
