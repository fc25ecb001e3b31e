/** Which slice segment headers the rewriter refuses before it looks at VA's references: each check fails exactly for
    the values that it is there for. */
module HevcRejections {
  import opened Bits
  import opened Codes
  import opened BitReading
  import opened Outcome
  import opened HevcRps
  import opened HevcSlice
  import opened HevcRewrite
  import opened HevcRewriteMeaning
  import opened HevcRewriter

  /** A slice segment that is not the first is refused exactly if its address is not VA's. */
  lemma AddressRefused(s: seq<bool>, cur: Cursor, slice: VaSlice, p: VaPicture, nalType: nat, h: Header,
                       rest: seq<bool>)
    requires var c := Original(p, nalType);
             && !h.first && !BitAt(s, 0) && (!c.dependentEnabled ==> !h.dependent) && h.address < Pow2(c.addressBits)
             && Ahead(s, cur.pos, AddressCode(c, h), rest)
    ensures Address(s, cur, slice, p).Ok? <==> slice.address == h.address
    ensures Address(s, cur, slice, p).Err? ==> Address(s, cur, slice, p).status == InvalidBuffer
  {
    var c := Original(p, nalType);
    hide Pow2, PicSizeInCtbs, Fixed, CeilLog2, Ahead;
    var flag, address := Flag(c.dependentEnabled, h.dependent), Fixed(h.address, c.addressBits);
    AheadSplit(s, cur.pos, flag, address, rest);
    if c.dependentEnabled {
      ReadsBit(s, cur.pos, h.dependent, address + rest);
    }
    ReadsBits(s, cur.pos + |flag|, h.address, c.addressBits, rest);
  }

  /** A slice type is refused exactly if there is no such type or it is not VA's. */
  lemma TypeRefused(s: seq<bool>, cur: Cursor, slice: VaSlice, p: VaPicture, sliceType: nat, rest: seq<bool>)
    requires sliceType < U32 - 1 && Ahead(s, cur.pos + p.extraBits, UeCode(sliceType), rest)
    ensures HevcRewrite.Type(s, cur, slice, p).Ok? <==> sliceType <= 2 && sliceType == slice.sliceType
    ensures HevcRewrite.Type(s, cur, slice, p).Err? ==> HevcRewrite.Type(s, cur, slice, p).status == InvalidBuffer
  {
    hide UeCode, UeAt, Ahead;
    ReadsUe(s, cur.pos + p.extraBits, sliceType, rest);
  }

  /** A short-term set is refused exactly if it refers to sets that the stream does not have, is predicted without
      VA saying how long it is, or has more than sixteen entries. */
  lemma ShortTermRefused(s: seq<bool>, pos: nat, p: VaPicture, c: RpsContext, st: StRps, rest: seq<bool>)
    requires c.stSets == p.stSets && Ahead(s, pos, StCode(c, st), rest)
    requires st.Predicted? ==> p.stSets > 0
    requires st.Explicit? ==> |st.negative| + |st.positive| < U32 - 1
    ensures SkipSt(s, pos, p).Ok? <==>
              match st
              case FromSps(_) => p.stSets > 0
              case Predicted(_, _, _, _) => p.stRpsBits > 0
              case Explicit(negative, positive) => |negative| + |positive| <= 16
    ensures SkipSt(s, pos, p).Err? ==> SkipSt(s, pos, p).status == InvalidBuffer
  {
    hide UeCode, UeAt, Pow2, CeilLog2, StEntriesCode, SkipPairs, PredictionFlagsCode, Ahead, PredictedCode;
    match st
    case FromSps(idx) =>
      AheadSplit(s, pos, [true], Fixed(idx, CeilLog2(c.stSets)), rest);
      ReadsBit(s, pos, true, Fixed(idx, CeilLog2(c.stSets)) + rest);
    case Predicted(_, _, _, _) =>
      PredictedStarts(st);
      var tail := PredictedCode(st)[1..];
      AheadSplit(s, pos, [false], PredictedCode(st), rest);
      ReadsBit(s, pos, false, PredictedCode(st) + rest);
      AheadSplit(s, pos + 1, [true], tail, rest);
      ReadsBit(s, pos + 1, true, tail + rest);
    case Explicit(negative, positive) =>
      ExplicitSize(s, pos, p, c, negative, positive, rest);
  }

  lemma PredictedStarts(st: StRps)
    requires st.Predicted?
    ensures |PredictedCode(st)| > 0 && PredictedCode(st) == [true] + PredictedCode(st)[1..]
  {
    hide UeCode, PredictionFlagsCode;
    assert PredictedCode(st)[0];
  }

  /** An explicit set is measured by its two counts. */
  lemma ExplicitSize(s: seq<bool>, pos: nat, p: VaPicture, c: RpsContext, negative: seq<StEntry>,
                     positive: seq<StEntry>, rest: seq<bool>)
    requires c.stSets == p.stSets && |negative| + |positive| < U32 - 1
    requires Ahead(s, pos, StCode(c, Explicit(negative, positive)), rest)
    ensures SkipSt(s, pos, p).Ok? <==> |negative| + |positive| <= 16
    ensures SkipSt(s, pos, p).Err? ==> SkipSt(s, pos, p).status == InvalidBuffer
  {
    hide UeCode, UeAt, StEntriesCode, SkipPairs, Ahead, StCode, CeilLog2;
    var flags := if c.stSets > 0 then [false, false] else [false];
    var n, m := UeCode(|negative|), UeCode(|positive|);
    var es := StEntriesCode(negative) + StEntriesCode(positive);
    ExplicitFlags(c, negative, positive);
    AheadSplit(s, pos, flags, n + (m + es), rest);
    FlagsRead(s, pos, c.stSets > 0, n + (m + es) + rest);
    var start := pos + |flags|;
    AheadSplit(s, start, n, m + es, rest);
    AheadSplit(s, start + |n|, m, es, rest);
    ReadsUe(s, start, |negative|, m + es + rest);
    ReadsUe(s, start + |n|, |positive|, es + rest);
  }

  lemma FlagsRead(s: seq<bool>, pos: nat, two: bool, rest: seq<bool>)
    requires Ahead(s, pos, if two then [false, false] else [false], rest)
    ensures !BitAt(s, pos) && (two ==> !BitAt(s, pos + 1))
  {
    assert !s[pos..][0] && (two ==> !s[pos..][1]);
  }

  /** A long-term section is refused exactly if it refers to more entries of the SPS than there are, or has more than
      sixteen. */
  lemma LongTermRefused(s: seq<bool>, pos: nat, p: VaPicture, c: RpsContext, rps: Rps, rest: seq<bool>)
    requires c.ltSets == p.ltSets && c.longTerm && p.longTermPresent && Ahead(s, pos, LtCode(c, rps), rest)
    requires |rps.ltFromSps| + |rps.lt| < U32 - 1 && (p.ltSets == 0 ==> rps.ltFromSps == [])
    ensures SkipLt(s, pos, p).Ok? <==> |rps.ltFromSps| <= p.ltSets && |rps.ltFromSps| + |rps.lt| <= 16
    ensures SkipLt(s, pos, p).Err? ==> SkipLt(s, pos, p).status == InvalidBuffer
  {
    hide UeCode, UeAt, LtEntriesCode, SkipLtEntries, Ahead, CeilLog2;
    var ns, np, es := UeCode(|rps.ltFromSps|), UeCode(|rps.lt|), LtEntriesCode(c, rps.ltFromSps + rps.lt);
    var start := if c.ltSets > 0 then pos + |ns| else pos;
    if c.ltSets > 0 {
      AheadSplit(s, pos, ns, np + es, rest);
      ReadsUe(s, pos, |rps.ltFromSps|, np + es + rest);
    }
    AheadSplit(s, start, np, es, rest);
    ReadsUe(s, start, |rps.lt|, es + rest);
  }

  /** The end of the header is refused exactly if VA's offset is before what was parsed or beyond the NAL unit, or no
      one bit among the last eight before it is left for byte_alignment( ). */
  lemma EndRefused(s: seq<bool>, cur: Cursor, slice: VaSlice)
    ensures var data := (slice.dataOffset - 2) * 8;
            Finish(s, cur, slice).Ok? <==>
              && slice.dataOffset >= 3 && cur.pos <= data <= |s|
              && exists a :: cur.pos <= a < data && data - a <= 8 && BitAt(s, a)
    ensures Finish(s, cur, slice).Err? ==> Finish(s, cur, slice).status == InvalidBuffer
  {
    hide BitAt, Alignment, Window;
    if slice.dataOffset >= 3 {
      var data: nat := (slice.dataOffset - 2) * 8;
      LastOneFound(s, cur.pos, data, data);
    }
  }
}
