/** What the rewriter does to a conforming slice segment header: the same header under the generated
    parameter sets, with VA's reference graph, and the same slice data. */
module HevcRewriteMeaning {
  import opened Bits
  import opened Codes
  import opened BitIO
  import opened BitReading
  import opened Outcome
  import opened HevcReferences
  import opened HevcRps
  import opened HevcSlice
  import opened HevcSliceParsing
  import opened HevcRewrite

  // ---------------------------------------------------------------- cursors

  /** The output once everything up to the reader's position has been copied. */
  function Effective(s: seq<bool>, cur: Cursor): seq<bool> {
    cur.w + Window(s, cur.copied, cur.pos)
  }

  ghost predicate At(s: seq<bool>, cur: Cursor, out: seq<bool>, rest: seq<bool>) {
    && cur.copied <= cur.pos <= |s|
    && s[cur.pos..] == rest
    && Effective(s, cur) == out
  }

  lemma SkipAt(s: seq<bool>, cur: Cursor, out: seq<bool>, code: seq<bool>, rest: seq<bool>)
    requires At(s, cur, out, code + rest)
    ensures Ahead(s, cur.pos, code, rest)
    ensures At(s, cur.Skip(|code|), out + code, rest)
  {
    assert s[cur.copied..cur.pos + |code|] == s[cur.copied..cur.pos] + code;
    Associative(cur.w, s[cur.copied..cur.pos], code);
  }

  lemma CopiedAt(s: seq<bool>, cur: Cursor, out: seq<bool>, rest: seq<bool>)
    requires At(s, cur, out, rest)
    ensures At(s, cur.Copied(s), out, rest) && cur.Copied(s).w == out
  {
    assert out + [] == out;
  }

  /** Syntax that is read and replaced by something else. */
  lemma ReplaceAt(s: seq<bool>, out: seq<bool>, pos: nat, old_: seq<bool>, new_: seq<bool>, rest: seq<bool>)
    requires Ahead(s, pos, old_, rest)
    ensures At(s, Cursor(out + new_, pos + |old_|, pos + |old_|), out + new_, rest)
  {
    assert (out + new_) + [] == out + new_;
  }

  lemma AheadSplit(s: seq<bool>, p: nat, a: seq<bool>, b: seq<bool>, rest: seq<bool>)
    requires Ahead(s, p, a + b, rest)
    ensures Ahead(s, p, a, b + rest)
    ensures Ahead(s, p + |a|, b, rest)
  {
    Associative(a, b, rest);
  }

  // ---------------------------------------------------------------- first flag to address

  lemma PreambleAt(s: seq<bool>, p: VaPicture, nalType: nat, h: Header, rest: seq<bool>)
    requires h.ppsId < U32 - 1 && (!Original(p, nalType).irap ==> !h.noOutputOfPriorPics)
    requires s == [h.first] + (Flag(Original(p, nalType).irap, h.noOutputOfPriorPics) + (UeCode(h.ppsId) + rest))
    ensures BitAt(s, 0) == h.first
    ensures At(s, Preamble(s, nalType), [h.first] + (Flag(Original(p, nalType).irap, false) + UeCode(0)), rest)
  {
    var irap := 16 <= nalType <= 23;
    var pos := if irap then 2 else 1;
    var w := if irap then [h.first] + [false] else [h.first];
    hide UeCode, UeAt;
    assert s[pos..] == UeCode(h.ppsId) + rest;
    ReadsUe(s, pos, h.ppsId, rest);
    ReplaceAt(s, w, pos, UeCode(h.ppsId), UeCode(0), rest);
    if irap {
      Associative([h.first], [false], UeCode(0));
    } else {
      assert [] + UeCode(0) == UeCode(0);
    }
  }

  lemma AddressAt(s: seq<bool>, cur: Cursor, slice: VaSlice, p: VaPicture, nalType: nat, h: Header,
                  out: seq<bool>, rest: seq<bool>)
    requires var c := Original(p, nalType);
             && (h.first ==> !h.dependent && h.address == 0) && (!c.dependentEnabled ==> !h.dependent)
             && h.address < Pow2(c.addressBits)
             && At(s, cur, out, AddressCode(c, h) + rest)
    requires BitAt(s, 0) == h.first && (!h.first ==> slice.address == h.address)
    ensures Address(s, cur, slice, p).Ok?
    ensures var (next, dependent) := Address(s, cur, slice, p).value;
            dependent == h.dependent && At(s, next, out + AddressCode(Original(p, nalType), h), rest)
  {
    var c := Original(p, nalType);
    hide Pow2, PicSizeInCtbs, Fixed, CeilLog2;
    if h.first {
      assert [] + rest == rest && out + [] == out;
    } else {
      var flag, address := Flag(c.dependentEnabled, h.dependent), Fixed(h.address, c.addressBits);
      Associative(flag, address, rest);
      SkipAt(s, cur, out, flag, address + rest);
      var after := cur.Skip(|flag|);
      SkipAt(s, after, out + flag, address, rest);
      if c.dependentEnabled {
        ReadsBit(s, cur.pos, h.dependent, address + rest);
      }
      ReadsBits(s, after.pos, h.address, c.addressBits, rest);
      Associative(out, flag, address);
    }
  }

  // ---------------------------------------------------------------- slice type and output flag

  lemma TypeAt(s: seq<bool>, cur: Cursor, slice: VaSlice, p: VaPicture, nalType: nat, b: Body,
               out: seq<bool>, rest: seq<bool>)
    requires var c := Original(p, nalType);
             && |b.reserved| == c.extraBits && b.sliceType <= 2 && (!c.outputFlagPresent ==> b.picOutput)
             && At(s, cur, out, TypeCode(c, b) + rest)
    requires slice.sliceType == b.sliceType && !p.separatePlanes
    ensures Type(s, cur, slice, p).Ok?
    ensures At(s, Type(s, cur, slice, p).value, out + TypeCode(Original(p, nalType), b.(picOutput := true)), rest)
  {
    hide UeCode, UeAt, Ahead, At, Effective, CeilLog2, PicSizeInCtbs;
    var c := Original(p, nalType);
    var code, flag := UeCode(b.sliceType), Flag(c.outputFlagPresent, b.picOutput);
    Peel3(b.reserved, code, flag, rest);
    SkipAt(s, cur, out, b.reserved, code + (flag + rest));
    var c1 := cur.Skip(p.extraBits);
    SkipAt(s, c1, out + b.reserved, code, flag + rest);
    ReadsUe(s, c1.pos, b.sliceType, flag + rest);
    var c2 := c1.Skip(|code|);
    var w := out + b.reserved + code;
    if p.outputFlagPresent {
      CopiedAt(s, c2, w, flag + rest);
      ReplaceAt(s, w, c2.pos, flag, [true], rest);
      LeftNest(out, b.reserved, code, [true]);
    } else {
      assert [] + rest == rest && code + [] == code;
      Associative(out, b.reserved, code);
    }
  }

  // ---------------------------------------------------------------- reference picture sets

  lemma {:induction false} StEntriesConcat(a: seq<StEntry>, b: seq<StEntry>)
    ensures StEntriesCode(a + b) == StEntriesCode(a) + StEntriesCode(b)
  {
    if a == [] {
      assert a + b == b;
    } else {
      assert (a + b)[1..] == a[1..] + b;
      StEntriesConcat(a[1..], b);
      hide UeCode;
    }
  }

  lemma PairsUnfold(s: seq<bool>, pos: nat, es: seq<StEntry>)
    ensures es == [] ==> StEntriesCode(es) == [] && SkipPairs(s, pos, |es|) == pos
    ensures es != [] ==>
      && StEntriesCode(es) == UeCode(es[0].delta) + ([es[0].used] + StEntriesCode(es[1..]))
      && SkipPairs(s, pos, |es|) == SkipPairs(s, UeAt(s, pos).1 + 1, |es| - 1)
  {
    hide UeCode, UeAt;
  }

  lemma {:induction false} SkipsPairs(s: seq<bool>, pos: nat, es: seq<StEntry>, rest: seq<bool>)
    requires SmallEntries(es) && Ahead(s, pos, StEntriesCode(es), rest)
    ensures SkipPairs(s, pos, |es|) == pos + |StEntriesCode(es)|
    decreases |es|
  {
    hide UeCode, UeAt, StEntriesCode, SkipPairs, Ahead;
    PairsUnfold(s, pos, es);
    if es != [] {
      var code, tail := UeCode(es[0].delta), StEntriesCode(es[1..]);
      AheadSplit(s, pos, code, [es[0].used] + tail, rest);
      AheadSplit(s, pos + |code|, [es[0].used], tail, rest);
      ReadsUe(s, pos, es[0].delta, [es[0].used] + tail + rest);
      SkipsPairs(s, pos + |code| + 1, es[1..], rest);
    }
  }

  /** The original st_ref_pic_set( ) is skipped exactly. */
  lemma SkipsSt(s: seq<bool>, pos: nat, p: VaPicture, c: RpsContext, rps: Rps, rest: seq<bool>)
    requires c.stSets == p.stSets && ConformingRps(c, rps) && Ahead(s, pos, StCode(c, rps.st), rest)
    requires rps.st.Predicted? ==> p.stRpsBits == |PredictedCode(rps.st)|
    ensures SkipSt(s, pos, p) == Ok(pos + |StCode(c, rps.st)|)
  {
    hide UeCode, UeAt, Pow2, CeilLog2, StEntriesCode, SkipPairs, PredictionFlagsCode, Ahead;
    match rps.st
    case FromSps(idx) =>
      AheadSplit(s, pos, [true], Fixed(idx, CeilLog2(c.stSets)), rest);
      ReadsBit(s, pos, true, Fixed(idx, CeilLog2(c.stSets)) + rest);
    case Predicted(_, _, _, _) =>
      AheadSplit(s, pos, [false], PredictedCode(rps.st), rest);
      ReadsBit(s, pos, false, PredictedCode(rps.st) + rest);
    case Explicit(negative, positive) =>
      SkipsExplicit(s, pos, p, c, negative, positive, rest);
  }

  lemma ExplicitFlags(c: RpsContext, negative: seq<StEntry>, positive: seq<StEntry>)
    ensures StCode(c, Explicit(negative, positive))
         == (if c.stSets > 0 then [false, false] else [false]) + ExplicitCode(negative, positive)
  {
    hide ExplicitCode;
  }

  lemma SmallConcat(a: seq<StEntry>, b: seq<StEntry>)
    requires SmallEntries(a) && SmallEntries(b)
    ensures SmallEntries(a + b)
  {
  }

  lemma SkipsExplicit(s: seq<bool>, pos: nat, p: VaPicture, c: RpsContext, negative: seq<StEntry>,
                      positive: seq<StEntry>, rest: seq<bool>)
    requires c.stSets == p.stSets && |negative| + |positive| <= 16 && SmallEntries(negative) && SmallEntries(positive)
    requires Ahead(s, pos, StCode(c, Explicit(negative, positive)), rest)
    ensures SkipSt(s, pos, p) == Ok(pos + |StCode(c, Explicit(negative, positive))|)
  {
    hide UeCode, UeAt, StEntriesCode, SkipPairs, Ahead, StCode, SmallEntries;
    var flags := if c.stSets > 0 then [false, false] else [false];
    var code := ExplicitCode(negative, positive);
    ExplicitFlags(c, negative, positive);
    AheadSplit(s, pos, flags, code, rest);
    var start := pos + |flags|;
    var n, m := UeCode(|negative|), UeCode(|positive|);
    var es := StEntriesCode(negative) + StEntriesCode(positive);
    AheadSplit(s, start, n, m + es, rest);
    AheadSplit(s, start + |n|, m, es, rest);
    ReadsUe(s, start, |negative|, m + es + rest);
    ReadsUe(s, start + |n|, |positive|, es + rest);
    StEntriesConcat(negative, positive);
    SmallConcat(negative, positive);
    SkipsPairs(s, start + |n| + |m|, negative + positive, rest);
  }

  lemma SkipsMsb(s: seq<bool>, pos: nat, m: Msb, rest: seq<bool>)
    requires SmallMsb(m) && Ahead(s, pos, MsbCode(m), rest)
    ensures SkipMsb(s, pos) == pos + |MsbCode(m)|
  {
    hide UeCode, UeAt, Ahead;
    match m
    case NoMsb =>
      ReadsBit(s, pos, false, rest);
    case Msb(cycle) =>
      AheadSplit(s, pos, [true], UeCode(cycle), rest);
      ReadsBit(s, pos, true, UeCode(cycle) + rest);
      ReadsUe(s, pos + 1, cycle, rest);
  }

  lemma SkipsLtEntry(s: seq<bool>, pos: nat, p: VaPicture, c: RpsContext, e: LtEntry, rest: seq<bool>)
    requires c.ltSets == p.ltSets && c.pocBits == p.pocLsbMinus4 + 4 && SmallMsb(e.msb)
    requires Ahead(s, pos, LtEntryCode(c, e), rest)
    ensures SkipMsb(s, if e.LtFromSps? then pos + CeilLog2(p.ltSets) else pos + p.pocLsbMinus4 + 4 + 1)
         == pos + |LtEntryCode(c, e)|
  {
    hide Fixed, CeilLog2, MsbCode, SkipMsb, Ahead;
    var fixed := if e.LtFromSps? then Fixed(e.idx, CeilLog2(c.ltSets)) else Fixed(e.lsb, c.pocBits) + [e.used];
    if e.LtExplicit? {
      Associative(Fixed(e.lsb, c.pocBits), [e.used], MsbCode(e.msb));
    }
    AheadSplit(s, pos, fixed, MsbCode(e.msb), rest);
    SkipsMsb(s, pos + |fixed|, e.msb, rest);
  }

  lemma LtUnfold(s: seq<bool>, pos: nat, p: VaPicture, c: RpsContext, es: seq<LtEntry>, n: nat)
    requires n <= |es| && SmallLt(c, es)
    ensures es == [] ==> LtEntriesCode(c, es) == [] && SkipLtEntries(s, pos, p, n, |es| - n) == pos
    ensures es != [] ==>
      && SmallMsb(es[0].msb) && SmallLt(c, es[1..])
      && LtEntriesCode(c, es) == LtEntryCode(c, es[0]) + LtEntriesCode(c, es[1..])
      && SkipLtEntries(s, pos, p, n, |es| - n)
      == SkipLtEntries(s, SkipMsb(s, if n > 0 then pos + CeilLog2(p.ltSets) else pos + p.pocLsbMinus4 + 4 + 1),
                       p, if n > 0 then n - 1 else 0, if n > 0 then |es| - n else |es| - 1)
  {
    hide CeilLog2, LtEntryCode, Pow2, SkipMsb, SmallMsb;
  }

  lemma {:induction false} SkipsLtEntries(s: seq<bool>, pos: nat, p: VaPicture, c: RpsContext, es: seq<LtEntry>,
                                          n: nat, rest: seq<bool>)
    requires c.ltSets == p.ltSets && c.pocBits == p.pocLsbMinus4 + 4 && n <= |es| && SmallLt(c, es)
    requires forall i :: 0 <= i < |es| ==> (es[i].LtFromSps? <==> i < n)
    requires Ahead(s, pos, LtEntriesCode(c, es), rest)
    ensures SkipLtEntries(s, pos, p, n, |es| - n) == pos + |LtEntriesCode(c, es)|
    decreases |es|
  {
    hide CeilLog2, LtEntryCode, Pow2, SkipMsb, Ahead, SkipLtEntries, LtEntriesCode, SmallLt, SmallMsb;
    LtUnfold(s, pos, p, c, es, n);
    if es != [] {
      var tail := LtEntriesCode(c, es[1..]);
      AheadSplit(s, pos, LtEntryCode(c, es[0]), tail, rest);
      SkipsLtEntry(s, pos, p, c, es[0], tail + rest);
      SkipsLtEntries(s, pos + |LtEntryCode(c, es[0])|, p, c, es[1..], if n > 0 then n - 1 else 0, rest);
    }
  }

  lemma ConformingLt(c: RpsContext, rps: Rps)
    requires ConformingRps(c, rps)
    ensures var all := rps.ltFromSps + rps.lt;
            && SmallLt(c, all) && |all| <= 16 && |rps.ltFromSps| <= c.ltSets
            && forall i :: 0 <= i < |all| ==> (all[i].LtFromSps? <==> i < |rps.ltFromSps|)
  {
    hide Pow2, CeilLog2;
  }

  /** The original long-term section is skipped exactly. */
  lemma SkipsLt(s: seq<bool>, pos: nat, p: VaPicture, c: RpsContext, rps: Rps, rest: seq<bool>)
    requires c.ltSets == p.ltSets && c.pocBits == p.pocLsbMinus4 + 4 && c.longTerm == p.longTermPresent
    requires ConformingRps(c, rps) && Ahead(s, pos, LtCode(c, rps), rest)
    ensures SkipLt(s, pos, p) == Ok(pos + |LtCode(c, rps)|)
  {
    hide UeCode, UeAt, LtEntriesCode, SkipLtEntries, ConformingRps, SmallLt, Ahead;
    var all := rps.ltFromSps + rps.lt;
    ConformingLt(c, rps);
    if c.longTerm {
      var ns, np, es := UeCode(|rps.ltFromSps|), UeCode(|rps.lt|), LtEntriesCode(c, all);
      var start := if c.ltSets > 0 then pos + |ns| else pos;
      if c.ltSets > 0 {
        AheadSplit(s, pos, ns, np + es, rest);
        ReadsUe(s, pos, |rps.ltFromSps|, np + es + rest);
      }
      SkipsExplicitLt(s, start, p, c, all, |rps.ltFromSps|, rest);
    }
  }

  lemma SkipsExplicitLt(s: seq<bool>, start: nat, p: VaPicture, c: RpsContext, all: seq<LtEntry>, n: nat,
                        rest: seq<bool>)
    requires c.ltSets == p.ltSets && c.pocBits == p.pocLsbMinus4 + 4 && n <= |all| <= 16 && SmallLt(c, all)
    requires forall i :: 0 <= i < |all| ==> (all[i].LtFromSps? <==> i < n)
    requires Ahead(s, start, UeCode(|all| - n) + LtEntriesCode(c, all), rest)
    ensures UeAt(s, start).0 == |all| - n
    ensures SkipLtEntries(s, UeAt(s, start).1, p, n, |all| - n)
         == start + |UeCode(|all| - n) + LtEntriesCode(c, all)|
  {
    hide UeCode, UeAt, LtEntriesCode, SkipLtEntries, SmallLt, Ahead;
    AheadSplit(s, start, UeCode(|all| - n), LtEntriesCode(c, all), rest);
    ReadsUe(s, start, |all| - n, LtEntriesCode(c, all) + rest);
    SkipsLtEntries(s, start + |UeCode(|all| - n)|, p, c, all, n, rest);
  }

  lemma TimingAt(s: seq<bool>, cur: Cursor, p: VaPicture, nalType: nat, refs: References, b: Body,
                 out: seq<bool>, rest: seq<bool>)
    requires var c := Original(p, nalType);
             && b.pocLsb < Pow2(c.rps.pocBits) && (!c.idr ==> ConformingRps(c.rps, b.rps)) && (!c.tmvp ==> !b.tmvp)
             && At(s, cur, out, TimingCode(c, b) + rest)
    requires b.rps.st.Predicted? ==> p.stRpsBits == |PredictedCode(b.rps.st)|
    ensures var written := WrittenRps(refs, p.poc, p.longTermPresent, p.pocLsbMinus4 + 4);
            var r := Timing(s, cur, nalType, p, refs);
            if Original(p, nalType).idr then r == Ok(cur)
                && At(s, cur, out + TimingCode(GeneratedFor(p, nalType), b), rest)
            else if written.Ok? then
              r.Ok? && At(s, r.value, out + TimingCode(GeneratedFor(p, nalType), b.(rps := written.value)), rest)
            else r == Err(written.status)
  {
    var c := Original(p, nalType);
    hide Pow2, Fixed, StCode, LtCode, WrittenRps, SkipSt, SkipLt, PicSizeInCtbs, CeilLog2, ConformingRps, Effective;
    if c.idr {
      assert [] + rest == rest && out + [] == out;
    } else {
      var lsb, st, lt := Fixed(b.pocLsb, c.rps.pocBits), StCode(c.rps, b.rps.st), LtCode(c.rps, b.rps);
      var flag := Flag(c.tmvp, b.tmvp);
      Peel3(lsb, RpsCode(c.rps, b.rps), flag, rest);
      SkipAt(s, cur, out, lsb, RpsCode(c.rps, b.rps) + (flag + rest));
      var c1 := cur.Skip(p.pocLsbMinus4 + 4);
      CopiedAt(s, c1, out + lsb, RpsCode(c.rps, b.rps) + (flag + rest));
      AheadSplit(s, c1.pos, st, lt, flag + rest);
      SkipsSt(s, c1.pos, p, c.rps, b.rps, lt + (flag + rest));
      SkipsLt(s, c1.pos + |st|, p, c.rps, b.rps, flag + rest);
      var written := WrittenRps(refs, p.poc, p.longTermPresent, p.pocLsbMinus4 + 4);
      if written.Ok? {
        TimingWritten(s, c1.pos, p, nalType, b, written.value, out, rest);
      }
    }
  }

  lemma TimingWritten(s: seq<bool>, pos: nat, p: VaPicture, nalType: nat, b: Body, rps: Rps,
                      out: seq<bool>, rest: seq<bool>)
    requires var c := Original(p, nalType); !c.idr && Ahead(s, pos, RpsCode(c.rps, b.rps), Flag(c.tmvp, b.tmvp) + rest)
    ensures var c, g := Original(p, nalType), GeneratedFor(p, nalType);
            var end := pos + |RpsCode(c.rps, b.rps)|;
            var w := (out + Fixed(b.pocLsb, c.rps.pocBits)) + RpsCode(g.rps, rps);
            At(s, Cursor(w, end, if p.tmvpEnabled then end + 1 else end), out + TimingCode(g, b.(rps := rps)), rest)
  {
    hide Fixed, RpsCode, PicSizeInCtbs, CeilLog2, Ahead, At;
    var c, g := Original(p, nalType), GeneratedFor(p, nalType);
    var lsb, new_, flag := Fixed(b.pocLsb, c.rps.pocBits), RpsCode(g.rps, rps), Flag(c.tmvp, b.tmvp);
    var end := pos + |RpsCode(c.rps, b.rps)|;
    var w := out + lsb + new_;
    ReplaceAt(s, out + lsb, pos, RpsCode(c.rps, b.rps), new_, flag + rest);
    SkipAt(s, Cursor(w, end, end), w, flag, rest);
    LeftNest(out, lsb, new_, flag);
    assert TimingCode(g, b.(rps := rps)) == lsb + (new_ + flag);
  }

  // ---------------------------------------------------------------- list modification

  lemma {:induction false} EntriesLength(es: seq<nat>, bits: nat)
    ensures |EntriesCode(es, bits)| == |es| * bits
  {
    hide Fixed;
    if es != [] {
      EntriesLength(es[1..], bits);
      assert |es| * bits == bits + (|es| - 1) * bits;
    }
  }

  /** The modification that carries VA's list; with a single picture there is nothing to choose. */
  function WrittenMod(total: nat, es: seq<nat>): Modification {
    if total > 1 then Entries(es) else Initial
  }

  lemma ListAt(s: seq<bool>, w: seq<bool>, pos: nat, p: VaPicture, nalType: nat, total: nat, m: Modification,
               count: nat, list: seq<nat>, va: seq<nat>, rest: seq<bool>)
    requires |va| == 15
    requires var c := Original(p, nalType);
             ConformingMod(c, m, total, count, true) && Ahead(s, pos, ModCode(c, total, m), rest)
    ensures var c, g := Original(p, nalType), GeneratedFor(p, nalType);
            var r := List(s, w, pos, p, total, count, list, va);
            if count <= 15 && Positions(list, va[..count]).Ok? then
              r == Ok((w + ModCode(g, total, WrittenMod(total, Positions(list, va[..count]).value)),
                       pos + |ModCode(c, total, m)|))
            else r == Err(InvalidBuffer)
  {
    hide EntriesCode, CeilLog2, PicSizeInCtbs, Pow2, Ahead, Positions;
    PositionsStatus(list, va[..if count <= 15 then count else 0]);
    assert w + [] == w;
    if p.modificationPresent && total > 1 {
      match m
      case Initial =>
        ReadsBit(s, pos, false, rest);
      case Entries(es) =>
        AheadSplit(s, pos, [true], EntriesCode(es, CeilLog2(total)), rest);
        ReadsBit(s, pos, true, EntriesCode(es, CeilLog2(total)) + rest);
        EntriesLength(es, CeilLog2(total));
    }
  }

  lemma {:induction false} PositionsStatus(list: seq<nat>, va: seq<nat>)
    ensures Positions(list, va).Err? ==> Positions(list, va).status == InvalidBuffer
    ensures Positions(list, va).Ok? <==> forall x :: x in va ==> x in list
    ensures Positions(list, va).Ok? ==> var es := Positions(list, va).value;
              |es| == |va| && forall j :: 0 <= j < |va| ==> es[j] < |list| && list[es[j]] == va[j]
  {
    if va != [] {
      PositionsStatus(list, va[1..]);
      assert va == [va[0]] + va[1..];
    }
  }

  lemma CountsAt(s: seq<bool>, pos: nat, p: VaPicture, nalType: nat, b: Body, rest: seq<bool>)
    requires ConformingCounts(b) && b.sliceType != I_SLICE && Ahead(s, pos, CountsCode(b), rest)
    ensures var c := Original(p, nalType);
            var (n0, n1, next) := ReadActive(s, pos, p, b.sliceType);
            && n0 == Active(c, b.counts, 0) && (b.sliceType == B_SLICE ==> n1 == Active(c, b.counts, 1))
            && next == pos + |CountsCode(b)|
  {
    hide UeCode, UeAt, Ahead, CeilLog2, PicSizeInCtbs;
    match b.counts
    case Inherited =>
      ReadsBit(s, pos, false, rest);
    case Override(minus0, minus1) =>
      var tail := if b.sliceType == B_SLICE then UeCode(minus0) + UeCode(minus1) else UeCode(minus0);
      AheadSplit(s, pos, [true], tail, rest);
      ReadsBit(s, pos, true, tail + rest);
      if b.sliceType == B_SLICE {
        AheadSplit(s, pos + 1, UeCode(minus0), UeCode(minus1), rest);
        ReadsUe(s, pos + 1, minus0, UeCode(minus1) + rest);
        ReadsUe(s, pos + 1 + |UeCode(minus0)|, minus1, rest);
      } else {
        ReadsUe(s, pos + 1, minus0, rest);
      }
  }

  /** VA's first `n` entries of list `l` as positions in the initial list. */
  function VaPositions(slice: VaSlice, refs: References, l: nat, n: nat): Result<seq<nat>>
    requires n <= |slice.RefPicList(l)|
  {
    Positions(refs.List(l), slice.RefPicList(l)[..n])
  }

  ghost predicate ListWritable(c: Context, b: Body, slice: VaSlice, p: VaPicture, refs: References, l: nat)
    requires VaShaped(slice, p)
  {
    var n := Active(c, b.counts, l);
    n <= 15 && VaPositions(slice, refs, l, n).Ok?
  }

  ghost predicate ListsWritable(c: Context, b: Body, slice: VaSlice, p: VaPicture, refs: References)
    requires VaShaped(slice, p)
  {
    b.sliceType != I_SLICE ==>
      && 0 < refs.TotalCurr() <= 16
      && ListWritable(c, b, slice, p, refs, 0)
      && (b.sliceType == B_SLICE ==> ListWritable(c, b, slice, p, refs, 1))
  }

  function ListMod(c: Context, b: Body, slice: VaSlice, p: VaPicture, refs: References, l: nat): Modification
    requires VaShaped(slice, p) && ListWritable(c, b, slice, p, refs, l)
  {
    WrittenMod(refs.TotalCurr(), VaPositions(slice, refs, l, Active(c, b.counts, l)).value)
  }

  function WithLists(c: Context, b: Body, slice: VaSlice, p: VaPicture, refs: References): Body
    requires VaShaped(slice, p) && ListsWritable(c, b, slice, p, refs)
  {
    if b.sliceType == I_SLICE then b
    else
      b.(mod0 := ListMod(c, b, slice, p, refs, 0),
         mod1 := if b.sliceType == B_SLICE then ListMod(c, b, slice, p, refs, 1) else Initial)
  }

  /** The lists alone, from the position after the active counts. */
  lemma ModsAt(s: seq<bool>, w: seq<bool>, pos: nat, slice: VaSlice, p: VaPicture, nalType: nat, refs: References,
               b: Body, rest: seq<bool>)
    requires VaShaped(slice, p) && b.sliceType != I_SLICE
    requires var c, total := Original(p, nalType), refs.TotalCurr();
             && ConformingMod(c, b.mod0, total, Active(c, b.counts, 0), true)
             && ConformingMod(c, b.mod1, total, Active(c, b.counts, 1), b.sliceType == B_SLICE)
             && Ahead(s, pos, ModsCode(c, b, total), rest)
    ensures var c, g, total := Original(p, nalType), GeneratedFor(p, nalType), refs.TotalCurr();
            var end := pos + |ModsCode(c, b, total)|;
            var ok0, ok1 := ListWritable(c, b, slice, p, refs, 0), ListWritable(c, b, slice, p, refs, 1);
            var r0 := List(s, w, pos, p, total, Active(c, b.counts, 0), refs.List(0), slice.list0);
            && (r0.Ok? <==> ok0) && (r0.Err? ==> r0.status == InvalidBuffer)
            && (ok0 && b.sliceType != B_SLICE ==>
                  r0.value == (w + ModCode(g, total, ListMod(c, b, slice, p, refs, 0)), end))
            && (ok0 && b.sliceType == B_SLICE ==>
                  var (w1, next) := r0.value;
                  var r1 := List(s, w1, next, p, total, Active(c, b.counts, 1), refs.List(1), slice.list1);
                  && w1 == w + ModCode(g, total, ListMod(c, b, slice, p, refs, 0))
                  && (r1.Ok? <==> ok1) && (r1.Err? ==> r1.status == InvalidBuffer)
                  && (ok1 ==> r1.value == (w1 + ModCode(g, total, ListMod(c, b, slice, p, refs, 1)), end)))
  {
    hide ModCode, List, Positions, PicSizeInCtbs, CeilLog2, Ahead, ConformingMod, UsedIndices;
    var c, g, total := Original(p, nalType), GeneratedFor(p, nalType), refs.TotalCurr();
    var n0, n1 := Active(c, b.counts, 0), Active(c, b.counts, 1);
    var m0, m1 := ModCode(c, total, b.mod0), ModCode(c, total, b.mod1);
    if b.sliceType == B_SLICE {
      AheadSplit(s, pos, m0, m1, rest);
    }
    ListAt(s, w, pos, p, nalType, total, b.mod0, n0, refs.List(0), slice.list0,
           if b.sliceType == B_SLICE then m1 + rest else rest);
    if b.sliceType == B_SLICE && ListWritable(c, b, slice, p, refs, 0) {
      ListAt(s, w + ModCode(g, total, ListMod(c, b, slice, p, refs, 0)), pos + |m0|, p, nalType, total, b.mod1, n1,
             refs.List(1), slice.list1, rest);
    }
  }

  lemma ListsAt(s: seq<bool>, cur: Cursor, slice: VaSlice, p: VaPicture, nalType: nat, refs: References, b: Body,
                out: seq<bool>, rest: seq<bool>)
    requires VaShaped(slice, p) && slice.sliceType == b.sliceType && ConformingCounts(b)
    requires var c, total := Original(p, nalType), refs.TotalCurr();
             && (b.sliceType != I_SLICE ==>
                   && ConformingMod(c, b.mod0, total, Active(c, b.counts, 0), true)
                   && ConformingMod(c, b.mod1, total, Active(c, b.counts, 1), b.sliceType == B_SLICE))
             && At(s, cur, out, SaoCode(c, b) + (ListsCode(c, b, total) + rest))
    ensures var c, g, total := Original(p, nalType), GeneratedFor(p, nalType), refs.TotalCurr();
            var r := Lists(s, cur, slice, p, refs);
            && (r.Ok? <==> ListsWritable(c, b, slice, p, refs))
            && (r.Err? ==> r.status == InvalidBuffer)
            && (r.Ok? ==> At(s, r.value,
                             out + SaoCode(c, b) + ListsCode(g, WithLists(c, b, slice, p, refs), total), rest))
  {
    hide ModCode, ModsCode, List, Positions, PicSizeInCtbs, CeilLog2, Ahead, CountsCode, ReadActive, At,
         ConformingMod, ConformingCounts, UsedIndices, ListMod;
    var c, g, total := Original(p, nalType), GeneratedFor(p, nalType), refs.TotalCurr();
    SkipAt(s, cur, out, SaoCode(c, b), ListsCode(c, b, total) + rest);
    var cur := cur.Skip(|SaoCode(c, b)|);
    var out := out + SaoCode(c, b);
    if b.sliceType == I_SLICE {
      assert [] + rest == rest && out + [] == out;
    } else {
      Associative(CountsCode(b), ModsCode(c, b, total), rest);
      SkipAt(s, cur, out, CountsCode(b), ModsCode(c, b, total) + rest);
      CountsAt(s, cur.pos, p, nalType, b, ModsCode(c, b, total) + rest);
      var c1, w := cur.Skip(|CountsCode(b)|), out + CountsCode(b);
      CopiedAt(s, c1, w, ModsCode(c, b, total) + rest);
      AtAhead(s, c1, w, ModsCode(c, b, total), rest);
      ModsAt(s, w, c1.pos, slice, p, nalType, refs, b, rest);
      if ListsWritable(c, b, slice, p, refs) {
        ListsWritten(s, c1.pos, slice, p, nalType, refs, b, out, rest);
      }
    }
  }

  lemma AtAhead(s: seq<bool>, cur: Cursor, out: seq<bool>, code: seq<bool>, rest: seq<bool>)
    requires At(s, cur, out, code + rest)
    ensures Ahead(s, cur.pos, code, rest)
  {
  }

  lemma ListsWritten(s: seq<bool>, pos: nat, slice: VaSlice, p: VaPicture, nalType: nat, refs: References, b: Body,
                     out: seq<bool>, rest: seq<bool>)
    requires VaShaped(slice, p) && b.sliceType != I_SLICE
    requires var c := Original(p, nalType);
             ListsWritable(c, b, slice, p, refs) && Ahead(s, pos, ModsCode(c, b, refs.TotalCurr()), rest)
    ensures var c, g, total := Original(p, nalType), GeneratedFor(p, nalType), refs.TotalCurr();
            var end := pos + |ModsCode(c, b, total)|;
            var w0 := out + CountsCode(b) + ModCode(g, total, ListMod(c, b, slice, p, refs, 0));
            var w := if b.sliceType == B_SLICE then w0 + ModCode(g, total, ListMod(c, b, slice, p, refs, 1)) else w0;
            At(s, Cursor(w, end, end), out + ListsCode(g, WithLists(c, b, slice, p, refs), total), rest)
  {
    hide ModCode, PicSizeInCtbs, CeilLog2, Ahead, CountsCode, UsedIndices, ListMod, Positions;
    var c, g, total := Original(p, nalType), GeneratedFor(p, nalType), refs.TotalCurr();
    var mods := ModsCode(g, WithLists(c, b, slice, p, refs), total);
    assert CountsCode(WithLists(c, b, slice, p, refs)) == CountsCode(b) by {
      SameCounts(b, WithLists(c, b, slice, p, refs));
    }
    ReplaceAt(s, out + CountsCode(b), pos, ModsCode(c, b, total), mods, rest);
    Associative(out, CountsCode(b), mods);
    if b.sliceType == B_SLICE {
      Associative(out + CountsCode(b), ModCode(g, total, ListMod(c, b, slice, p, refs, 0)),
                  ModCode(g, total, ListMod(c, b, slice, p, refs, 1)));
    }
  }

  lemma SameCounts(a: Body, b: Body)
    requires a.counts == b.counts && a.sliceType == b.sliceType
    ensures CountsCode(a) == CountsCode(b)
  {
  }

  // ---------------------------------------------------------------- the end of the header

  lemma {:induction false} AlignmentAt(s: seq<bool>, parsed: nat, data: nat, k: nat, j: nat)
    requires j <= k < 8 && parsed < data - k <= data <= |s|
    requires s[data - 1 - k] && forall i :: data - k <= i < data ==> !s[i]
    ensures Alignment(s, parsed, data, data - j) == Ok(data - 1 - k)
    decreases k - j
  {
    if j < k {
      AlignmentAt(s, parsed, data, k, j + 1);
    }
  }

  /** byte_alignment( ) after `n` bits of header. */
  function AlignmentCode(n: nat): seq<bool> {
    [true] + Zeros(Padding(n + 1))
  }

  /** The remaining header elements and the slice data are copied; only the padding may differ. */
  lemma FinishAt(s: seq<bool>, cur: Cursor, slice: VaSlice, out: seq<bool>, tail: seq<bool>, k: nat, data: seq<bool>)
    requires k < 8 && At(s, cur, out, tail + (([true] + Zeros(k)) + data))
    requires slice.dataOffset >= 3 && (slice.dataOffset - 2) * 8 == |s| - |data|
    ensures Finish(s, cur, slice) == Ok((out + tail) + AlignmentCode(|out + tail|) + data)
  {
    hide Ahead, Zeros, Alignment, Effective;
    AtAhead(s, cur, out, tail, ([true] + Zeros(k)) + data);
    var start := cur.pos + |tail| + 1 + k;
    AlignmentAt(s, cur.pos, start, k, 0);
    FinishCopies(s, cur, out, tail, start - 1 - k);
    assert (slice.dataOffset - 2) * 8 == start;
    assert Alignment(s, cur.pos, start, start) == Ok(start - 1 - k);
    assert Window(s, start, |s|) == data;
  }

  lemma FinishCopies(s: seq<bool>, cur: Cursor, out: seq<bool>, tail: seq<bool>, m: nat)
    requires cur.copied <= cur.pos <= m <= |s| && s[cur.pos..m] == tail && Effective(s, cur) == out
    ensures cur.w + Window(s, cur.copied, m) == out + tail
  {
    assert s[cur.copied..m] == s[cur.copied..cur.pos] + s[cur.pos..m];
    Associative(cur.w, s[cur.copied..cur.pos], tail);
  }

  // ---------------------------------------------------------------- the whole header

  /** VA's fields agree with the header, and the slice data starts where VA says. */
  ghost predicate Consistent(c: Context, h: Header, slice: VaSlice, p: VaPicture) {
    && (!h.first ==> slice.address == h.address)
    && (h.body.SomeBody? ==>
          && slice.sliceType == h.body.body.sliceType
          && (h.body.body.rps.st.Predicted? ==> p.stRpsBits == |PredictedCode(h.body.body.rps.st)|))
  }

  /** What the rewriter checks and a conforming header can still fail. */
  ghost predicate Writable(c: Context, h: Header, slice: VaSlice, p: VaPicture, refs: References)
    requires VaShaped(slice, p)
  {
    h.body.SomeBody? ==>
      && (c.idr || WrittenRps(refs, p.poc, p.longTermPresent, p.pocLsbMinus4 + 4).Ok?)
      && ListsWritable(c, h.body.body, slice, p, refs)
  }

  function RewrittenBody(c: Context, b: Body, slice: VaSlice, p: VaPicture, refs: References): Body
    requires VaShaped(slice, p)
    requires c.idr || WrittenRps(refs, p.poc, p.longTermPresent, p.pocLsbMinus4 + 4).Ok?
    requires ListsWritable(c, b, slice, p, refs)
  {
    WithLists(c, b, slice, p, refs).(
      picOutput := true,
      rps := if c.idr then b.rps else WrittenRps(refs, p.poc, p.longTermPresent, p.pocLsbMinus4 + 4).value)
  }

  function Rewritten(c: Context, h: Header, slice: VaSlice, p: VaPicture, refs: References): Header
    requires VaShaped(slice, p) && Writable(c, h, slice, p, refs)
  {
    h.(ppsId := 0, noOutputOfPriorPics := false,
       body := match h.body
               case NoBody => NoBody
               case SomeBody(b) => SomeBody(RewrittenBody(c, b, slice, p, refs)))
  }

  /** The steps between the address and the end of the list modification. */
  function BodySteps(s: seq<bool>, cur: Cursor, nalType: nat, slice: VaSlice, p: VaPicture,
                     refs: References): Result<Cursor>
    requires VaShaped(slice, p)
  {
    var cur :- Type(s, cur, slice, p);
    var cur :- Timing(s, cur, nalType, p, refs);
    Lists(s, cur, slice, p, refs)
  }

  lemma BodyAt(s: seq<bool>, cur: Cursor, nalType: nat, slice: VaSlice, p: VaPicture, refs: References, b: Body,
               out: seq<bool>, rest: seq<bool>)
    requires VaShaped(slice, p) && !p.separatePlanes
    requires var c := Original(p, nalType);
             && ConformingBody(c, b, refs.TotalCurr())
             && At(s, cur, out, BodyCode(c, b, refs.TotalCurr()) + rest)
    requires slice.sliceType == b.sliceType
    requires b.rps.st.Predicted? ==> p.stRpsBits == |PredictedCode(b.rps.st)|
    ensures var c, g, total := Original(p, nalType), GeneratedFor(p, nalType), refs.TotalCurr();
            var r := BodySteps(s, cur, nalType, slice, p, refs);
            && (r.Ok? <==> && (c.idr || WrittenRps(refs, p.poc, p.longTermPresent, p.pocLsbMinus4 + 4).Ok?)
                           && ListsWritable(c, b, slice, p, refs))
            && (r.Ok? ==> At(s, r.value, out + BodyCode(g, RewrittenBody(c, b, slice, p, refs), total), rest))
  {
    hide At, Type, Timing, Lists, TypeCode, TimingCode, SaoCode, ListsCode, PicSizeInCtbs, CeilLog2, Pow2,
         WrittenRps, ListsWritable, WithLists, ConformingRps, UsedIndices, PredictedCode;
    var c, g, total := Original(p, nalType), GeneratedFor(p, nalType), refs.TotalCurr();
    var type0, timing0, sao, lists0 := TypeCode(c, b), TimingCode(c, b), SaoCode(c, b), ListsCode(c, b, total);
    Peel4(type0, timing0, sao, lists0, rest);
    TypeAt(s, cur, slice, p, nalType, b, out, timing0 + (sao + (lists0 + rest)));
    var type1 := TypeCode(c, b.(picOutput := true));
    var cur1 := Type(s, cur, slice, p).value;
    TimingAt(s, cur1, p, nalType, refs, b, out + type1, sao + (lists0 + rest));
    var cur2 := Timing(s, cur1, nalType, p, refs);
    if cur2.Ok? {
      var written := WrittenRps(refs, p.poc, p.longTermPresent, p.pocLsbMinus4 + 4);
      var timing1 := TimingCode(g, if c.idr then b else b.(rps := written.value));
      ListsAt(s, cur2.value, slice, p, nalType, refs, b, out + type1 + timing1, rest);
      if ListsWritable(c, b, slice, p, refs) {
        RewrittenParts(nalType, slice, p, refs, b);
        LeftNestBody(out, type1, timing1, sao, ListsCode(g, WithLists(c, b, slice, p, refs), total));
      }
    }
  }

  lemma LeftNestBody(w: seq<bool>, a: seq<bool>, b: seq<bool>, c: seq<bool>, d: seq<bool>)
    ensures w + (a + (b + (c + d))) == ((w + a) + b) + c + d
  {
  }

  lemma SameType(c: Context, g: Context, a: Body, b: Body)
    requires a.reserved == b.reserved && a.sliceType == b.sliceType && a.picOutput == b.picOutput
    requires c.outputFlagPresent == g.outputFlagPresent
    ensures TypeCode(g, a) == TypeCode(c, b)
  {
  }

  lemma SameTiming(g: Context, a: Body, b: Body)
    requires a.pocLsb == b.pocLsb && a.rps == b.rps && a.tmvp == b.tmvp
    ensures TimingCode(g, a) == TimingCode(g, b)
  {
  }

  lemma SameSao(c: Context, g: Context, a: Body, b: Body)
    requires a.saoLuma == b.saoLuma && a.saoChroma == b.saoChroma && c.sao == g.sao
    ensures SaoCode(g, a) == SaoCode(c, b)
  {
  }

  lemma SameLists(g: Context, a: Body, b: Body, total: nat)
    requires a.sliceType == b.sliceType && a.counts == b.counts && a.mod0 == b.mod0 && a.mod1 == b.mod1
    ensures ListsCode(g, a, total) == ListsCode(g, b, total)
  {
    hide ModCode;
  }

  lemma RewrittenParts(nalType: nat, slice: VaSlice, p: VaPicture, refs: References, b: Body)
    requires VaShaped(slice, p)
    requires var c := Original(p, nalType);
             && (c.idr || WrittenRps(refs, p.poc, p.longTermPresent, p.pocLsbMinus4 + 4).Ok?)
             && ListsWritable(c, b, slice, p, refs)
    ensures var c, g, total := Original(p, nalType), GeneratedFor(p, nalType), refs.TotalCurr();
            var written := WrittenRps(refs, p.poc, p.longTermPresent, p.pocLsbMinus4 + 4);
            var timing := TimingCode(g, if c.idr then b else b.(rps := written.value));
            var lists := ListsCode(g, WithLists(c, b, slice, p, refs), total);
            BodyCode(g, RewrittenBody(c, b, slice, p, refs), total)
              == TypeCode(c, b.(picOutput := true)) + (timing + (SaoCode(c, b) + lists))
  {
    hide PicSizeInCtbs, CeilLog2, Pow2, WrittenRps, UsedIndices, ListWritable, TypeCode, TimingCode, SaoCode, ListsCode;
    var c, g, total := Original(p, nalType), GeneratedFor(p, nalType), refs.TotalCurr();
    var b' := RewrittenBody(c, b, slice, p, refs);
    SameType(c, g, b', b.(picOutput := true));
    SameTiming(g, b', if c.idr then b else b.(rps := WrittenRps(refs, p.poc, p.longTermPresent,
        p.pocLsbMinus4 + 4).value));
    SameSao(c, g, b', b);
    SameLists(g, b', WithLists(c, b, slice, p, refs), total);
  }

  /** `s` is a conforming slice segment header under the stream's parameter sets (up to the list modification),
      the remaining header elements `tail`, byte alignment, and the slice data, which starts where VA says. */
  ghost predicate Carries(s: seq<bool>, nalType: nat, slice: VaSlice, p: VaPicture, refs: References,
                          h: Header, tail: seq<bool>, k: nat, data: seq<bool>) {
    var c := Original(p, nalType);
    && VaShaped(slice, p) && !p.separatePlanes
    && ConformingHeader(c, h, refs.TotalCurr())
    && Consistent(c, h, slice, p)
    && k < 8
    && s == HeaderCode(c, h, refs.TotalCurr()) + (tail + (([true] + Zeros(k)) + data))
    && slice.dataOffset >= 3 && (slice.dataOffset - 2) * 8 == |s| - |data|
  }

  /** The rewriter accepts exactly the writable headers, and its output is the same header with the
      generated PPS, the forced output flags and VA's references; the remaining header elements (`tail`)
      and the slice data are copied bit for bit. */
  lemma Rewrites(s: seq<bool>, nalType: nat, slice: VaSlice, p: VaPicture, refs: References,
                 h: Header, tail: seq<bool>, k: nat, data: seq<bool>)
    requires Carries(s, nalType, slice, p, refs, h, tail, k, data)
    ensures var c, g, total := Original(p, nalType), GeneratedFor(p, nalType), refs.TotalCurr();
            var r := RewriteBits(s, nalType, slice, p, refs);
            && (r.Ok? <==> Writable(c, h, slice, p, refs))
            && (r.Ok? ==>
                  var header := HeaderCode(g, Rewritten(c, h, slice, p, refs), total);
                  r.value == header + (tail + (AlignmentCode(|header + tail|) + data)))
  {
    hide Preamble, Address, Type, Timing, Lists, Finish, BodyCode, AddressCode, UeCode, PicSizeInCtbs, CeilLog2, Pow2,
         At, WrittenRps, ListsWritable, ConformingBody, RewrittenBody, UsedIndices, Zeros, AlignmentCode, PredictedCode;
    var c, g, total := Original(p, nalType), GeneratedFor(p, nalType), refs.TotalCurr();
    var rest := tail + (([true] + Zeros(k)) + data);
    var body := if h.dependent then rest else BodyCode(c, h.body.body, total) + rest;
    HeaderLayout(c, h, total, rest);
    PreambleAt(s, p, nalType, h, AddressCode(c, h) + body);
    var out0 := [h.first] + (Flag(c.irap, false) + UeCode(0));
    AddressAt(s, Preamble(s, nalType), slice, p, nalType, h, out0, body);
    var cur := Address(s, Preamble(s, nalType), slice, p).value.0;
    var out1 := out0 + AddressCode(c, h);
    if h.dependent {
      FinishAt(s, cur, slice, out1, tail, k, data);
      RewrittenLayout(nalType, h, slice, p, refs, out1);
    } else {
      var b := h.body.body;
      BodyAt(s, cur, nalType, slice, p, refs, b, out1, rest);
      var r := BodySteps(s, cur, nalType, slice, p, refs);
      if r.Ok? {
        var out2 := out1 + BodyCode(g, RewrittenBody(c, b, slice, p, refs), total);
        FinishAt(s, r.value, slice, out2, tail, k, data);
        RewrittenLayout(nalType, h, slice, p, refs, out2);
      }
    }
  }

  lemma RewrittenLayout(nalType: nat, h: Header, slice: VaSlice, p: VaPicture, refs: References, out: seq<bool>)
    requires VaShaped(slice, p) && (h.dependent <==> h.body.NoBody?)
    requires Writable(Original(p, nalType), h, slice, p, refs)
    requires var c, g, total := Original(p, nalType), GeneratedFor(p, nalType), refs.TotalCurr();
             var out1 := [h.first] + (Flag(c.irap, false) + UeCode(0)) + AddressCode(c, h);
             out == if h.dependent then out1
                    else out1 + BodyCode(g, RewrittenBody(c, h.body.body, slice, p, refs), total)
    ensures HeaderCode(GeneratedFor(p, nalType), Rewritten(Original(p, nalType), h, slice, p, refs), refs.TotalCurr())
            == out
  {
    hide UeCode, PicSizeInCtbs, CeilLog2, Pow2, WrittenRps, ListsWritable, BodyCode, RewrittenBody, UsedIndices, Fixed;
    var c, g := Original(p, nalType), GeneratedFor(p, nalType);
    var h' := Rewritten(c, h, slice, p, refs);
    assert AddressCode(g, h') == AddressCode(c, h);
    LeftNest([h.first], Flag(c.irap, false), UeCode(0), AddressCode(c, h));
    assert PreambleCode(g, h') + [] == PreambleCode(g, h');
  }
}
