/** The two results for a decoder of the rewritten slice: it parses the same header, and it builds VA's
    reference picture lists. */
module HevcSliceTheorems {
  import opened Bits
  import opened Codes
  import opened BitReading
  import opened Outcome
  import opened HevcReferences
  import opened HevcRps
  import opened HevcSlice
  import opened HevcSliceParsing
  import opened HevcRewrite
  import opened HevcRewriteMeaning

  // ---------------------------------------------------------------- sizes

  lemma {:induction false} BucketSizes(frames: seq<VaReference>, current: int, n: nat)
    requires n <= |frames|
    ensures |Bucket(frames, current, Before, n)| + |Bucket(frames, current, After, n)|
          + |Bucket(frames, current, LongTerm, n)| <= n
  {
    if n > 0 {
      BucketSizes(frames, current, n - 1);
    }
  }

  lemma {:induction false} InsertSize(r: Reference, s: seq<Reference>, ascending: bool)
    ensures |Insert(r, s, ascending)| == |s| + 1
  {
    if s != [] {
      InsertSize(r, s[1..], ascending);
    }
  }

  lemma {:induction false} SortedSize(s: seq<Reference>, ascending: bool)
    ensures |Sorted(s, ascending)| == |s|
  {
    if s != [] {
      SortedSize(s[..|s| - 1], ascending);
      InsertSize(s[|s| - 1], Sorted(s[..|s| - 1], ascending), ascending);
    }
  }

  lemma CollectedSizes(frames: seq<VaReference>, current: int)
    ensures var refs := Collected(frames, current);
            |refs.before| + |refs.after| + |refs.longTerm| <= |frames|
  {
    BucketSizes(frames, current, |frames|);
    SortedSize(Bucket(frames, current, Before, |frames|), false);
    SortedSize(Bucket(frames, current, After, |frames|), true);
    SortedSize(Bucket(frames, current, LongTerm, |frames|), false);
  }

  // ---------------------------------------------------------------- the output is parsed as the header

  lemma WrittenConforms(refs: References, current: int, longTerm: bool, pocBits: nat)
    requires WrittenRps(refs, current, longTerm, pocBits).Ok?
    requires |refs.before| + |refs.after| + |refs.longTerm| <= 16
    ensures var rps := WrittenRps(refs, current, longTerm, pocBits).value;
            && ConformingRps(RpsContext(0, longTerm, 0, pocBits), rps)
            && rps.st.Explicit? && rps.ltFromSps == [] && TotalCurr(rps) == refs.TotalCurr()
  {
    WrittenStShape(refs.before, current, false);
    WrittenStShape(refs.after, current, true);
    if longTerm {
      WrittenLtShape(refs.longTerm, current, pocBits, 0);
    }
  }

  lemma ListConforms(p: VaPicture, nalType: nat, b: Body, slice: VaSlice, refs: References, l: nat, used: bool)
    requires VaShaped(slice, p) && ListWritable(Original(p, nalType), b, slice, p, refs, l) && used
    requires refs.TotalCurr() == |refs.List(l)|
    ensures ConformingMod(GeneratedFor(p, nalType), ListMod(Original(p, nalType), b, slice, p, refs, l),
                          refs.TotalCurr(), Active(GeneratedFor(p, nalType), b.counts, l), used)
  {
    hide UsedIndices, Positions, PicSizeInCtbs;
    var n := Active(Original(p, nalType), b.counts, l);
    PositionsStatus(refs.List(l), slice.RefPicList(l)[..n]);
  }

  lemma BodyConforms(p: VaPicture, nalType: nat, b: Body, slice: VaSlice, refs: References)
    requires var c := Original(p, nalType);
             && VaShaped(slice, p) && ConformingBody(c, b, refs.TotalCurr())
             && (c.idr || WrittenRps(refs, p.poc, p.longTermPresent, p.pocLsbMinus4 + 4).Ok?)
             && ListsWritable(c, b, slice, p, refs)
    requires Distinct(p.frames, p.poc, |p.frames|) && refs == Collected(p.frames, p.poc)
    ensures ParseableBody(GeneratedFor(p, nalType), RewrittenBody(Original(p, nalType), b, slice, p, refs),
                          if Original(p, nalType).idr then 0 else refs.TotalCurr())
  {
    hide UsedIndices, Collected, Positions, PicSizeInCtbs, CeilLog2, Pow2, WrittenRps, ConformingRps, ListWritable,
         ListMod,
         ConformingMod, CountSt, CountLt;
    var c, g, total := Original(p, nalType), GeneratedFor(p, nalType), refs.TotalCurr();
    CollectedSizes(p.frames, p.poc);
    ListsPermute(p.frames, p.poc);
    UnusedMod(c, b.mod1, total, Active(c, b.counts, 1), g, 0, 0);
    if b.sliceType == I_SLICE {
      UnusedMod(c, b.mod0, total, Active(c, b.counts, 0), g, if c.idr then 0 else total, Active(g, b.counts, 0));
      UnusedMod(c, b.mod1, total, Active(c, b.counts, 1), g, if c.idr then 0 else total, Active(g, b.counts, 1));
    } else {
      ListConforms(p, nalType, b, slice, refs, 0, true);
      if b.sliceType == B_SLICE {
        ListConforms(p, nalType, b, slice, refs, 1, true);
      } else {
        InitialMod(g, total, Active(g, b.counts, 1));
      }
    }
    NoRpsTotal();
    if !c.idr {
      WrittenConforms(refs, p.poc, p.longTermPresent, p.pocLsbMinus4 + 4);
    }
  }

  lemma NoRpsTotal()
    ensures TotalCurr(NO_RPS) == 0
  {
  }

  lemma UnusedMod(c: Context, m: Modification, total: nat, active: nat, g: Context, total': nat, active': nat)
    ensures ConformingMod(c, m, total, active, false) ==> ConformingMod(g, m, total', active', false)
  {
  }

  lemma InitialMod(c: Context, total: nat, active: nat)
    ensures ConformingMod(c, Initial, total, active, false)
  {
  }

  /** Parsing `bits` gives the header, and after it the rest of the header, byte alignment and the data. */
  ghost predicate ParsesAs(c: Context, bits: seq<bool>, h: Header, tail: seq<bool>, data: seq<bool>) {
    var parsed := ReadHeader(c, bits);
    && parsed.Read? && parsed.value == h
    && |parsed.rest| <= |bits|
    && parsed.rest == tail + (AlignmentCode(|bits| - |parsed.rest| + |tail|) + data)
  }

  /** Every field is the same but for the PPS, which is the generated one, the two output flags, which are forced,
      the reference picture set and the list modification. */
  ghost predicate SameSlice(h: Header, h': Header) {
    && h'.first == h.first && h'.dependent == h.dependent && h'.address == h.address
    && h'.ppsId == 0 && !h'.noOutputOfPriorPics
    && (h.body.SomeBody? <==> h'.body.SomeBody?)
    && (h.body.SomeBody? ==>
          var b, b' := h.body.body, h'.body.body;
          && b'.reserved == b.reserved && b'.sliceType == b.sliceType && b'.picOutput && b'.pocLsb == b.pocLsb
          && b'.tmvp == b.tmvp && b'.saoLuma == b.saoLuma && b'.saoChroma == b.saoChroma && b'.counts == b.counts)
  }

  /** A slice segment header that is accepted is parsed, under the generated parameter sets, as the same
      header but for the PPS, the two forced flags, the explicit set and the list modification; what follows
      it is the rest of the original header, byte alignment and the original slice data. */
  lemma SliceMeaningPreserved(s: seq<bool>, nalType: nat, slice: VaSlice, p: VaPicture,
                              h: Header, tail: seq<bool>, k: nat, data: seq<bool>)
    requires Distinct(p.frames, p.poc, |p.frames|)
    requires Carries(s, nalType, slice, p, Collected(p.frames, p.poc), h, tail, k, data)
    ensures var c, g, refs := Original(p, nalType), GeneratedFor(p, nalType), Collected(p.frames, p.poc);
            var r := RewriteBits(s, nalType, slice, p, refs);
            && (r.Ok? <==> Writable(c, h, slice, p, refs))
            && (r.Ok? ==>
                  var h' := Rewritten(c, h, slice, p, refs);
                  SameSlice(h, h') && ParsesAs(g, r.value, h', tail, data))
  {
    hide RewriteBits, HeaderCode, ReadHeader, Collected, UsedIndices, PicSizeInCtbs, CeilLog2, Pow2,
         AlignmentCode, Writable, ConformingHeader, Consistent, Rewritten;
    var c, g, refs := Original(p, nalType), GeneratedFor(p, nalType), Collected(p.frames, p.poc);
    Rewrites(s, nalType, slice, p, refs, h, tail, k, data);
    if Writable(c, h, slice, p, refs) {
      var header := HeaderCode(g, Rewritten(c, h, slice, p, refs), refs.TotalCurr());
      AcceptedBody(p, nalType, h, slice, refs);
      RewrittenSame(p, nalType, h, slice, refs);
      RewrittenHeaderParses(p, nalType, h, slice, refs, tail + (AlignmentCode(|header + tail|) + data));
    }
  }

  lemma RewrittenSame(p: VaPicture, nalType: nat, h: Header, slice: VaSlice, refs: References)
    requires VaShaped(slice, p) && Writable(Original(p, nalType), h, slice, p, refs)
    ensures SameSlice(h, Rewritten(Original(p, nalType), h, slice, p, refs))
  {
    hide WrittenRps, UsedIndices, PicSizeInCtbs, CeilLog2, VaPositions, WrittenMod, References.TotalCurr;
  }

  /** What the syntax after the list modification depends on, besides parameters that the generated sets copy:
      which elements are present, and how many entries the weight tables have. */
  datatype TailContext = TailContext(sliceType: nat, tmvp: bool, saoLuma: bool, saoChroma: bool, active0: nat,
      active1: nat)

  function TailContextOf(c: Context, b: Body): TailContext {
    TailContext(b.sliceType, b.tmvp, b.saoLuma, b.saoChroma,
                if b.sliceType == I_SLICE then 0 else Active(c, b.counts, 0),
                if b.sliceType == B_SLICE then Active(c, b.counts, 1) else 0)
  }

  /** The copied remainder of the header is read in the context it was written for, although the default counts
      of the generated parameter sets are cut to fifteen. */
  lemma TailContextKept(p: VaPicture, nalType: nat, h: Header, slice: VaSlice, refs: References)
    requires VaShaped(slice, p) && Writable(Original(p, nalType), h, slice, p, refs) && h.body.SomeBody?
    ensures var c, g := Original(p, nalType), GeneratedFor(p, nalType);
            var h' := Rewritten(c, h, slice, p, refs);
            h'.body.SomeBody? && TailContextOf(g, h'.body.body) == TailContextOf(c, h.body.body)
  {
    hide WrittenRps, UsedIndices, PicSizeInCtbs, CeilLog2, VaPositions, WrittenMod, References.TotalCurr;
  }

  lemma AcceptedBody(p: VaPicture, nalType: nat, h: Header, slice: VaSlice, refs: References)
    requires Distinct(p.frames, p.poc, |p.frames|) && refs == Collected(p.frames, p.poc)
    requires var c := Original(p, nalType);
             VaShaped(slice, p) && ConformingHeader(c, h, refs.TotalCurr()) && Writable(c, h, slice, p, refs)
    ensures var c, g := Original(p, nalType), GeneratedFor(p, nalType);
            h.body.SomeBody? ==>
              ParseableBody(g, RewrittenBody(c, h.body.body, slice, p, refs), if c.idr then 0 else refs.TotalCurr())
  {
    hide ConformingBody, ParseableBody, ListsWritable, RewrittenBody, PicSizeInCtbs, CeilLog2, Pow2, Collected,
         UsedIndices,
         WrittenRps;
    if h.body.SomeBody? {
      BodyConforms(p, nalType, h.body.body, slice, refs);
    }
  }

  lemma RewrittenHeaderParses(p: VaPicture, nalType: nat, h: Header, slice: VaSlice, refs: References, rest: seq<bool>)
    requires var c, g := Original(p, nalType), GeneratedFor(p, nalType);
             && VaShaped(slice, p) && Writable(c, h, slice, p, refs) && ConformingHeader(c, h, refs.TotalCurr())
             && (h.body.SomeBody? ==>
                   ParseableBody(g, RewrittenBody(c, h.body.body, slice, p, refs),
                       if c.idr then 0 else refs.TotalCurr()))
    ensures var g, h' := GeneratedFor(p, nalType), Rewritten(Original(p, nalType), h, slice, p, refs);
            ReadHeader(g, HeaderCode(g, h', refs.TotalCurr()) + rest) == Read(h', rest)
  {
    hide HeaderCode, ReadHeader, UsedIndices, PicSizeInCtbs, CeilLog2, WrittenRps, ListsWritable, ParseableBody,
         TotalCurr;
    var c, g := Original(p, nalType), GeneratedFor(p, nalType);
    var h' := Rewritten(c, h, slice, p, refs);
    var total := if c.idr then 0 else refs.TotalCurr();
    if h.body.SomeBody? {
      ParseableConforms(g, h'.body.body, total);
      if c.idr {
        IntraTotal(g, h', total, refs.TotalCurr());
      }
    } else {
      IntraTotal(g, h', total, refs.TotalCurr());
    }
    HeaderParses(g, h', total, rest);
  }

  lemma ParseableConforms(c: Context, b: Body, total: nat)
    requires ParseableBody(c, b, total)
    ensures ConformingBody(c, b, total) && (c.idr ==> b.sliceType == I_SLICE)
  {
  }

  /** NumPicTotalCurr does not matter to a header without lists. */
  lemma IntraTotal(c: Context, h: Header, a: nat, b: nat)
    requires h.body.SomeBody? ==> h.body.body.sliceType == I_SLICE
    ensures HeaderCode(c, h, a) == HeaderCode(c, h, b)
  {
    hide PreambleCode, TypeCode, TimingCode, SaoCode;
  }

  // ---------------------------------------------------------------- reference picture lists (section 8.3.4)

  function UsedPocs(pictures: seq<Picture>): seq<int> {
    if pictures == [] then []
    else (if pictures[0].used then [pictures[0].poc] else []) + UsedPocs(pictures[1..])
  }

  /** PocStCurrBefore, PocStCurrAfter and PocLtCurr in the order of list `l`. */
  function CurrentPocs(rps: Rps, current: int, pocBits: nat, l: nat): seq<int>
    requires rps.st.Explicit? && forall i :: 0 <= i < |rps.lt| ==> rps.lt[i].LtExplicit? && rps.lt[i].msb.Msb?
  {
    var before := UsedPocs(DeriveSt(rps.st.negative, current, false));
    var after := UsedPocs(DeriveSt(rps.st.positive, current, true));
    (if l == 0 then before + after else after + before) + UsedPocs(DeriveLt(rps.lt, current, Pow2(pocBits), 0))
  }

  /** RefPicListTempX: the current pictures over and over, `n` entries. */
  function Cycled(base: seq<int>, n: nat): (t: seq<int>)
    requires base != []
    ensures |t| == n
    decreases n
  {
    if n <= |base| then base[..n] else base + Cycled(base, n - |base|)
  }

  function Max(a: nat, b: nat): nat {
    if a < b then b else a
  }

  /** RefPicListX. */
  function DecodedList(base: seq<int>, active: nat, m: Modification): seq<int>
    requires base != []
    requires m.Entries? ==> |m.es| == active && forall j :: 0 <= j < active ==> m.es[j] < |base|
  {
    var temp := Cycled(base, Max(active, |base|));
    seq(active, j requires 0 <= j < active => if m.Entries? then temp[m.es[j]] else temp[j])
  }

  lemma {:induction false} UsedPocsOf(frames: seq<VaReference>, current: int, kind: Kind, s: seq<Reference>)
    requires forall r :: r in s ==> Stands(frames, current, kind, r)
    ensures forall x :: x in UsedIndices(s) ==> x < |frames|
    ensures UsedPocs(Pictures(s)) == PocsAt(frames, UsedIndices(s))
  {
    if s != [] {
      assert Stands(frames, current, kind, s[0]);
      assert forall r :: r in s[1..] ==> r in s;
      UsedPocsOf(frames, current, kind, s[1..]);
      assert Pictures(s)[1..] == Pictures(s[1..]);
    }
  }

  function PocsAt(frames: seq<VaReference>, indices: seq<nat>): seq<int>
    requires forall x :: x in indices ==> x < |frames|
  {
    seq(|indices|, i requires 0 <= i < |indices| => assert indices[i] in indices; frames[indices[i]].poc)
  }

  /** The pictures a decoder puts into an initial list are VA's, in the order of `References.List`. */
  lemma CurrentPocsAre(p: VaPicture, refs: References, l: nat)
    requires Distinct(p.frames, p.poc, |p.frames|) && refs == Collected(p.frames, p.poc)
    requires WrittenRps(refs, p.poc, p.longTermPresent, p.pocLsbMinus4 + 4).Ok?
    ensures var rps := WrittenRps(refs, p.poc, p.longTermPresent, p.pocLsbMinus4 + 4).value;
            && (forall i :: 0 <= i < |rps.lt| ==> rps.lt[i].LtExplicit? && rps.lt[i].msb.Msb?)
            && (forall x :: x in refs.List(l) ==> x < |p.frames|)
            && CurrentPocs(rps, p.poc, p.pocLsbMinus4 + 4, l) == PocsAt(p.frames, refs.List(l))
  {
    hide WrittenRps, UsedIndices, UsedPocs, DeriveSt, DeriveLt, Collected, Pow2, PocsAt, Pictures;
    CollectedKinds(p.frames, p.poc);
    RpsMeaning(refs, p.poc, p.longTermPresent, p.pocLsbMinus4 + 4);
    UsedPocsOf(p.frames, p.poc, Before, refs.before);
    UsedPocsOf(p.frames, p.poc, After, refs.after);
    UsedPocsOf(p.frames, p.poc, LongTerm, refs.longTerm);
    var b, a, t := UsedIndices(refs.before), UsedIndices(refs.after), UsedIndices(refs.longTerm);
    if l == 0 {
      PocsJoined(p.frames, b, a, t);
    } else {
      PocsJoined(p.frames, a, b, t);
    }
  }

  lemma PocsJoined(frames: seq<VaReference>, a: seq<nat>, b: seq<nat>, c: seq<nat>)
    requires forall x :: x in a || x in b || x in c ==> x < |frames|
    ensures PocsAt(frames, a + b + c) == PocsAt(frames, a) + PocsAt(frames, b) + PocsAt(frames, c)
  {
  }

  /** The picture of a frame that VA reports. */
  ghost predicate Stored(frames: seq<VaReference>, longTerm: bool, x: Picture, i: nat) {
    && i < |frames| && frames[i].present && frames[i].longTerm == longTerm
    && x == Picture(frames[i].poc, frames[i].current)
  }

  lemma PicturesStored(frames: seq<VaReference>, s: seq<Reference>, longTerm: bool, x: Picture)
    requires forall r :: r in s ==> Repeats(frames, r) && frames[r.index].longTerm == longTerm
    ensures x in Pictures(s) ==> exists i :: Stored(frames, longTerm, x, i)
    ensures (exists i :: Stored(frames, longTerm, x, i) && Reference(i, x.poc, x.used) in s) ==> x in Pictures(s)
  {
    forall k | 0 <= k < |s|
      ensures Stored(frames, longTerm, Pictures(s)[k], s[k].index)
    {
      assert s[k] in s;
    }
    forall i | Stored(frames, longTerm, x, i) && Reference(i, x.poc, x.used) in s
      ensures x in Pictures(s)
    {
      var k :| 0 <= k < |s| && s[k] == Reference(i, x.poc, x.used);
      assert Pictures(s)[k] == x;
    }
  }

  /** What a decoder derives from the rewritten header (sections 7.4.8 and 8.3.2) is VA's reference graph: each
      picture is the one of a frame that VA reports, with its flag, and each such frame is there. */
  lemma GraphReproduced(p: VaPicture, nalType: nat, slice: VaSlice, b: Body)
    requires Distinct(p.frames, p.poc, |p.frames|) && VaShaped(slice, p) && !Original(p, nalType).idr
    requires var c, refs := Original(p, nalType), Collected(p.frames, p.poc);
             && WrittenRps(refs, p.poc, p.longTermPresent, p.pocLsbMinus4 + 4).Ok?
             && ListsWritable(c, b, slice, p, refs)
    ensures var rps := RewrittenBody(Original(p, nalType), b, slice, p, Collected(p.frames, p.poc)).rps;
            && rps.st.Explicit?
            && (forall i :: 0 <= i < |rps.lt| ==> rps.lt[i].LtExplicit? && rps.lt[i].msb.Msb?)
            && (forall x :: x in DeriveSt(rps.st.negative, p.poc, false) <==>
                  x.poc < p.poc && exists i :: Stored(p.frames, false, x, i))
            && (forall x :: x in DeriveSt(rps.st.positive, p.poc, true) <==>
                  x.poc > p.poc && exists i :: Stored(p.frames, false, x, i))
            && var longTerm := DeriveLt(rps.lt, p.poc, Pow2(p.pocLsbMinus4 + 4), 0);
               forall x :: x in longTerm <==> exists i :: Stored(p.frames, true, x, i)
  {
    hide WrittenRps, UsedIndices, Collected, PicSizeInCtbs, CeilLog2, Distinct, DeriveSt, DeriveLt, Pow2, Pictures,
         WithLists, ListsWritable;
    var refs := Collected(p.frames, p.poc);
    CollectedExact(p.frames, p.poc);
    RpsMeaning(refs, p.poc, p.longTermPresent, p.pocLsbMinus4 + 4);
    WrittenExplicit(refs, p);
    forall x
      ensures x in Pictures(refs.before) <==> x.poc < p.poc && exists i :: Stored(p.frames, false, x, i)
      ensures x in Pictures(refs.after) <==> x.poc > p.poc && exists i :: Stored(p.frames, false, x, i)
      ensures x in Pictures(refs.longTerm) <==> exists i :: Stored(p.frames, true, x, i)
    {
      GraphMember(p.frames, p.poc, refs, x);
    }
  }

  lemma GraphMember(frames: seq<VaReference>, current: int, refs: References, x: Picture)
    requires Distinct(frames, current, |frames|) && Filed(frames, current, refs)
    ensures x in Pictures(refs.before) <==> x.poc < current && exists i :: Stored(frames, false, x, i)
    ensures x in Pictures(refs.after) <==> x.poc > current && exists i :: Stored(frames, false, x, i)
    ensures x in Pictures(refs.longTerm) <==> exists i :: Stored(frames, true, x, i)
  {
    hide Distinct;
    PicturesStored(frames, refs.before, false, x);
    PicturesStored(frames, refs.after, false, x);
    PicturesStored(frames, refs.longTerm, true, x);
    forall i, longTerm | Stored(frames, longTerm, x, i)
      ensures Repeats(frames, Reference(i, x.poc, x.used)) && x.poc != current
    {
      NotCurrent(frames, current, i);
    }
  }

  lemma {:induction false} CycledPrefix(base: seq<int>, n: nat, i: nat)
    requires i < n
    ensures base != [] && i < |base| ==> Cycled(base, n)[i] == base[i]
    ensures |base| == 1 ==> Cycled(base, n)[i] == base[0]
    decreases n
  {
    if base != [] && n > |base| && i >= |base| {
      CycledPrefix(base, n - |base|, i - |base|);
    }
  }

  lemma DecodedEntries(base: seq<int>, list: seq<nat>, va: seq<nat>, frames: seq<VaReference>)
    requires |base| == |list| > 0 && Positions(list, va).Ok?
    requires (forall x :: x in list ==> x < |frames|) && base == PocsAt(frames, list)
    ensures var m := WrittenMod(|list|, Positions(list, va).value);
            && (m.Entries? ==> |m.es| == |va| && forall j :: 0 <= j < |va| ==> m.es[j] < |base|)
            && (forall x :: x in va ==> x < |frames|)
            && DecodedList(base, |va|, m) == PocsAt(frames, va)
  {
    PositionsStatus(list, va);
    var es := Positions(list, va).value;
    var m := WrittenMod(|list|, es);
    forall j | 0 <= j < |va|
      ensures va[j] < |frames| && DecodedList(base, |va|, m)[j] == frames[va[j]].poc
    {
      assert va[j] == list[es[j]] && list[es[j]] in list;
      CycledPrefix(base, Max(|va|, |base|), if m.Entries? then es[j] else j);
    }
  }

  /** List construction on the rewritten header gives VA's RefPicList, entry by entry, in both lists. */
  lemma ListsReproduced(p: VaPicture, nalType: nat, slice: VaSlice, b: Body, l: nat)
    requires Distinct(p.frames, p.poc, |p.frames|) && VaShaped(slice, p)
    requires var c, refs := Original(p, nalType), Collected(p.frames, p.poc);
             && b.sliceType != I_SLICE && !c.idr && l <= 1 && (l == 1 ==> b.sliceType == B_SLICE)
             && WrittenRps(refs, p.poc, p.longTermPresent, p.pocLsbMinus4 + 4).Ok?
             && ListsWritable(c, b, slice, p, refs)
    ensures var c, g, refs := Original(p, nalType), GeneratedFor(p, nalType), Collected(p.frames, p.poc);
            var b' := RewrittenBody(c, b, slice, p, refs);
            var m := if l == 0 then b'.mod0 else b'.mod1;
            var n := Active(g, b'.counts, l);
            && b'.rps.st.Explicit?
            && (forall i :: 0 <= i < |b'.rps.lt| ==> b'.rps.lt[i].LtExplicit? && b'.rps.lt[i].msb.Msb?)
            && var base := CurrentPocs(b'.rps, p.poc, p.pocLsbMinus4 + 4, l);
               && base != [] && n <= 15
               && (m.Entries? ==> |m.es| == n && forall j :: 0 <= j < n ==> m.es[j] < |base|)
               && (forall x :: x in slice.RefPicList(l)[..n] ==> x < |p.frames|)
               && DecodedList(base, n, m) == PocsAt(p.frames, slice.RefPicList(l)[..n])
  {
    hide WrittenRps, UsedIndices, CurrentPocs, Collected, Positions, PicSizeInCtbs, CeilLog2, DecodedList, Distinct;
    var c, g, refs := Original(p, nalType), GeneratedFor(p, nalType), Collected(p.frames, p.poc);
    var n := Active(c, b.counts, l);
    var va := slice.RefPicList(l)[..n];
    ListsPermute(p.frames, p.poc);
    CurrentPocsAre(p, refs, l);
    WrittenExplicit(refs, p);
    assert ListWritable(c, b, slice, p, refs, l);
    DecodedEntries(PocsAt(p.frames, refs.List(l)), refs.List(l), va, p.frames);
  }

  lemma WrittenExplicit(refs: References, p: VaPicture)
    requires WrittenRps(refs, p.poc, p.longTermPresent, p.pocLsbMinus4 + 4).Ok?
    ensures WrittenRps(refs, p.poc, p.longTermPresent, p.pocLsbMinus4 + 4).value.st.Explicit?
  {
    hide WrittenSt, WrittenLt, Pow2;
  }

  // ---------------------------------------------------------------- what is accepted

  /** VA offers the frame to the current picture. */
  ghost predicate Usable(frames: seq<VaReference>, i: nat) {
    i < |frames| && frames[i].present && frames[i].current
  }

  /** At most fifteen entries, each a frame that VA offers. */
  ghost predicate UsableList(frames: seq<VaReference>, list: seq<nat>, n: nat) {
    n <= 15 <= |list| && forall j :: 0 <= j < n ==> Usable(frames, list[j])
  }

  lemma ListHolds(frames: seq<VaReference>, current: int, refs: References, l: nat, x: nat)
    requires Filed(frames, current, refs) && Distinct(frames, current, |frames|)
    ensures x in refs.List(l) <==> Usable(frames, x)
  {
    hide Distinct, UsedIndices;
    UsedIndicesOf(refs.before, x);
    UsedIndicesOf(refs.after, x);
    UsedIndicesOf(refs.longTerm, x);
    if Usable(frames, x) {
      var f := frames[x];
      var r := Reference(x, f.poc, true);
      assert Repeats(frames, r);
      NotCurrent(frames, current, x);
    }
  }

  lemma NotCurrent(frames: seq<VaReference>, current: int, i: nat)
    requires Distinct(frames, current, |frames|) && i < |frames| && frames[i].present
    ensures frames[i].poc != current
  {
  }

  lemma {:induction false} UsedAreFewer(s: seq<Reference>)
    ensures |UsedIndices(s)| <= |s|
  {
    if s != [] {
      UsedAreFewer(s[1..]);
    }
  }

  lemma TotalIs(frames: seq<VaReference>, current: int)
    requires Distinct(frames, current, |frames|)
    ensures var total := Collected(frames, current).TotalCurr();
            total <= |frames| && (total > 0 <==> exists i :: Usable(frames, i))
  {
    hide Collected, Distinct, UsedIndices, Usable;
    var refs := Collected(frames, current);
    CollectedExact(frames, current);
    CollectedSizes(frames, current);
    UsedAreFewer(refs.before);
    UsedAreFewer(refs.after);
    UsedAreFewer(refs.longTerm);
    if refs.TotalCurr() > 0 {
      ListHolds(frames, current, refs, 0, refs.List(0)[0]);
    }
    forall i | Usable(frames, i)
      ensures i in refs.List(0)
    {
      ListHolds(frames, current, refs, 0, i);
    }
  }

  lemma ListAccepted(c: Context, b: Body, slice: VaSlice, p: VaPicture, l: nat)
    requires VaShaped(slice, p) && Distinct(p.frames, p.poc, |p.frames|)
    ensures ListWritable(c, b, slice, p, Collected(p.frames, p.poc), l)
       <==> UsableList(p.frames, slice.RefPicList(l), Active(c, b.counts, l))
  {
    hide Collected, Distinct, UsedIndices, Usable, Positions, References.List;
    var refs, n := Collected(p.frames, p.poc), Active(c, b.counts, l);
    CollectedExact(p.frames, p.poc);
    if n <= 15 {
      var va := slice.RefPicList(l)[..n];
      PositionsStatus(refs.List(l), va);
      forall x
        ensures x in refs.List(l) <==> Usable(p.frames, x)
      {
        ListHolds(p.frames, p.poc, refs, l, x);
      }
      assert forall j :: 0 <= j < n ==> va[j] in va && va[j] == slice.RefPicList(l)[j];
    }
  }

  /** A conforming slice is accepted if and only if its reference graph can be spelled out (RpsWritable) and,
      when it is inter coded, VA offers a frame and every active list entry is one that VA offers. */
  lemma AcceptedExactly(p: VaPicture, nalType: nat, h: Header, slice: VaSlice)
    requires VaShaped(slice, p) && Distinct(p.frames, p.poc, |p.frames|)
    requires -0x8000_0000 <= p.poc < 0x8000_0000
    requires forall i :: 0 <= i < |p.frames| ==> -0x8000_0000 <= p.frames[i].poc < 0x8000_0000
    ensures var c, refs := Original(p, nalType), Collected(p.frames, p.poc);
            Writable(c, h, slice, p, refs) <==>
              (h.body.SomeBody? ==>
                 var b := h.body.body;
                 && (nalType == 19 || nalType == 20
                     || (&& CloseGaps(refs.before, p.poc, false) && CloseGaps(refs.after, p.poc, true)
                         && FirstInReach(refs.longTerm, p.poc, p.longTermPresent, Pow2(p.pocLsbMinus4 + 4))))
                 && (b.sliceType != I_SLICE ==>
                       && (exists i :: Usable(p.frames, i))
                       && UsableList(p.frames, slice.list0, Active(c, b.counts, 0))
                       && (b.sliceType == B_SLICE ==> UsableList(p.frames, slice.list1, Active(c, b.counts, 1)))))
  {
    hide Collected, Distinct, UsableList, Usable, ListWritable, CloseGaps, FirstInReach, WrittenRps, CeilLog2,
         PicSizeInCtbs, References.TotalCurr;
    var c := Original(p, nalType);
    RpsWritable(p.frames, p.poc, p.longTermPresent, p.pocLsbMinus4 + 4);
    TotalIs(p.frames, p.poc);
    if h.body.SomeBody? {
      ListAccepted(c, h.body.body, slice, p, 0);
      ListAccepted(c, h.body.body, slice, p, 1);
    }
  }

  // ---------------------------------------------------------------- an accepted slice

  /** Two frames before the current picture, which has picture order count 16. */
  function TwoFrames(): (frames: seq<VaReference>)
    ensures |frames| == 15
    ensures frames[0] == VaReference(true, 4, false, true) && frames[1] == VaReference(true, 8, false, true)
    ensures forall i :: 2 <= i < 15 ==> !frames[i].present
  {
    var none := VaReference(false, 0, false, false);
    [VaReference(true, 4, false, true), VaReference(true, 8, false, true),
     none, none, none, none, none, none, none, none, none, none, none, none, none]
  }

  function TwoReferences(): References {
    References([Reference(1, 8, true), Reference(0, 4, true)], [], [])
  }

  function TwoFramePicture(): VaPicture {
    VaPicture(16, TwoFrames(), 1, 0, 16, 16, false, 0, false, false, 0, 0, 0, false, 0, false, false, 1, 0, false)
  }

  /** The list of the slice is the reverse of the initial one. */
  function ReversedSlice(offset: nat): VaSlice {
    var list := [0, 1, 0, 0, 0, 0, 0, 0, 0, 0, 0, 0, 0, 0, 0];
    VaSlice(offset, 0, P_SLICE, list, list)
  }

  function ReversedHeader(): Header {
    var rps := Rps(Explicit([StEntry(7, true), StEntry(3, true)], []), [], []);
    Header(true, false, 0, false, 0,
        SomeBody(Body([], P_SLICE, true, 0, rps, false, false, false, Inherited, Initial, Initial)))
  }

  lemma {:induction false} AbsentFrames(frames: seq<VaReference>, current: int, kind: Kind, m: nat, n: nat)
    requires m <= n <= |frames| && forall i :: m <= i < n ==> !frames[i].present
    ensures Bucket(frames, current, kind, n) == Bucket(frames, current, kind, m)
  {
    if m < n {
      AbsentFrames(frames, current, kind, m, n - 1);
    }
  }

  lemma TwoBuckets(kind: Kind)
    ensures Bucket(TwoFrames(), 16, kind, 15)
         == if kind == Before then [Reference(0, 4, true), Reference(1, 8, true)] else []
  {
    hide TwoFrames;
    var frames := TwoFrames();
    AbsentFrames(frames, 16, kind, 2, 15);
    assert Bucket(frames, 16, kind, 0) == [];
    assert Bucket(frames, 16, kind, 1) == if kind == Before then [Reference(0, 4, true)] else [];
  }

  lemma TwoCollected()
    ensures Collected(TwoFrames(), 16) == TwoReferences()
    ensures TwoReferences().List(0) == [1, 0] && TwoReferences().TotalCurr() == 2
  {
    hide Bucket, TwoFrames;
    TwoBuckets(Before);
    TwoBuckets(After);
    TwoBuckets(LongTerm);
    var r, q := Reference(0, 4, true), Reference(1, 8, true);
    assert Sorted([r], false) == [r] by {
      assert [r][..0] == [];
    }
    assert [r, q][..1] == [r];
    assert Sorted([r, q], false) == Insert(q, [r], false) == [q, r];
    assert [q, r][1..] == [r];
    assert UsedIndices([r]) == [0];
  }

  /** The hypotheses of the theorem can be met: whatever follows the header, a P slice whose list VA reports
      in reverse is carried at some offset, and the rewriter accepts it. */
  lemma SomeSliceIsAccepted(tail: seq<bool>, data: seq<bool>)
    ensures exists k: nat, offset: nat {:trigger Zeros(k), ReversedSlice(offset)} ::
              var p, h, refs := TwoFramePicture(), ReversedHeader(), TwoReferences();
              var s := HeaderCode(Original(p, 1), h, 2) + (tail + (([true] + Zeros(k)) + data));
              && Distinct(p.frames, p.poc, |p.frames|) && Collected(p.frames, p.poc) == refs
              && Carries(s, 1, ReversedSlice(offset), p, refs, h, tail, k, data)
              && Writable(Original(p, 1), h, ReversedSlice(offset), p, refs)
  {
    hide HeaderCode, Writable, VaShaped, ConformingHeader, Consistent, Collected, TwoFrames, Original, ReversedHeader,
         TwoReferences, UsedIndices, References.List;
    TwoDistinct();
    TwoCollected();
    var code := HeaderCode(Original(TwoFramePicture(), 1), ReversedHeader(), 2);
    var n := |code| + |tail|;
    var k := 7 - n % 8;
    var offset := 2 + (n + 1 + k) / 8;
    ReversedFits(offset);
    ReversedIsWritable(offset);
    var p, h, refs := TwoFramePicture(), ReversedHeader(), TwoReferences();
    var s := code + (tail + (([true] + Zeros(k)) + data));
    assert |s| - |data| == n + 1 + k;
    assert Carries(s, 1, ReversedSlice(offset), p, refs, h, tail, k, data);
  }

  lemma TwoDistinct()
    ensures Distinct(TwoFrames(), 16, 15) && TwoFramePicture().frames == TwoFrames() && TwoFramePicture().poc == 16
  {
    hide TwoFrames;
  }

  lemma TwoShaped(offset: nat)
    ensures VaShaped(ReversedSlice(offset), TwoFramePicture()) && CeilLog2(PicSizeInCtbs(TwoFramePicture())) == 0
    ensures Original(TwoFramePicture(), 1)
         == Context(false, false, false, 0, 0, false, RpsContext(0, false, 0, 4), false, false, 2, 1, false)
  {
    hide TwoFrames, CeilLog2, PicSizeInCtbs;
    OneBlock();
    SmallLogs();
  }

  lemma OneBlock()
    ensures PicSizeInCtbs(TwoFramePicture()) == 1
  {
    hide TwoFrames, Pow2;
    SixteenIsPower();
  }

  lemma SixteenIsPower()
    ensures Pow2(4) == 16
  {
  }

  lemma SmallLogs()
    ensures CeilLog2(0) == 0 && CeilLog2(1) == 0
  {
  }

  lemma ReversedFits(offset: nat)
    ensures VaShaped(ReversedSlice(offset), TwoFramePicture())
    ensures ConformingHeader(Original(TwoFramePicture(), 1), ReversedHeader(), 2)
    ensures Consistent(Original(TwoFramePicture(), 1), ReversedHeader(), ReversedSlice(offset), TwoFramePicture())
  {
    hide TwoFrames, CeilLog2, PicSizeInCtbs, VaShaped, Original;
    TwoShaped(offset);
    assert Pow2(0) == 1;
    Pow2Monotone(0, 4);
  }

  lemma ReversedIsWritable(offset: nat)
    requires VaShaped(ReversedSlice(offset), TwoFramePicture())
    ensures Writable(Original(TwoFramePicture(), 1), ReversedHeader(), ReversedSlice(offset), TwoFramePicture(),
            TwoReferences())
  {
    hide TwoFrames, CeilLog2, PicSizeInCtbs, VaShaped, Original, Collected, UsedIndices, Positions, Position,
         WrittenSt, WrittenLt;
    TwoShaped(offset);
    TwoCollected();
    WrittenTwo();
    var va := ReversedSlice(offset).RefPicList(0)[..2];
    assert va == [0, 1];
    ReversedPositions();
  }

  lemma WrittenTwo()
    ensures WrittenSt(TwoReferences().before, 16, false) == Ok([StEntry(7, true), StEntry(3, true)])
    ensures WrittenSt(TwoReferences().after, 16, true) == Ok([])
  {
    var before := TwoReferences().before;
    assert before[1..] == [Reference(0, 4, true)] && before[1..][1..] == [];
    assert [StEntry(3, true)] + [] == [StEntry(3, true)];
    assert WrittenSt(before[1..], 8, false) == Ok([StEntry(3, true)]);
    assert [StEntry(7, true)] + [StEntry(3, true)] == [StEntry(7, true), StEntry(3, true)];
  }

  lemma ReversedPositions()
    ensures Positions([1, 0], [0, 1]).Ok?
  {
    hide Position;
    assert [0, 1][1..] == [1] && [1][1..] == [];
    assert Positions([1, 0], [1]).Ok?;
  }
}
