/** Slice segment headers (section 7.3.6.1 of H.265) and the rewriter that moves one from the stream's
    parameter sets to the generated ones (src/codec/hevc.cc, rewrite_slice). */
module HevcSlice {
  import opened Bits
  import opened Codes
  import opened BitReading
  import opened HevcReferences
  import opened HevcRps

  // ---------------------------------------------------------------- VA's parameters

  datatype VaPicture = VaPicture(
    poc: int, frames: seq<VaReference>,
    minCbLog2Minus3: nat, diffCbLog2: nat, width: nat, height: nat,
    dependentEnabled: bool, extraBits: nat, outputFlagPresent: bool, separatePlanes: bool,
    pocLsbMinus4: nat, stSets: nat, stRpsBits: nat, longTermPresent: bool, ltSets: nat,
    tmvpEnabled: bool, saoEnabled: bool, default0Minus1: nat, default1Minus1: nat, modificationPresent: bool)

  datatype VaSlice = VaSlice(dataOffset: nat, address: nat, sliceType: nat, list0: seq<nat>, list1: seq<nat>) {
    function RefPicList(l: nat): seq<nat> {
      if l == 0 then list0 else list1
    }
  }

  /** The arrays and field widths of the VA structures. */
  ghost predicate VaShaped(slice: VaSlice, p: VaPicture) {
    && |slice.list0| == 15 && |slice.list1| == 15 && |p.frames| == 15
    && CeilLog2(PicSizeInCtbs(p)) <= 32 && CeilLog2(p.stSets) <= 32 && CeilLog2(p.ltSets) <= 32
    && p.pocLsbMinus4 <= 12
  }

  function PicSizeInCtbs(p: VaPicture): nat {
    var ctb := Pow2(p.minCbLog2Minus3 + 3 + p.diffCbLog2);
    ((p.width + ctb - 1) / ctb) * ((p.height + ctb - 1) / ctb)
  }

  /** `n` blocks of `ctb` samples reach over `size` samples, and one less does not. */
  ghost predicate Covers(n: nat, size: nat, ctb: nat) {
    (n - 1) * ctb < size <= n * ctb
  }

  /** The picture is covered by rows and columns of coding tree blocks, the last of each at least in part;
      there is exactly one way to do that. */
  lemma PicSizeCovers(p: VaPicture, ctb: nat)
    requires ctb == Pow2(p.minCbLog2Minus3 + 3 + p.diffCbLog2)
    ensures exists w: nat :: Covers(w, p.width, ctb)
    ensures exists h: nat :: Covers(h, p.height, ctb)
    ensures forall w: nat, h: nat ::
              Covers(w, p.width, ctb) && Covers(h, p.height, ctb) ==> PicSizeInCtbs(p) == w * h
  {
    RoundedUp(p.width, ctb);
    RoundedUp(p.height, ctb);
    var w: nat, h: nat := (p.width + ctb - 1) / ctb, (p.height + ctb - 1) / ctb;
    assert Covers(w, p.width, ctb) && Covers(h, p.height, ctb);
  }

  lemma RoundedUp(size: nat, ctb: nat)
    requires ctb > 0
    ensures forall n: nat :: Covers(n, size, ctb) <==> n == (size + ctb - 1) / ctb
  {
    var q, r := (size + ctb - 1) / ctb, (size + ctb - 1) % ctb;
    assert size + ctb - 1 == q * ctb + r;
    assert (q - 1) * ctb == q * ctb - ctb;
    forall n: nat | n != q
      ensures !Covers(n, size, ctb)
    {
      if n < q {
        assert n * ctb <= (q - 1) * ctb;
      } else {
        assert q * ctb <= (n - 1) * ctb;
      }
    }
  }

  // ---------------------------------------------------------------- syntax

  /** What the parameter sets and the NAL unit type say about a slice segment header. */
  datatype Context = Context(
    irap: bool, idr: bool, dependentEnabled: bool, addressBits: nat, extraBits: nat, outputFlagPresent: bool,
    rps: RpsContext, tmvp: bool, sao: bool, default0: nat, default1: nat, modification: bool)

  /** The stream's own parameter sets, as VA reports them. */
  function Original(p: VaPicture, nalType: nat): Context {
    Context(16 <= nalType <= 23, nalType == 19 || nalType == 20, p.dependentEnabled,
            CeilLog2(PicSizeInCtbs(p)), p.extraBits, p.outputFlagPresent,
            RpsContext(p.stSets, p.longTermPresent, p.ltSets, p.pocLsbMinus4 + 4),
            p.tmvpEnabled, p.saoEnabled, p.default0Minus1 + 1, p.default1Minus1 + 1, p.modificationPresent)
  }

  function AtMost14(n: nat): nat {
    if n <= 14 then n else 14
  }

  /** The parameter sets that hevc_sps and hevc_pps write. */
  function GeneratedFor(p: VaPicture, nalType: nat): Context {
    Original(p, nalType).(
      rps := RpsContext(0, p.longTermPresent, 0, p.pocLsbMinus4 + 4),
      default0 := AtMost14(p.default0Minus1) + 1,
      default1 := AtMost14(p.default1Minus1) + 1,
      modification := true)
  }

  /** num_ref_idx_lX_active_minus1, when overridden. */
  datatype Counts = Inherited | Override(minus0: nat, minus1: nat)

  /** list_entry_lX, when ref_pic_list_modification_flag_lX is set. */
  datatype Modification = Initial | Entries(es: seq<nat>)

  /** The part of an independent slice segment header up to the list modification; elements that are
      absent have the value inferred for them. */
  datatype Body = Body(
    reserved: seq<bool>, sliceType: nat, picOutput: bool,
    pocLsb: nat, rps: Rps, tmvp: bool,
    saoLuma: bool, saoChroma: bool, counts: Counts, mod0: Modification, mod1: Modification)

  datatype MaybeBody = NoBody | SomeBody(body: Body)

  datatype Header = Header(
    first: bool, noOutputOfPriorPics: bool, ppsId: nat, dependent: bool, address: nat, body: MaybeBody)

  const P_SLICE: nat := 1
  const B_SLICE: nat := 0
  const I_SLICE: nat := 2

  const NO_RPS: Rps := Rps(Explicit([], []), [], [])

  function Active(c: Context, counts: Counts, l: nat): nat {
    match counts
    case Inherited => if l == 0 then c.default0 else c.default1
    case Override(minus0, minus1) => if l == 0 then minus0 + 1 else minus1 + 1
  }

  function Flag(present: bool, value: bool): seq<bool> {
    if present then [value] else []
  }

  function AddressCode(c: Context, h: Header): seq<bool> {
    if h.first then [] else Flag(c.dependentEnabled, h.dependent) + Fixed(h.address, c.addressBits)
  }

  function PreambleCode(c: Context, h: Header): seq<bool> {
    [h.first] + (Flag(c.irap, h.noOutputOfPriorPics) + (UeCode(h.ppsId) + AddressCode(c, h)))
  }

  function TypeCode(c: Context, b: Body): seq<bool> {
    b.reserved + (UeCode(b.sliceType) + Flag(c.outputFlagPresent, b.picOutput))
  }

  function TimingCode(c: Context, b: Body): seq<bool> {
    if c.idr then [] else Fixed(b.pocLsb, c.rps.pocBits) + (RpsCode(c.rps, b.rps) + Flag(c.tmvp, b.tmvp))
  }

  function CountsCode(b: Body): seq<bool> {
    match b.counts
    case Inherited => [false]
    case Override(minus0, minus1) =>
      [true] + (if b.sliceType == B_SLICE then UeCode(minus0) + UeCode(minus1) else UeCode(minus0))
  }

  function EntriesCode(es: seq<nat>, bits: nat): seq<bool> {
    if es == [] then [] else Fixed(es[0], bits) + EntriesCode(es[1..], bits)
  }

  function ModCode(c: Context, total: nat, m: Modification): seq<bool> {
    if !c.modification || total <= 1 then []
    else
      match m
      case Initial => [false]
      case Entries(es) => [true] + EntriesCode(es, CeilLog2(total))
  }

  function SaoCode(c: Context, b: Body): seq<bool> {
    if c.sao then [b.saoLuma, b.saoChroma] else []
  }

  function ModsCode(c: Context, b: Body, total: nat): seq<bool> {
    if b.sliceType == B_SLICE then ModCode(c, total, b.mod0) + ModCode(c, total, b.mod1) else ModCode(c, total, b.mod0)
  }

  function ListsCode(c: Context, b: Body, total: nat): seq<bool> {
    if b.sliceType == I_SLICE then [] else CountsCode(b) + ModsCode(c, b, total)
  }

  function BodyCode(c: Context, b: Body, total: nat): seq<bool> {
    TypeCode(c, b) + (TimingCode(c, b) + (SaoCode(c, b) + ListsCode(c, b, total)))
  }

  /** The header up to the list modification; `total` is NumPicTotalCurr. */
  function HeaderCode(c: Context, h: Header, total: nat): seq<bool> {
    PreambleCode(c, h) + (match h.body case NoBody => [] case SomeBody(b) => BodyCode(c, b, total))
  }

  // ---------------------------------------------------------------- parsing under the generated parameter sets

  function ReadFlag(present: bool, absent: bool, s: seq<bool>): Parsed<bool> {
    if present then ReadBit(s) else Read(absent, s)
  }

  function ReadCounts(s: seq<bool>, sliceType: nat): Parsed<Counts> {
    var (override, s) :- ReadBit(s);
    if !override then Read(Inherited, s)
    else
      var (minus0, s) :- ReadUe(s);
      if sliceType == B_SLICE then
        var (minus1, s) :- ReadUe(s);
        Read(Override(minus0, minus1), s)
      else Read(Override(minus0, 0), s)
  }

  function ReadEntries(s: seq<bool>, bits: nat, n: nat): Parsed<seq<nat>> {
    if n == 0 then Read([], s)
    else
      var (e, s) :- ReadFixed(s, bits);
      var (es, s) :- ReadEntries(s, bits, n - 1);
      Read([e] + es, s)
  }

  function ReadMod(c: Context, s: seq<bool>, total: nat, active: nat): Parsed<Modification> {
    if !c.modification || total <= 1 then Read(Initial, s)
    else
      var (modified, s) :- ReadBit(s);
      if !modified then Read(Initial, s)
      else
        var (es, s) :- ReadEntries(s, CeilLog2(total), active);
        Read(Entries(es), s)
  }

  function ReadTiming(c: Context, s: seq<bool>): Parsed<(nat, Rps, bool)> {
    if c.idr then Read((0, NO_RPS, false), s)
    else
      var (lsb, s) :- ReadFixed(s, c.rps.pocBits);
      var (rps, s) :- ReadRps(s, c.rps.longTerm, c.rps.pocBits);
      var (tmvp, s) :- ReadFlag(c.tmvp, false, s);
      Read((lsb, rps, tmvp), s)
  }

  function ReadSao(c: Context, s: seq<bool>): Parsed<(bool, bool)> {
    var (luma, s) :- ReadFlag(c.sao, false, s);
    var (chroma, s) :- ReadFlag(c.sao, false, s);
    Read((luma, chroma), s)
  }

  function ReadMods(c: Context, s: seq<bool>, sliceType: nat, total: nat, counts: Counts)
    : Parsed<(Modification, Modification)>
  {
    var (mod0, s) :- ReadMod(c, s, total, Active(c, counts, 0));
    if sliceType == B_SLICE then
      var (mod1, s) :- ReadMod(c, s, total, Active(c, counts, 1));
      Read((mod0, mod1), s)
    else Read((mod0, Initial), s)
  }

  function ReadLists(c: Context, s: seq<bool>, sliceType: nat, total: nat)
    : Parsed<(Counts, Modification, Modification)>
  {
    if sliceType == I_SLICE then Read((Inherited, Initial, Initial), s)
    else
      var (counts, s) :- ReadCounts(s, sliceType);
      var (mods, s) :- ReadMods(c, s, sliceType, total, counts);
      Read((counts, mods.0, mods.1), s)
  }

  function ReadType(c: Context, s: seq<bool>): Parsed<(seq<bool>, nat, bool)> {
    if |s| < c.extraBits then Malformed
    else
      var (sliceType, rest) :- ReadUe(s[c.extraBits..]);
      var (output, rest) :- ReadFlag(c.outputFlagPresent, true, rest);
      Read((s[..c.extraBits], sliceType, output), rest)
  }

  function ReadBody(c: Context, s: seq<bool>): Parsed<Body> {
    var (t, s) :- ReadType(c, s);
    var (timing, s) :- ReadTiming(c, s);
    var (sao, s) :- ReadSao(c, s);
    if !timing.1.st.Explicit? then Malformed
    else
      var (lists, s) :- ReadLists(c, s, t.1, TotalCurr(timing.1));
      Read(Body(t.0, t.1, t.2, timing.0, timing.1, timing.2, sao.0, sao.1, lists.0, lists.1, lists.2), s)
  }

  function ReadAddress(c: Context, s: seq<bool>, first: bool): Parsed<(bool, nat)> {
    if first then Read((false, 0), s)
    else
      var (dependent, s) :- ReadFlag(c.dependentEnabled, false, s);
      var (address, s) :- ReadFixed(s, c.addressBits);
      Read((dependent, address), s)
  }

  /** Parses the header up to the list modification. */
  function ReadHeader(c: Context, s: seq<bool>): Parsed<Header> {
    var (first, s) :- ReadBit(s);
    var (noOutput, s) :- ReadFlag(c.irap, false, s);
    var (ppsId, s) :- ReadUe(s);
    var (a, s) :- ReadAddress(c, s, first);
    if a.0 then Read(Header(first, noOutput, ppsId, true, a.1, NoBody), s)
    else
      var (b, s) :- ReadBody(c, s);
      Read(Header(first, noOutput, ppsId, false, a.1, SomeBody(b)), s)
  }

  // ---------------------------------------------------------------- conforming headers

  ghost predicate ConformingMod(c: Context, m: Modification, total: nat, active: nat, used: bool) {
    m.Entries? ==>
      && used && c.modification && total > 1
      && |m.es| == active
      && forall i :: 0 <= i < |m.es| ==> m.es[i] < Pow2(CeilLog2(total))
  }

  ghost predicate ConformingRps(c: RpsContext, rps: Rps) {
    && |rps.ltFromSps| + |rps.lt| <= 16 && |rps.ltFromSps| <= c.ltSets
    && (!c.longTerm ==> rps.ltFromSps == [] && rps.lt == [])
    && SmallLt(c, rps.ltFromSps) && SmallLt(c, rps.lt)
    && (forall i :: 0 <= i < |rps.ltFromSps| ==> rps.ltFromSps[i].LtFromSps?)
    && (forall i :: 0 <= i < |rps.lt| ==> rps.lt[i].LtExplicit?)
    && match rps.st
       case FromSps(idx) => c.stSets > 0 && idx < Pow2(CeilLog2(c.stSets))
       case Predicted(deltaIdx, _, absDelta, _) => c.stSets > 0 && deltaIdx < U32 - 1 && absDelta < U32 - 1
       case Explicit(negative, positive) =>
         |negative| + |positive| <= 16 && SmallEntries(negative) && SmallEntries(positive)
  }

  ghost predicate ConformingCounts(b: Body) {
    match b.counts
    case Inherited => true
    case Override(minus0, minus1) =>
      && b.sliceType != I_SLICE && minus0 < U32 - 1 && minus1 < U32 - 1
      && (b.sliceType != B_SLICE ==> minus1 == 0)
  }

  ghost predicate ConformingBody(c: Context, b: Body, total: nat) {
    && |b.reserved| == c.extraBits
    && b.sliceType <= 2
    && (!c.outputFlagPresent ==> b.picOutput)
    && b.pocLsb < Pow2(c.rps.pocBits)
    && (if c.idr then b.sliceType == I_SLICE && b.pocLsb == 0 && b.rps == NO_RPS && !b.tmvp
        else ConformingRps(c.rps, b.rps))
    && (!c.tmvp ==> !b.tmvp)
    && (!c.sao ==> !b.saoLuma && !b.saoChroma)
    && ConformingCounts(b)
    && ConformingMod(c, b.mod0, total, Active(c, b.counts, 0), b.sliceType != I_SLICE)
    && ConformingMod(c, b.mod1, total, Active(c, b.counts, 1), b.sliceType == B_SLICE)
  }

  ghost predicate ConformingHeader(c: Context, h: Header, total: nat) {
    && h.ppsId < U32 - 1
    && (!c.irap ==> !h.noOutputOfPriorPics)
    && (h.first ==> !h.dependent && h.address == 0)
    && (!c.dependentEnabled ==> !h.dependent)
    && h.address < Pow2(c.addressBits)
    && (h.dependent <==> h.body.NoBody?)
    && (h.body.SomeBody? ==> ConformingBody(c, h.body.body, total))
  }
}
