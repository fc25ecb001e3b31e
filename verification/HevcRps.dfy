/** Reference picture sets in a slice segment header: syntax (sections 7.3.6.1 and 7.3.7 of H.265),
    derivation (sections 7.4.8 and 8.3.2) and the explicit set that replaces the original one
    (src/codec/hevc.cc, write_rps). */
module HevcRps {
  import opened Bits
  import opened Codes
  import opened BitIO
  import opened BitReading
  import opened Outcome
  import opened HevcReferences

  // ---------------------------------------------------------------- syntax

  /** delta_poc_sX_minus1 and used_by_curr_pic_sX_flag. */
  datatype StEntry = StEntry(delta: nat, used: bool)

  /** st_ref_pic_set( ) as a slice segment header can carry it. */
  datatype StRps =
    | FromSps(idx: nat)
    | Predicted(deltaIdx: nat, sign: bool, absDelta: nat, flags: seq<(bool, bool)>)
    | Explicit(negative: seq<StEntry>, positive: seq<StEntry>)

  /** A long-term entry; `msb` is delta_poc_msb_cycle_lt when present. */
  datatype LtEntry =
    | LtFromSps(idx: nat, msb: Msb)
    | LtExplicit(lsb: nat, used: bool, msb: Msb)

  datatype Msb = NoMsb | Msb(cycle: nat)

  datatype Rps = Rps(st: StRps, ltFromSps: seq<LtEntry>, lt: seq<LtEntry>)

  /** What the active SPS says about reference picture sets. */
  datatype RpsContext = RpsContext(stSets: nat, longTerm: bool, ltSets: nat, pocBits: nat)

  /** The SPS that this driver writes has no sets of its own. */
  ghost predicate Generated(c: RpsContext) {
    c.stSets == 0 && c.ltSets == 0
  }

  function StEntriesCode(es: seq<StEntry>): seq<bool> {
    if es == [] then [] else UeCode(es[0].delta) + ([es[0].used] + StEntriesCode(es[1..]))
  }

  function PredictionFlagsCode(flags: seq<(bool, bool)>): seq<bool> {
    if flags == [] then []
    else ([flags[0].0] + if flags[0].0 then [] else [flags[0].1]) + PredictionFlagsCode(flags[1..])
  }

  /** The part that VA counts in st_rps_bits. */
  function PredictedCode(st: StRps): seq<bool>
    requires st.Predicted?
  {
    [true] + UeCode(st.deltaIdx) + [st.sign] + UeCode(st.absDelta) + PredictionFlagsCode(st.flags)
  }

  function ExplicitCode(negative: seq<StEntry>, positive: seq<StEntry>): seq<bool> {
    UeCode(|negative|) + (UeCode(|positive|) + (StEntriesCode(negative) + StEntriesCode(positive)))
  }

  function StCode(c: RpsContext, st: StRps): seq<bool> {
    match st
    case FromSps(idx) => [true] + Fixed(idx, CeilLog2(c.stSets))
    case Predicted(_, _, _, _) => [false] + PredictedCode(st)
    case Explicit(negative, positive) =>
      [false] + (if c.stSets > 0 then [false] + ExplicitCode(negative, positive) else ExplicitCode(negative, positive))
  }

  function MsbCode(m: Msb): seq<bool> {
    match m
    case NoMsb => [false]
    case Msb(cycle) => [true] + UeCode(cycle)
  }

  function LtEntryCode(c: RpsContext, e: LtEntry): seq<bool> {
    match e
    case LtFromSps(idx, msb) => Fixed(idx, CeilLog2(c.ltSets)) + MsbCode(msb)
    case LtExplicit(lsb, used, msb) => Fixed(lsb, c.pocBits) + ([used] + MsbCode(msb))
  }

  function LtEntriesCode(c: RpsContext, es: seq<LtEntry>): seq<bool> {
    if es == [] then [] else LtEntryCode(c, es[0]) + LtEntriesCode(c, es[1..])
  }

  function LtCode(c: RpsContext, rps: Rps): seq<bool> {
    if !c.longTerm then []
    else
      var entries := UeCode(|rps.lt|) + LtEntriesCode(c, rps.ltFromSps + rps.lt);
      if c.ltSets > 0 then UeCode(|rps.ltFromSps|) + entries else entries
  }

  function RpsCode(c: RpsContext, rps: Rps): seq<bool> {
    StCode(c, rps.st) + LtCode(c, rps)
  }

  // ---------------------------------------------------------------- parsing under the generated SPS

  function ReadStEntries(s: seq<bool>, n: nat): Parsed<seq<StEntry>> {
    if n == 0 then Read([], s)
    else
      var (delta, s) :- ReadUe(s);
      var (used, s) :- ReadBit(s);
      var (es, s) :- ReadStEntries(s, n - 1);
      Read([StEntry(delta, used)] + es, s)
  }

  function ReadMsb(s: seq<bool>): Parsed<Msb> {
    var (present, s) :- ReadBit(s);
    if present then
      var (cycle, s) :- ReadUe(s);
      Read(Msb(cycle), s)
    else Read(NoMsb, s)
  }

  function ReadLtEntry(s: seq<bool>, pocBits: nat): Parsed<LtEntry> {
    var (lsb, s) :- ReadFixed(s, pocBits);
    var (used, s) :- ReadBit(s);
    var (msb, s) :- ReadMsb(s);
    Read(LtExplicit(lsb, used, msb), s)
  }

  function ReadLtEntries(s: seq<bool>, pocBits: nat, n: nat): Parsed<seq<LtEntry>> {
    if n == 0 then Read([], s)
    else
      var (e, s) :- ReadLtEntry(s, pocBits);
      var (es, s) :- ReadLtEntries(s, pocBits, n - 1);
      Read([e] + es, s)
  }

  /** With no sets in the SPS, only an explicit one can follow. */
  function ReadRps(s: seq<bool>, longTerm: bool, pocBits: nat): Parsed<Rps> {
    var (fromSps, s) :- ReadBit(s);
    if fromSps then Malformed
    else
      var (n, s) :- ReadUe(s);
      var (m, s) :- ReadUe(s);
      var (negative, s) :- ReadStEntries(s, n);
      var (positive, s) :- ReadStEntries(s, m);
      if longTerm then
        var (k, s) :- ReadUe(s);
        var (lt, s) :- ReadLtEntries(s, pocBits, k);
        Read(Rps(Explicit(negative, positive), [], lt), s)
      else Read(Rps(Explicit(negative, positive), [], []), s)
  }

  ghost predicate SmallEntries(es: seq<StEntry>) {
    forall i :: 0 <= i < |es| ==> es[i].delta < U32 - 1
  }

  ghost predicate SmallMsb(m: Msb) {
    m.Msb? ==> m.cycle < U32 - 1
  }

  ghost predicate SmallLt(c: RpsContext, es: seq<LtEntry>) {
    forall i :: 0 <= i < |es| ==>
      && SmallMsb(es[i].msb)
      && (es[i].LtExplicit? ==> es[i].lsb < Pow2(c.pocBits))
      && (es[i].LtFromSps? ==> es[i].idx < Pow2(CeilLog2(c.ltSets)))
  }

  lemma {:induction false} StEntriesRoundTrip(es: seq<StEntry>, rest: seq<bool>)
    requires SmallEntries(es)
    ensures ReadStEntries(StEntriesCode(es) + rest, |es|) == Read(es, rest)
  {
    hide UeCode, ReadUe;
    if es == [] {
      assert StEntriesCode(es) + rest == rest;
    } else {
      var tail := StEntriesCode(es[1..]);
      Peel3(UeCode(es[0].delta), [es[0].used], tail, rest);
      UeRoundTrip(es[0].delta, [es[0].used] + (tail + rest));
      StEntriesRoundTrip(es[1..], rest);
      assert es == [es[0]] + es[1..];
    }
  }

  lemma Peel3(a: seq<bool>, b: seq<bool>, c: seq<bool>, rest: seq<bool>)
    ensures (a + (b + c)) + rest == a + (b + (c + rest))
  {
  }

  lemma MsbRoundTrip(m: Msb, rest: seq<bool>)
    requires SmallMsb(m)
    ensures ReadMsb(MsbCode(m) + rest) == Read(m, rest)
  {
    hide UeCode, ReadUe;
    match m
    case NoMsb =>
    case Msb(cycle) =>
      Associative([true], UeCode(cycle), rest);
      UeRoundTrip(cycle, rest);
  }

  lemma LtEntryRoundTrip(c: RpsContext, e: LtEntry, rest: seq<bool>)
    requires e.LtExplicit? && SmallMsb(e.msb) && e.lsb < Pow2(c.pocBits)
    ensures ReadLtEntry(LtEntryCode(c, e) + rest, c.pocBits) == Read(e, rest)
  {
    hide Fixed, ReadFixed, MsbCode, ReadMsb, Pow2;
    FixedRoundTrip(e.lsb, c.pocBits, [e.used] + (MsbCode(e.msb) + rest));
    MsbRoundTrip(e.msb, rest);
    Peel3(Fixed(e.lsb, c.pocBits), [e.used], MsbCode(e.msb), rest);
  }

  lemma {:induction false} LtEntriesRoundTrip(c: RpsContext, es: seq<LtEntry>, rest: seq<bool>)
    requires SmallLt(c, es) && forall i :: 0 <= i < |es| ==> es[i].LtExplicit?
    ensures ReadLtEntries(LtEntriesCode(c, es) + rest, c.pocBits, |es|) == Read(es, rest)
  {
    hide LtEntryCode, ReadLtEntry, Pow2;
    if es == [] {
      assert LtEntriesCode(c, es) + rest == rest;
    } else {
      var tail := LtEntriesCode(c, es[1..]);
      LtEntryRoundTrip(c, es[0], tail + rest);
      LtEntriesRoundTrip(c, es[1..], rest);
      Associative(LtEntryCode(c, es[0]), tail, rest);
      assert es == [es[0]] + es[1..];
    }
  }

  /** The written form of an explicit set is read back, whatever follows it. */
  lemma RpsRoundTrip(c: RpsContext, rps: Rps, rest: seq<bool>)
    requires Generated(c) && rps.st.Explicit? && rps.ltFromSps == [] && (!c.longTerm ==> rps.lt == [])
    requires SmallEntries(rps.st.negative) && SmallEntries(rps.st.positive)
    requires |rps.st.negative| < U32 - 1 && |rps.st.positive| < U32 - 1 && |rps.lt| < U32 - 1
    requires SmallLt(c, rps.lt) && forall i :: 0 <= i < |rps.lt| ==> rps.lt[i].LtExplicit?
    ensures ReadRps(RpsCode(c, rps) + rest, c.longTerm, c.pocBits) == Read(rps, rest)
  {
    hide UeCode, ReadUe, StEntriesCode, ReadStEntries, LtEntriesCode, ReadLtEntries, RpsCode;
    var n, m := UeCode(|rps.st.negative|), UeCode(|rps.st.positive|);
    var ns, ps := StEntriesCode(rps.st.negative), StEntriesCode(rps.st.positive);
    var afterSt := if c.longTerm then UeCode(|rps.lt|) + (LtEntriesCode(c, rps.lt) + rest) else rest;
    ExplicitLayout(c, rps, rest);
    UeRoundTrip(|rps.st.negative|, m + (ns + (ps + afterSt)));
    UeRoundTrip(|rps.st.positive|, ns + (ps + afterSt));
    StEntriesRoundTrip(rps.st.negative, ps + afterSt);
    StEntriesRoundTrip(rps.st.positive, afterSt);
    if c.longTerm {
      UeRoundTrip(|rps.lt|, LtEntriesCode(c, rps.lt) + rest);
      LtEntriesRoundTrip(c, rps.lt, rest);
    }
  }

  lemma ExplicitLayout(c: RpsContext, rps: Rps, rest: seq<bool>)
    requires Generated(c) && rps.st.Explicit? && rps.ltFromSps == [] && (!c.longTerm ==> rps.lt == [])
    ensures RpsCode(c, rps) + rest
         == [false] + (UeCode(|rps.st.negative|) + (UeCode(|rps.st.positive|)
            + (StEntriesCode(rps.st.negative) + (StEntriesCode(rps.st.positive)
               + if c.longTerm then UeCode(|rps.lt|) + (LtEntriesCode(c, rps.lt) + rest) else rest))))
  {
    hide UeCode, StEntriesCode, LtEntriesCode;
    var n, m := UeCode(|rps.st.negative|), UeCode(|rps.st.positive|);
    var ns, ps := StEntriesCode(rps.st.negative), StEntriesCode(rps.st.positive);
    assert [] + rps.lt == rps.lt;
  }

  // ---------------------------------------------------------------- derivation

  /** A picture of the set, by its picture order count. */
  datatype Picture = Picture(poc: int, used: bool)

  /** DeltaPocS0 / DeltaPocS1 accumulate (7.4.8) and are added to the current count (8.3.2). */
  function DeriveSt(es: seq<StEntry>, base: int, ascending: bool): seq<Picture> {
    if es == [] then []
    else
      var poc := if ascending then base + (es[0].delta + 1) else base - (es[0].delta + 1);
      [Picture(poc, es[0].used)] + DeriveSt(es[1..], poc, ascending)
  }

  /** Entries coded with their most significant bits: DeltaPocMsbCycleLt accumulates from `cycle` on. */
  function DeriveLt(es: seq<LtEntry>, current: int, maxLsb: nat, cycle: nat): seq<Picture>
    requires maxLsb > 0
    requires forall i :: 0 <= i < |es| ==> es[i].LtExplicit? && es[i].msb.Msb?
  {
    if es == [] then []
    else
      var total := cycle + es[0].msb.cycle;
      [Picture(es[0].lsb + current - total * maxLsb - current % maxLsb, es[0].used)]
      + DeriveLt(es[1..], current, maxLsb, total)
  }

  /** NumPicTotalCurr (7-55) of an explicit set. */
  function TotalCurr(rps: Rps): nat
    requires rps.st.Explicit?
  {
    CountSt(rps.st.negative) + CountSt(rps.st.positive) + CountLt(rps.lt)
  }

  function CountSt(es: seq<StEntry>): nat {
    if es == [] then 0 else (if es[0].used then 1 else 0) + CountSt(es[1..])
  }

  function CountLt(es: seq<LtEntry>): nat {
    if es == [] then 0 else (if es[0].LtExplicit? && es[0].used then 1 else 0) + CountLt(es[1..])
  }

  // ---------------------------------------------------------------- the set that is written

  function WrittenSt(s: seq<Reference>, previous: int, ascending: bool): Result<seq<StEntry>> {
    if s == [] then Ok([])
    else
      var delta := if ascending then s[0].poc - previous else previous - s[0].poc;
      if !(0 < delta <= 32768) then Err(InvalidBuffer)
      else
        var rest :- WrittenSt(s[1..], s[0].poc, ascending);
        Ok([StEntry(delta - 1, s[0].used)] + rest)
  }

  /** MSB distance in units of MaxPicOrderCntLsb; the division is exact. */
  function Cycle(current: int, poc: int, maxLsb: nat): int
    requires maxLsb > 0
  {
    ((current - current % maxLsb) - (poc - poc % maxLsb)) / maxLsb
  }

  function WrittenLt(s: seq<Reference>, current: int, maxLsb: nat, previous: nat): Result<seq<LtEntry>>
    requires maxLsb > 0
  {
    if s == [] then Ok([])
    else
      var cycle := Cycle(current, s[0].poc, maxLsb);
      if !(previous <= cycle < 0x7fff_ffff) then Err(Unimplemented)
      else
        var rest :- WrittenLt(s[1..], current, maxLsb, cycle);
        Ok([LtExplicit(s[0].poc % maxLsb, s[0].used, Msb(cycle - previous))] + rest)
  }

  function WrittenRps(refs: References, current: int, longTerm: bool, pocBits: nat): Result<Rps> {
    var negative :- WrittenSt(refs.before, current, false);
    var positive :- WrittenSt(refs.after, current, true);
    if longTerm then
      var lt :- WrittenLt(refs.longTerm, current, Pow2(pocBits), 0);
      Ok(Rps(Explicit(negative, positive), [], lt))
    else if refs.longTerm != [] then Err(InvalidBuffer)
    else Ok(Rps(Explicit(negative, positive), [], []))
  }

  method WriteStEntries(b: BitWriter, s: seq<Reference>, current: int, ascending: bool) returns (r: Result<()>)
    requires b.Valid()
    modifies b
    ensures b.Valid()
    ensures match WrittenSt(s, current, ascending)
            case Ok(es) => r == Ok(()) && b.contents == old(b.contents) + StEntriesCode(es)
            case Err(e) => r == Err(e)
  {
    hide FromBytes, ByteBits, UeCode;
    var previous := current;
    ghost var all := WrittenSt(s, current, ascending);
    assert s[0..] == s;
    for i := 0 to |s|
      invariant b.Valid()
      invariant var rest := WrittenSt(s[i..], previous, ascending);
                if rest.Ok? then
                  all.Ok? && b.contents + StEntriesCode(rest.value) == old(b.contents) + StEntriesCode(all.value)
                else all == rest
    {
      var delta := if ascending then s[i].poc - previous else previous - s[i].poc;
      ghost var was, here := b.contents, s[i..];
      assert here[0] == s[i] && here[1..] == s[i + 1..];
      if !(0 < delta <= 32768) {
        return Err(InvalidBuffer);
      }
      ghost var rest := WrittenSt(s[i + 1..], s[i].poc, ascending);
      b.Ue(delta - 1);
      b.Bit(s[i].used);
      if rest.Ok? {
        EntryAppended(was, StEntry(delta - 1, s[i].used), rest.value);
      }
      previous := s[i].poc;
    }
    assert b.contents + [] == b.contents;
    r := Ok(());
  }

  lemma EntryAppended(was: seq<bool>, e: StEntry, rest: seq<StEntry>)
    ensures was + StEntriesCode([e] + rest) == (was + UeCode(e.delta) + [e.used]) + StEntriesCode(rest)
  {
    hide UeCode;
    assert ([e] + rest)[1..] == rest;
    LeftNest(was, UeCode(e.delta), [e.used], StEntriesCode(rest));
  }

  lemma LeftNest(w: seq<bool>, a: seq<bool>, b: seq<bool>, c: seq<bool>)
    ensures w + (a + (b + c)) == (w + a + b) + c
  {
  }

  method WriteLtEntries(b: BitWriter, s: seq<Reference>, current: int, pocBits: nat) returns (r: Result<()>)
    requires b.Valid()
    modifies b
    ensures b.Valid()
    ensures match WrittenLt(s, current, Pow2(pocBits), 0)
            case Ok(es) => r == Ok(())
                && b.contents == old(b.contents) + LtEntriesCode(RpsContext(0, true, 0, pocBits), es)
            case Err(e) => r == Err(e)
  {
    hide FromBytes, ByteBits, LtEntryCode;
    var maxLsb := Pow2(pocBits);
    hide Pow2;
    var currentMsb := current - current % maxLsb;
    var previous: nat := 0;
    ghost var c := RpsContext(0, true, 0, pocBits);
    ghost var all := WrittenLt(s, current, maxLsb, 0);
    assert s[0..] == s;
    for i := 0 to |s|
      invariant b.Valid() && previous < 0x7fff_ffff
      invariant var rest := WrittenLt(s[i..], current, maxLsb, previous);
                if rest.Ok? then
                  all.Ok? && b.contents + LtEntriesCode(c, rest.value) == old(b.contents) + LtEntriesCode(c, all.value)
                else all == rest
    {
      var lsb := s[i].poc % maxLsb;
      var cycle := (currentMsb - (s[i].poc - lsb)) / maxLsb;
      ghost var was, here := b.contents, s[i..];
      assert here[0] == s[i] && here[1..] == s[i + 1..];
      if !(cycle >= previous && cycle < 0x7fff_ffff) {
        return Err(Unimplemented);
      }
      WriteLtEntry(b, lsb, s[i].used, cycle - previous, pocBits);
      previous := cycle;
    }
    assert b.contents + [] == b.contents;
    r := Ok(());
  }

  method WriteLtEntry(b: BitWriter, lsb: nat, used: bool, cycle: nat, pocBits: nat)
    requires b.Valid() && cycle < U32
    modifies b
    ensures b.Valid()
    ensures b.contents == old(b.contents)
                        + LtEntryCode(RpsContext(0, true, 0, pocBits), LtExplicit(lsb, used, Msb(cycle)))
  {
    hide FromBytes, ByteBits, UeCode, Fixed;
    b.WriteBits(lsb, pocBits);
    b.Bit(used);
    b.Bit(true);
    b.Ue(cycle);
    LeftNest4(old(b.contents), Fixed(lsb, pocBits), [used], [true], UeCode(cycle));
  }

  lemma LeftNest4(w: seq<bool>, a: seq<bool>, b: seq<bool>, c: seq<bool>, d: seq<bool>)
    ensures w + (a + (b + (c + d))) == w + a + b + c + d
  {
  }

  /** Appends the explicit set of the references, or reports the entry that cannot be coded. */
  method WriteRps(b: BitWriter, refs: References, current: int, longTerm: bool, pocBits: nat) returns (r: Result<()>)
    requires b.Valid() && |refs.before| < U32 && |refs.after| < U32 && |refs.longTerm| < U32
    modifies b
    ensures b.Valid()
    ensures match WrittenRps(refs, current, longTerm, pocBits)
            case Ok(rps) =>
              r == Ok(()) && b.contents == old(b.contents) + RpsCode(RpsContext(0, longTerm, 0, pocBits), rps)
            case Err(e) => r == Err(e)
  {
    hide FromBytes, ByteBits, UeCode, Fixed, Pow2, StEntriesCode, LtEntriesCode, WrittenSt, WrittenLt;
    ghost var c := RpsContext(0, longTerm, 0, pocBits);
    b.Bit(false);
    b.Ue(|refs.before|);
    b.Ue(|refs.after|);
    var _ :- WriteStEntries(b, refs.before, current, false);
    var _ :- WriteStEntries(b, refs.after, current, true);
    if longTerm {
      b.Ue(|refs.longTerm|);
      var _ :- WriteLtEntries(b, refs.longTerm, current, pocBits);
    } else if refs.longTerm != [] {
      return Err(InvalidBuffer);
    }
    r := Ok(());
    ghost var rps := WrittenRps(refs, current, longTerm, pocBits).value;
    WrittenSizes(refs, current, longTerm, pocBits);
    ExplicitLayout(c, rps, []);
    assert RpsCode(c, rps) + [] == RpsCode(c, rps);
    hide RpsCode;
    if longTerm {
      LeftNest8(old(b.contents), [false], UeCode(|refs.before|), UeCode(|refs.after|), StEntriesCode(rps.st.negative),
                StEntriesCode(rps.st.positive), UeCode(|refs.longTerm|), LtEntriesCode(c, rps.lt));
    } else {
      LeftNest6(old(b.contents), [false], UeCode(|refs.before|), UeCode(|refs.after|), StEntriesCode(rps.st.negative),
                StEntriesCode(rps.st.positive));
    }
  }

  lemma LeftNest8(w: seq<bool>, a: seq<bool>, b: seq<bool>, c: seq<bool>, d: seq<bool>, e: seq<bool>, f: seq<bool>,
                  g: seq<bool>)
    ensures w + (a + (b + (c + (d + (e + (f + (g + []))))))) == w + a + b + c + d + e + f + g
  {
  }

  lemma LeftNest6(w: seq<bool>, a: seq<bool>, b: seq<bool>, c: seq<bool>, d: seq<bool>, e: seq<bool>)
    ensures w + (a + (b + (c + (d + (e + []))))) == w + a + b + c + d + e
  {
  }

  /** The written set has one entry per reference. */
  lemma WrittenSizes(refs: References, current: int, longTerm: bool, pocBits: nat)
    requires WrittenRps(refs, current, longTerm, pocBits).Ok?
    ensures var rps := WrittenRps(refs, current, longTerm, pocBits).value;
            && |rps.st.negative| == |refs.before| && |rps.st.positive| == |refs.after| && |rps.lt| == |refs.longTerm|
  {
    WrittenStShape(refs.before, current, false);
    WrittenStShape(refs.after, current, true);
    if longTerm {
      WrittenLtShape(refs.longTerm, current, pocBits, 0);
    }
  }

  lemma {:induction false} WrittenStShape(s: seq<Reference>, previous: int, ascending: bool)
    requires WrittenSt(s, previous, ascending).Ok?
    ensures var es := WrittenSt(s, previous, ascending).value;
            |es| == |s| && SmallEntries(es) && CountSt(es) == |UsedIndices(s)|
  {
    if s != [] {
      WrittenStShape(s[1..], s[0].poc, ascending);
    }
  }

  lemma {:induction false} WrittenLtShape(s: seq<Reference>, current: int, pocBits: nat, previous: nat)
    requires WrittenLt(s, current, Pow2(pocBits), previous).Ok?
    ensures var es := WrittenLt(s, current, Pow2(pocBits), previous).value;
            && |es| == |s| && SmallLt(RpsContext(0, true, 0, pocBits), es) && CountLt(es) == |UsedIndices(s)|
            && forall i :: 0 <= i < |es| ==> es[i].LtExplicit? && es[i].msb.Msb?
  {
    hide Pow2;
    if s != [] {
      WrittenLtShape(s[1..], current, pocBits, Cycle(current, s[0].poc, Pow2(pocBits)));
    }
  }

  /** Writing, then parsing under the generated SPS, returns the set. */
  lemma WrittenRpsParses(refs: References, current: int, longTerm: bool, pocBits: nat, rest: seq<bool>)
    requires |refs.before| < U32 - 1 && |refs.after| < U32 - 1 && |refs.longTerm| < U32 - 1
    requires WrittenRps(refs, current, longTerm, pocBits).Ok?
    ensures var rps := WrittenRps(refs, current, longTerm, pocBits).value;
            && ReadRps(RpsCode(RpsContext(0, longTerm, 0, pocBits), rps) + rest, longTerm, pocBits) == Read(rps, rest)
            && TotalCurr(rps) == refs.TotalCurr()
  {
    WrittenStShape(refs.before, current, false);
    WrittenStShape(refs.after, current, true);
    if longTerm {
      WrittenLtShape(refs.longTerm, current, pocBits, 0);
    }
    RpsRoundTrip(RpsContext(0, longTerm, 0, pocBits), WrittenRps(refs, current, longTerm, pocBits).value, rest);
  }

  // ---------------------------------------------------------------- meaning

  function Pictures(s: seq<Reference>): seq<Picture> {
    seq(|s|, i requires 0 <= i < |s| => Picture(s[i].poc, s[i].used))
  }

  lemma {:induction false} StMeaning(s: seq<Reference>, previous: int, ascending: bool)
    requires WrittenSt(s, previous, ascending).Ok?
    ensures DeriveSt(WrittenSt(s, previous, ascending).value, previous, ascending) == Pictures(s)
  {
    if s != [] {
      StMeaning(s[1..], s[0].poc, ascending);
      var es := WrittenSt(s, previous, ascending).value;
      assert es[1..] == WrittenSt(s[1..], s[0].poc, ascending).value;
      assert Pictures(s) == [Picture(s[0].poc, s[0].used)] + Pictures(s[1..]);
    }
  }

  /** Both msb parts are multiples, so the cycle is the difference of the quotients. */
  lemma CycleExact(current: int, poc: int, maxLsb: nat)
    requires maxLsb > 0
    ensures Cycle(current, poc, maxLsb) == current / maxLsb - poc / maxLsb
    ensures poc % maxLsb + current - Cycle(current, poc, maxLsb) * maxLsb - current % maxLsb == poc
  {
    var a, b := current / maxLsb, poc / maxLsb;
    assert current - current % maxLsb == a * maxLsb && poc - poc % maxLsb == b * maxLsb;
    assert a * maxLsb - b * maxLsb == (a - b) * maxLsb;
    QuotientRemainder((a - b) * maxLsb, maxLsb, a - b, 0);
  }

  lemma {:induction false} LtMeaning(s: seq<Reference>, current: int, maxLsb: nat, previous: nat)
    requires maxLsb > 0 && WrittenLt(s, current, maxLsb, previous).Ok?
    ensures var es := WrittenLt(s, current, maxLsb, previous).value;
            && (forall i :: 0 <= i < |es| ==> es[i].LtExplicit? && es[i].msb.Msb?)
            && DeriveLt(es, current, maxLsb, previous) == Pictures(s)
  {
    if s != [] {
      var cycle := Cycle(current, s[0].poc, maxLsb);
      CycleExact(current, s[0].poc, maxLsb);
      hide Cycle;
      LtMeaning(s[1..], current, maxLsb, cycle);
      var es := WrittenLt(s, current, maxLsb, previous).value;
      assert es[1..] == WrittenLt(s[1..], current, maxLsb, cycle).value;
      assert Pictures(s) == [Picture(s[0].poc, s[0].used)] + Pictures(s[1..]);
    }
  }

  /** What a decoder derives from the written set is exactly VA's reference graph. */
  lemma RpsMeaning(refs: References, current: int, longTerm: bool, pocBits: nat)
    requires WrittenRps(refs, current, longTerm, pocBits).Ok?
    ensures var rps := WrittenRps(refs, current, longTerm, pocBits).value;
            && DeriveSt(rps.st.negative, current, false) == Pictures(refs.before)
            && DeriveSt(rps.st.positive, current, true) == Pictures(refs.after)
            && (forall i :: 0 <= i < |rps.lt| ==> rps.lt[i].LtExplicit? && rps.lt[i].msb.Msb?)
            && DeriveLt(rps.lt, current, Pow2(pocBits), 0) == Pictures(refs.longTerm)
  {
    StMeaning(refs.before, current, false);
    StMeaning(refs.after, current, true);
    if longTerm {
      LtMeaning(refs.longTerm, current, Pow2(pocBits), 0);
    }
  }

  // ---------------------------------------------------------------- when a set can be written

  /** Distance from the previous entry, or from the current picture. */
  function GapAt(s: seq<Reference>, current: int, ascending: bool, i: nat): int
    requires i < |s|
  {
    var from := if i == 0 then current else s[i - 1].poc;
    if ascending then s[i].poc - from else from - s[i].poc
  }

  ghost predicate CloseGaps(s: seq<Reference>, current: int, ascending: bool) {
    forall i: nat :: i < |s| ==> GapAt(s, current, ascending, i) <= 32768
  }

  lemma {:induction false} StWritable(s: seq<Reference>, previous: int, ascending: bool)
    requires Strict(s, ascending)
    requires s != [] ==> if ascending then previous < s[0].poc else s[0].poc < previous
    ensures WrittenSt(s, previous, ascending).Ok? <==> CloseGaps(s, previous, ascending)
  {
    if s != [] {
      assert Strict(s[1..], ascending);
      if |s| > 1 {
        assert Key(s[0], ascending) < Key(s[1], ascending);
      }
      StWritable(s[1..], s[0].poc, ascending);
      GapsCons(s, previous, ascending);
    }
  }

  lemma GapsCons(s: seq<Reference>, previous: int, ascending: bool)
    requires s != []
    ensures CloseGaps(s, previous, ascending) <==>
            && GapAt(s, previous, ascending, 0) <= 32768
            && CloseGaps(s[1..], s[0].poc, ascending)
  {
    var t := s[1..];
    assert forall i: nat :: i < |t| ==> GapAt(t, s[0].poc, ascending, i) == GapAt(s, previous, ascending, i + 1);
    if CloseGaps(t, s[0].poc, ascending) {
      forall i: nat | 1 <= i < |s|
        ensures GapAt(s, previous, ascending, i) <= 32768
      {
        assert GapAt(t, s[0].poc, ascending, i - 1) <= 32768;
      }
    }
  }

  /** Descending counts have ascending cycles: only the first entry can be out of order. */
  lemma {:induction false} LtWritable(s: seq<Reference>, current: int, maxLsb: nat, previous: nat)
    requires maxLsb >= 16 && Strict(s, false)
    requires -0x8000_0000 <= current < 0x8000_0000
    requires forall r :: r in s ==> -0x8000_0000 <= r.poc < 0x8000_0000
    ensures WrittenLt(s, current, maxLsb, previous).Ok?
       <==> (s == [] || previous <= current / maxLsb - s[0].poc / maxLsb)
  {
    if s != [] {
      var cycle := Cycle(current, s[0].poc, maxLsb);
      CycleExact(current, s[0].poc, maxLsb);
      hide Cycle;
      assert s[0] in s;
      if previous <= cycle {
        assert forall r :: r in s[1..] ==> r in s;
        LtWritable(s[1..], current, maxLsb, cycle);
        if |s| > 1 {
          assert Key(s[0], false) < Key(s[1], false);
          QuotientOrder(s[1].poc, s[0].poc, maxLsb);
        }
      }
    }
  }

  lemma QuotientOrder(a: int, b: int, m: nat)
    requires m > 0 && a <= b
    ensures a / m <= b / m
  {
    assert b == m * (b / m) + b % m && a == m * (a / m) + a % m;
    MultipleBounds(a / m - b / m, m);
  }

  /** For the collected references every short-term delta is positive, and writing succeeds exactly when
      the gaps are small, the first long-term picture is not in a later MSB cycle than the current one,
      and there is no long-term picture without the SPS flag. */
  lemma RpsWritable(frames: seq<VaReference>, current: int, longTerm: bool, pocBits: nat)
    requires Distinct(frames, current, |frames|) && pocBits >= 4
    requires -0x8000_0000 <= current < 0x8000_0000
    requires forall i :: 0 <= i < |frames| ==> -0x8000_0000 <= frames[i].poc < 0x8000_0000
    ensures var refs := Collected(frames, current);
            (WrittenRps(refs, current, longTerm, pocBits).Ok?
             <==> && CloseGaps(refs.before, current, false) && CloseGaps(refs.after, current, true)
                  && FirstInReach(refs.longTerm, current, longTerm, Pow2(pocBits)))
  {
    var refs := Collected(frames, current);
    CollectedKinds(frames, current);
    hide Collected, WrittenSt, WrittenLt, CloseGaps;
    Neighbours(frames, current, refs);
    StWritable(refs.before, current, false);
    StWritable(refs.after, current, true);
    assert Pow2(4) == 16;
    Pow2Monotone(4, pocBits);
    hide Pow2;
    LtWritable(refs.longTerm, current, Pow2(pocBits), 0);
  }

  ghost predicate FirstInReach(s: seq<Reference>, current: int, longTerm: bool, maxLsb: nat)
    requires maxLsb > 0
  {
    s == [] || (longTerm && s[0].poc / maxLsb <= current / maxLsb)
  }

  lemma Neighbours(frames: seq<VaReference>, current: int, refs: References)
    requires Distinct(frames, current, |frames|)
    requires Exactly(frames, current, Before, refs.before, false)
    requires Exactly(frames, current, After, refs.after, true)
    requires Exactly(frames, current, LongTerm, refs.longTerm, false)
    requires forall i :: 0 <= i < |frames| ==> -0x8000_0000 <= frames[i].poc < 0x8000_0000
    ensures refs.before != [] ==> refs.before[0].poc < current
    ensures refs.after != [] ==> current < refs.after[0].poc
    ensures forall r :: r in refs.longTerm ==> -0x8000_0000 <= r.poc < 0x8000_0000
  {
    if refs.before != [] {
      assert Stands(frames, current, Before, refs.before[0]);
    }
    if refs.after != [] {
      assert Stands(frames, current, After, refs.after[0]);
    }
    forall r | r in refs.longTerm
      ensures -0x8000_0000 <= r.poc < 0x8000_0000
    {
      assert Stands(frames, current, LongTerm, r);
    }
  }
}
