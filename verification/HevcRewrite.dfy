/** The slice header rewriter (src/codec/hevc.cc, rewrite_slice) as a function on the bits of the NAL unit
    after its two header bytes. A `Cursor` is the writer's output, the position from which verbatim copying
    resumes, and the reader's position. */
module HevcRewrite {
  import opened Bits
  import opened Codes
  import opened BitIO
  import opened BitReading
  import opened Outcome
  import opened HevcReferences
  import opened HevcRps
  import opened HevcSlice

  datatype Cursor = Cursor(w: seq<bool>, copied: nat, pos: nat) {
    /** copy_to */
    function Copied(s: seq<bool>): Cursor {
      Cursor(w + Window(s, copied, pos), pos, pos)
    }

    function Skip(n: nat): Cursor {
      this.(pos := pos + n)
    }
  }

  function Preamble(s: seq<bool>, nalType: nat): Cursor {
    var w := [BitAt(s, 0)];
    var (w, pos) := if 16 <= nalType <= 23 then (w + [false], 2) else (w, 1);
    var next := UeAt(s, pos).1;
    Cursor(w + UeCode(0), next, next)
  }

  /** The position after the address, and whether the slice segment is a dependent one. */
  function Address(s: seq<bool>, cur: Cursor, slice: VaSlice, p: VaPicture): Result<(Cursor, bool)> {
    if BitAt(s, 0) then Ok((cur, false))
    else
      var dependent := p.dependentEnabled && BitAt(s, cur.pos);
      var cur := if p.dependentEnabled then cur.Skip(1) else cur;
      var bits := CeilLog2(PicSizeInCtbs(p));
      if BitsAt(s, cur.pos, bits) != slice.address then Err(InvalidBuffer) else Ok((cur.Skip(bits), dependent))
  }

  function Type(s: seq<bool>, cur: Cursor, slice: VaSlice, p: VaPicture): Result<Cursor> {
    var (sliceType, pos) := UeAt(s, cur.pos + p.extraBits);
    if sliceType > 2 || sliceType != slice.sliceType then Err(InvalidBuffer)
    else
      var cur := cur.(pos := pos);
      var cur := if p.outputFlagPresent then
                   var c := cur.Copied(s);
                   Cursor(c.w + [true], c.pos + 1, c.pos + 1)
                 else cur;
      Ok(if p.separatePlanes then cur.Skip(2) else cur)
  }

  function Add32(a: nat, b: nat): nat {
    if a + b >= U32 then a + b - U32 else a + b
  }

  /** Skipping `n` pairs of a delta and a flag. */
  function SkipPairs(s: seq<bool>, pos: nat, n: nat): nat
    decreases n
  {
    if n == 0 then pos else SkipPairs(s, UeAt(s, pos).1 + 1, n - 1)
  }

  function SkipSt(s: seq<bool>, pos: nat, p: VaPicture): Result<nat> {
    if BitAt(s, pos) then
      if p.stSets > 0 then Ok(pos + 1 + CeilLog2(p.stSets)) else Err(InvalidBuffer)
    else if p.stSets > 0 && BitAt(s, pos + 1) then
      if p.stRpsBits > 0 then Ok(pos + 1 + p.stRpsBits) else Err(InvalidBuffer)
    else
      var (n, pos) := UeAt(s, if p.stSets > 0 then pos + 2 else pos + 1);
      var (m, pos) := UeAt(s, pos);
      if Add32(n, m) > 16 then Err(InvalidBuffer) else Ok(SkipPairs(s, pos, Add32(n, m)))
  }

  function SkipMsb(s: seq<bool>, pos: nat): nat {
    if BitAt(s, pos) then UeAt(s, pos + 1).1 else pos + 1
  }

  /** Skipping `fromSps` entries that index the SPS and then `n` explicit ones. */
  function SkipLtEntries(s: seq<bool>, pos: nat, p: VaPicture, fromSps: nat, n: nat): nat
    decreases fromSps + n
  {
    if fromSps > 0 then SkipLtEntries(s, SkipMsb(s, pos + CeilLog2(p.ltSets)), p, fromSps - 1, n)
    else if n > 0 then SkipLtEntries(s, SkipMsb(s, pos + p.pocLsbMinus4 + 4 + 1), p, 0, n - 1)
    else pos
  }

  function SkipLt(s: seq<bool>, pos: nat, p: VaPicture): Result<nat> {
    if !p.longTermPresent then Ok(pos)
    else
      var (ns, pos) := if p.ltSets > 0 then UeAt(s, pos) else (0, pos);
      var (np, pos) := UeAt(s, pos);
      var total := Add32(ns, np);
      var fromSps := if ns < total then ns else total;
      if ns > p.ltSets || total > 16 then Err(InvalidBuffer)
      else Ok(SkipLtEntries(s, pos, p, fromSps, total - fromSps))
  }

  function Timing(s: seq<bool>, cur: Cursor, nalType: nat, p: VaPicture, refs: References): Result<Cursor> {
    if nalType == 19 || nalType == 20 then Ok(cur)
    else
      var cur := cur.Skip(p.pocLsbMinus4 + 4).Copied(s);
      var pos :- SkipSt(s, cur.pos, p);
      var pos :- SkipLt(s, pos, p);
      var rps :- WrittenRps(refs, p.poc, p.longTermPresent, p.pocLsbMinus4 + 4);
      var w := cur.w + RpsCode(RpsContext(0, p.longTermPresent, 0, p.pocLsbMinus4 + 4), rps);
      Ok(Cursor(w, pos, if p.tmvpEnabled then pos + 1 else pos))
  }

  /** num_ref_idx_active_override_flag and what it carries: both active counts and the position. */
  function ReadActive(s: seq<bool>, pos: nat, p: VaPicture, sliceType: nat): (nat, nat, nat) {
    if !BitAt(s, pos) then (p.default0Minus1 + 1, p.default1Minus1 + 1, pos + 1)
    else
      var (n0, pos) := UeAt(s, pos + 1);
      if sliceType == B_SLICE then
        var (n1, pos) := UeAt(s, pos);
        (Add32(n0, 1), Add32(n1, 1), pos)
      else (Add32(n0, 1), p.default1Minus1 + 1, pos)
  }

  function Position(list: seq<nat>, x: nat): (i: nat)
    ensures i <= |list| && (i < |list| ==> list[i] == x)
    ensures i == |list| <==> x !in list
  {
    if list == [] then 0 else if list[0] == x then 0 else 1 + Position(list[1..], x)
  }

  /** VA's list entries as positions in the initial list. */
  function Positions(list: seq<nat>, va: seq<nat>): Result<seq<nat>> {
    if va == [] then Ok([])
    else if va[0] !in list then Err(InvalidBuffer)
    else
      var rest :- Positions(list, va[1..]);
      Ok([Position(list, va[0])] + rest)
  }

  /** Skipping the original modification of a list. */
  function ModificationEnd(s: seq<bool>, pos: nat, p: VaPicture, total: nat, count: nat): nat {
    if p.modificationPresent && total > 1 then
      if BitAt(s, pos) then pos + 1 + count * CeilLog2(total) else pos + 1
    else pos
  }

  /** One list: the original modification is skipped, VA's list is written. */
  function List(s: seq<bool>, w: seq<bool>, pos: nat, p: VaPicture, total: nat, count: nat, list: seq<nat>,
                va: seq<nat>): Result<(seq<bool>, nat)>
    requires |va| == 15
  {
    if count > 15 then Err(InvalidBuffer)
    else
      var pos := ModificationEnd(s, pos, p, total, count);
      var es :- Positions(list, va[..count]);
      Ok((if total > 1 then w + ([true] + EntriesCode(es, CeilLog2(total))) else w, pos))
  }

  function Lists(s: seq<bool>, cur: Cursor, slice: VaSlice, p: VaPicture, refs: References): Result<Cursor>
    requires VaShaped(slice, p)
  {
    var cur := if p.saoEnabled then cur.Skip(2) else cur;
    if slice.sliceType == I_SLICE then Ok(cur)
    else
      var (n0, n1, pos) := ReadActive(s, cur.pos, p, slice.sliceType);
      var total := refs.TotalCurr();
      if !(0 < total <= 16) then Err(InvalidBuffer)
      else
        var cur := cur.(pos := pos).Copied(s);
        var (w, pos) :- List(s, cur.w, pos, p, total, n0, refs.List(0), slice.list0);
        if slice.sliceType == B_SLICE then
          var (w, pos) :- List(s, w, pos, p, total, n1, refs.List(1), slice.list1);
          Ok(Cursor(w, pos, pos))
        else Ok(Cursor(w, pos, pos))
  }

  /** The last one bit before the slice data, at most eight bits back and not before `parsed`. */
  function Alignment(s: seq<bool>, parsed: nat, data: nat, from: nat): Result<nat> {
    if from <= parsed || data - from >= 8 then Err(InvalidBuffer)
    else if BitAt(s, from - 1) then Ok(from - 1)
    else Alignment(s, parsed, data, from - 1)
  }

  function Finish(s: seq<bool>, cur: Cursor, slice: VaSlice): Result<seq<bool>> {
    if slice.dataOffset < 3 then Err(InvalidBuffer)
    else
      var data := (slice.dataOffset - 2) * 8;
      if data > |s| || data < cur.pos then Err(InvalidBuffer)
      else
        var alignment :- Alignment(s, cur.pos, data, data);
        var w := cur.w + Window(s, cur.copied, alignment);
        Ok(w + ([true] + Zeros(Padding(|w| + 1))) + Window(s, data, |s|))
  }

  function RewriteBits(s: seq<bool>, nalType: nat, slice: VaSlice, p: VaPicture, refs: References): Result<seq<bool>>
    requires VaShaped(slice, p)
  {
    var (cur, dependent) :- Address(s, Preamble(s, nalType), slice, p);
    if dependent then Finish(s, cur, slice)
    else
      var cur :- Type(s, cur, slice, p);
      var cur :- Timing(s, cur, nalType, p, refs);
      var cur :- Lists(s, cur, slice, p, refs);
      Finish(s, cur, slice)
  }
}
