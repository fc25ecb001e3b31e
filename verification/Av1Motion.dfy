/** AV1 global motion (src/codec/av1_obu.cc): each parameter is written as the sub-exponential code of its
    distance from a reference, which sections 5.9.24 to 5.9.29 of the AV1 specification decode. */
module Av1Motion {
  import opened Bits
  import opened Codes
  import opened BitIO

  // ---------------------------------------------------------------- recentring

  /** inverse_recenter(r, v) of the specification. */
  function InverseRecenter(r: nat, v: nat): int {
    if v > 2 * r then v else if v % 2 == 1 then r - (v + 1) / 2 else r + v / 2
  }

  function RecenterForward(r: nat, t: nat): nat {
    if t > 2 * r then t else if t >= r then 2 * (t - r) else 2 * (r - t) - 1
  }

  /** On [0, mx) the two are inverse bijections, whenever r is in the lower half. */
  lemma RecenterIsBijective(mx: nat, r: nat, x: nat)
    requires 2 * r <= mx && x < mx
    ensures RecenterForward(r, x) < mx && InverseRecenter(r, RecenterForward(r, x)) == x
    ensures 0 <= InverseRecenter(r, x) < mx && RecenterForward(r, InverseRecenter(r, x)) == x
  {
  }

  // ---------------------------------------------------------------- sub-exponential codes

  /** The bits of step `i`: 3, 3, 4, 5, ... */
  function StepBits(i: nat): nat {
    if i > 0 then 3 + i - 1 else 3
  }

  /** The code of `value` among `numSyms`, from step `i` with `mk` values passed over. */
  function SubexpCode(numSyms: nat, value: nat, i: nat, mk: nat): seq<bool>
    requires mk <= value < numSyms
    decreases numSyms - mk
  {
    var a := Pow2(StepBits(i));
    if numSyms <= mk + 3 * a then NsCode(value - mk, numSyms - mk)
    else if value >= mk + a then [true] + SubexpCode(numSyms, value, i + 1, mk + a)
    else [false] + Fixed(value - mk, StepBits(i))
  }

  /** decode_subexp(numSyms) (5.9.28), from step `i` on. */
  function ReadSubexp(s: seq<bool>, numSyms: nat, i: nat, mk: nat): Parsed<nat>
    requires mk < numSyms
    decreases numSyms - mk
  {
    var b2 := if i == 0 then 3 else 3 + i - 1;
    var a := Pow2(b2);
    if numSyms <= mk + 3 * a then
      var (finalBits, s) :- ReadNs(s, numSyms - mk);
      Read(finalBits + mk, s)
    else
      var (more, s) :- ReadBit(s);
      if more then ReadSubexp(s, numSyms, i + 1, mk + a)
      else
        var (bits, s) :- ReadFixed(s, b2);
        Read(bits + mk, s)
  }

  lemma {:induction false} SubexpRoundTrip(numSyms: nat, value: nat, i: nat, mk: nat, rest: seq<bool>)
    requires mk <= value < numSyms
    ensures ReadSubexp(SubexpCode(numSyms, value, i, mk) + rest, numSyms, i, mk) == Read(value, rest)
    decreases numSyms - mk
  {
    hide NsCode, ReadNs, Fixed, ReadFixed, Pow2;
    var a := Pow2(StepBits(i));
    if numSyms <= mk + 3 * a {
      NsRoundTrip(value - mk, numSyms - mk, rest);
    } else if value >= mk + a {
      SubexpRoundTrip(numSyms, value, i + 1, mk + a, rest);
      Associative([true], SubexpCode(numSyms, value, i + 1, mk + a), rest);
    } else {
      FixedRoundTrip(value - mk, StepBits(i), rest);
      Associative([false], Fixed(value - mk, StepBits(i)), rest);
    }
  }

  function UnsignedCode(mx: nat, r: nat, v: nat): seq<bool>
    requires r < mx && v < mx
  {
    if 2 * r <= mx then
      RecenterIsBijective(mx, r, v);
      SubexpCode(mx, RecenterForward(r, v), 0, 0)
    else
      RecenterIsBijective(mx, mx - 1 - r, mx - 1 - v);
      SubexpCode(mx, RecenterForward(mx - 1 - r, mx - 1 - v), 0, 0)
  }

  /** decode_unsigned_subexp_with_ref(mx, r) */
  function ReadUnsigned(s: seq<bool>, mx: nat, r: nat): Parsed<int>
    requires r < mx
  {
    var (v, s) :- ReadSubexp(s, mx, 0, 0);
    Read(if 2 * r <= mx then InverseRecenter(r, v) else mx - 1 - InverseRecenter(mx - 1 - r, v), s)
  }

  function SignedCode(low: int, high: int, r: int, v: int): seq<bool>
    requires low <= r < high && low <= v < high
  {
    UnsignedCode(high - low, r - low, v - low)
  }

  /** decode_signed_subexp_with_ref(low, high, r) */
  function ReadSigned(s: seq<bool>, low: int, high: int, r: int): Parsed<int>
    requires low <= r < high
  {
    var (x, s) :- ReadUnsigned(s, high - low, r - low);
    Read(x + low, s)
  }

  lemma SignedRoundTrip(low: int, high: int, r: int, v: int, rest: seq<bool>)
    requires low <= r < high && low <= v < high
    ensures ReadSigned(SignedCode(low, high, r, v) + rest, low, high, r) == Read(v, rest)
  {
    hide SubexpCode, ReadSubexp, RecenterForward, InverseRecenter;
    var mx, r', v' := high - low, r - low, v - low;
    var flip := 2 * r' > mx;
    var a, t := if flip then mx - 1 - r' else r', if flip then mx - 1 - v' else v';
    RecenterIsBijective(mx, a, t);
    SubexpRoundTrip(mx, RecenterForward(a, t), 0, 0, rest);
  }

  method WriteSubexp(b: BitWriter, numSyms: nat, value: nat)
    requires b.Valid() && value < numSyms < 0x1000_0000
    modifies b
    ensures b.Valid() && b.contents == old(b.contents) + SubexpCode(numSyms, value, 0, 0)
  {
    hide NsCode, Fixed, ByteBits, FromBytes, StepBits;
    var i, mk := 0, 0;
    while true
      invariant b.Valid() && mk <= value
      invariant b.contents + SubexpCode(numSyms, value, i, mk) == old(b.contents) + SubexpCode(numSyms, value, 0, 0)
      decreases numSyms - mk
    {
      var b2 := StepBits(i);
      var a := Pow2(b2);
      if numSyms <= mk + 3 * a {
        b.Ns(value - mk, numSyms - mk);
        return;
      }
      ghost var was := b.contents;
      var more := value >= mk + a;
      b.Bit(more);
      if !more {
        Associative(was, [false], Fixed(value - mk, b2));
        b.WriteBits(value - mk, b2);
        return;
      }
      Associative(was, [true], SubexpCode(numSyms, value, i + 1, mk + a));
      i := i + 1;
      mk := mk + a;
    }
  }

  method WriteUnsigned(b: BitWriter, mx: nat, r: nat, v: nat)
    requires b.Valid() && r < mx < 0x1000_0000 && v < mx
    modifies b
    ensures b.Valid() && b.contents == old(b.contents) + UnsignedCode(mx, r, v)
  {
    hide SubexpCode, RecenterForward, InverseRecenter;
    if 2 * r <= mx {
      RecenterIsBijective(mx, r, v);
      WriteSubexp(b, mx, RecenterForward(r, v));
    } else {
      RecenterIsBijective(mx, mx - 1 - r, mx - 1 - v);
      WriteSubexp(b, mx, RecenterForward(mx - 1 - r, mx - 1 - v));
    }
  }

  // ---------------------------------------------------------------- parameters

  const IDENTITY: nat := 0
  const TRANSLATION: nat := 1
  const ROTZOOM: nat := 2
  const AFFINE: nat := 3

  const ONE: int := 65536

  /** How a parameter is coded: its range is [-2^absBits, 2^absBits], its unit 2^(16 - precBits). */
  function AbsBits(kind: nat, idx: nat, hp: bool): nat {
    if idx >= 2 then 12 else if kind == TRANSLATION then (if hp then 9 else 8) else 12
  }

  function PrecBits(kind: nat, idx: nat, hp: bool): nat {
    if idx >= 2 then 15 else if kind == TRANSLATION then (if hp then 3 else 2) else 6
  }

  function Limit(kind: nat, idx: nat, hp: bool): (r: int)
    ensures r > 0
  {
    Pow2(AbsBits(kind, idx, hp))
  }

  function Unit(kind: nat, idx: nat, hp: bool): (r: nat)
    ensures r > 0
  {
    Pow2(16 - PrecBits(kind, idx, hp))
  }

  function Round(idx: nat): int {
    if idx % 3 == 2 then ONE else 0
  }

  /** An arithmetic shift right by the unit, in the units of a parameter. */
  function Coded(kind: nat, idx: nat, hp: bool, x: int): int {
    x / Unit(kind, idx, hp)
  }

  /** r of the specification: the reference, shifted, then recentred. */
  function Reference(kind: nat, idx: nat, hp: bool, reference: int): int {
    Coded(kind, idx, hp, reference) - (if idx % 3 == 2 then Pow2(PrecBits(kind, idx, hp)) else 0)
  }

  /** A value that read_global_param can return. */
  ghost predicate Codable(kind: nat, idx: nat, hp: bool, value: int) {
    exists v :: -Limit(kind, idx, hp) <= v <= Limit(kind, idx, hp) && IsCoded(kind, idx, hp, v, value)
  }

  predicate IsCoded(kind: nat, idx: nat, hp: bool, v: int, value: int) {
    value == v * Unit(kind, idx, hp) + Round(idx)
  }

  /** A value that a parameter can have in any frame, whatever its type and precision. */
  predicate Bounded(idx: nat, value: int) {
    if idx < 2 then -0x40_0000 <= value <= 0x40_0000 else -8192 <= value - Round(idx) <= 8192
  }

  lemma Units(kind: nat, idx: nat, hp: bool)
    ensures idx >= 2 ==> Limit(kind, idx, hp) == 4096 && Unit(kind, idx, hp) == 2
    ensures idx < 2 && kind != TRANSLATION ==> Limit(kind, idx, hp) == 4096 && Unit(kind, idx, hp) == 1024
    ensures idx < 2 && kind == TRANSLATION && hp ==> Limit(kind, idx, hp) == 512 && Unit(kind, idx, hp) == 8192
    ensures idx < 2 && kind == TRANSLATION && !hp ==> Limit(kind, idx, hp) == 256 && Unit(kind, idx, hp) == 16384
  {
    Powers();
  }

  lemma Powers()
    ensures Pow2(1) == 2 && Pow2(8) == 256 && Pow2(9) == 512 && Pow2(10) == 1024 && Pow2(12) == 4096
    ensures Pow2(13) == 8192 && Pow2(14) == 16384 && Pow2(15) == 32768 && Pow2(16) == 65536
  {
    assert Pow2(4) == 16;
    Pow2Add(4, 4);
    Pow2Add(8, 4);
  }

  lemma CodableIsBounded(kind: nat, idx: nat, hp: bool, value: int)
    requires Codable(kind, idx, hp, value)
    ensures Bounded(idx, value)
  {
    Units(kind, idx, hp);
    var v :| -Limit(kind, idx, hp) <= v <= Limit(kind, idx, hp) && IsCoded(kind, idx, hp, v, value);
  }

  /** Whatever frame the reference comes from, it lands in the range of the parameter that is coded. */
  lemma ReferenceInRange(kind: nat, idx: nat, hp: bool, reference: int)
    requires Bounded(idx, reference)
    ensures -Limit(kind, idx, hp) <= Reference(kind, idx, hp, reference) <= Limit(kind, idx, hp)
  {
    Units(kind, idx, hp);
    Powers();
    hide Pow2;
    if idx < 2 {
      assert idx % 3 != 2;
    }
  }

  /** The writer's shift leaves something that the syntax can carry. */
  predicate Fits(kind: nat, idx: nat, hp: bool, value: int) {
    -Limit(kind, idx, hp) <= Coded(kind, idx, hp, value - Round(idx)) <= Limit(kind, idx, hp)
  }

  /** The parameter that a decoder ends up with: the next one below that the syntax can express. */
  function Shifted(kind: nat, idx: nat, hp: bool, value: int): int {
    Coded(kind, idx, hp, value - Round(idx)) * Unit(kind, idx, hp) + Round(idx)
  }

  function ParamCode(kind: nat, idx: nat, hp: bool, value: int, reference: int): seq<bool>
    requires Fits(kind, idx, hp, value) && Bounded(idx, reference)
  {
    ReferenceInRange(kind, idx, hp, reference);
    var mx := Limit(kind, idx, hp);
    SignedCode(-mx, mx + 1, Reference(kind, idx, hp, reference), Coded(kind, idx, hp, value - Round(idx)))
  }

  /** absBits and precBits of section 5.9.25. */
  function GlobalParamBits(kind: nat, idx: nat, hp: bool): (nat, nat) {
    if idx >= 2 then (12, 15)
    else if kind == 1 then (if hp then (9, 3) else (8, 2))
    else (12, 6)
  }

  /** read_global_param(type, ref, idx) (5.9.25), given PrevGmParams[ref][idx]. */
  function ReadParam(s: seq<bool>, kind: nat, idx: nat, hp: bool, reference: int): Parsed<int>
    requires Bounded(idx, reference)
  {
    var (absBits, precBits) := GlobalParamBits(kind, idx, hp);
    var precDiff := 16 - precBits;
    var round := if idx % 3 == 2 then 65536 else 0;
    var sub := if idx % 3 == 2 then Pow2(precBits) else 0;
    var mx: int := Pow2(absBits);
    var r := reference / Pow2(precDiff) - sub;
    SameScale(kind, idx, hp, reference);
    var (v, s) :- ReadSigned(s, -mx, mx + 1, r);
    Read(v * Pow2(precDiff) + round, s)
  }

  /** The writer's scale is that of the reader. */
  lemma SameScale(kind: nat, idx: nat, hp: bool, reference: int)
    ensures var (absBits, precBits) := GlobalParamBits(kind, idx, hp);
            && Limit(kind, idx, hp) == Pow2(absBits) && Unit(kind, idx, hp) == Pow2(16 - precBits)
            && Reference(kind, idx, hp, reference)
               == reference / Pow2(16 - precBits) - (if idx % 3 == 2 then Pow2(precBits) else 0)
            && (Bounded(idx, reference) ==>
                  0 - Pow2(absBits) <= Reference(kind, idx, hp, reference) <= Pow2(absBits))
  {
    hide Pow2;
    if Bounded(idx, reference) {
      ReferenceInRange(kind, idx, hp, reference);
    }
  }

  /** A parameter that was coded as `v` is, as a reference, worth `v`. */
  lemma ReferenceOfCoded(kind: nat, idx: nat, hp: bool, v: int)
    requires idx < 6
    ensures Reference(kind, idx, hp, v * Unit(kind, idx, hp) + Round(idx)) == v
  {
    Units(kind, idx, hp);
    Powers();
    hide Pow2;
    var unit := Unit(kind, idx, hp);
    if idx == 2 || idx == 5 {
      assert v * unit + ONE == (v + 32768) * unit;
      QuotientRemainder((v + 32768) * unit, unit, v + 32768, 0);
    } else {
      QuotientRemainder(v * unit, unit, v, 0);
    }
  }

  lemma ValueInRange(kind: nat, idx: nat, hp: bool, value: int)
    requires Codable(kind, idx, hp, value)
    ensures Fits(kind, idx, hp, value) && Shifted(kind, idx, hp, value) == value
  {
    hide Limit, Unit, Round;
    var v :| -Limit(kind, idx, hp) <= v <= Limit(kind, idx, hp) && IsCoded(kind, idx, hp, v, value);
    QuotientRemainder(v * Unit(kind, idx, hp), Unit(kind, idx, hp), v, 0);
  }

  lemma ShiftedBelow(kind: nat, idx: nat, hp: bool, value: int)
    ensures Shifted(kind, idx, hp, value) <= value < Shifted(kind, idx, hp, value) + Unit(kind, idx, hp)
  {
    hide Unit, Round;
    var x, d := value - Round(idx), Unit(kind, idx, hp);
    assert x == x / d * d + x % d;
  }

  /** Global motion round trip: every type, index and precision, against a reference of any other. What comes
      back is the parameter itself exactly if some stream can carry it. */
  lemma ParamRoundTrip(kind: nat, idx: nat, hp: bool, value: int, reference: int, rest: seq<bool>)
    requires Fits(kind, idx, hp, value) && Bounded(idx, reference)
    ensures ReadParam(ParamCode(kind, idx, hp, value, reference) + rest, kind, idx, hp, reference)
         == Read(Shifted(kind, idx, hp, value), rest)
    ensures Shifted(kind, idx, hp, value) == value <==> Codable(kind, idx, hp, value)
    ensures Shifted(kind, idx, hp, value) <= value < Shifted(kind, idx, hp, value) + Unit(kind, idx, hp)
  {
    hide SignedCode, ReadSigned, Limit, Unit, Coded, Reference, Pow2;
    SameScale(kind, idx, hp, reference);
    ShiftedBelow(kind, idx, hp, value);
    var mx := Limit(kind, idx, hp);
    var v := Coded(kind, idx, hp, value - Round(idx));
    SignedRoundTrip(-mx, mx + 1, Reference(kind, idx, hp, reference), v, rest);
    if Codable(kind, idx, hp, value) {
      ValueInRange(kind, idx, hp, value);
    } else {
      assert !IsCoded(kind, idx, hp, v, value);
    }
  }

  method WriteParam(b: BitWriter, kind: nat, idx: nat, value: int, reference: int, hp: bool)
    requires b.Valid() && Fits(kind, idx, hp, value) && Bounded(idx, reference)
    modifies b
    ensures b.Valid() && b.contents == old(b.contents) + ParamCode(kind, idx, hp, value, reference)
  {
    hide UnsignedCode, Pow2;
    var absBits, precBits := 12, 15;
    if idx < 2 {
      if kind == TRANSLATION {
        absBits := 9 - (if hp then 0 else 1);
        precBits := 3 - (if hp then 0 else 1);
      } else {
        absBits, precBits := 12, 6;
      }
    }
    var precDiff := 16 - precBits;
    var round := if idx % 3 == 2 then ONE else 0;
    var sub := if idx % 3 == 2 then Pow2(precBits) else 0;
    var mx := Pow2(absBits);
    var r := reference / Pow2(precDiff) - sub;
    var v := (value - round) / Pow2(precDiff);
    ReferenceInRange(kind, idx, hp, reference);
    Units(kind, idx, hp);
    WriteUnsigned(b, 2 * mx + 1, r + mx, v + mx);
  }

  // ---------------------------------------------------------------- one reference

  /** The warp of one reference: its type and its six parameters. */
  datatype Warp = Warp(kind: nat, mat: seq<int>)

  const DEFAULT: seq<int> := [0, 0, ONE, 0, 0, ONE]

  /** Parameters as a decoder ends up with them, which is what VA reports. */
  ghost predicate Decodable(w: Warp, hp: bool) {
    && |w.mat| == 6 && w.kind <= AFFINE
    && (w.kind == IDENTITY ==> w.mat == DEFAULT)
    && (w.kind == TRANSLATION ==> w.mat[2..] == DEFAULT[2..])
    && (w.kind >= TRANSLATION ==> forall i :: 0 <= i < 2 ==> Codable(w.kind, i, hp, w.mat[i]))
    && (w.kind >= ROTZOOM ==> Codable(w.kind, 2, hp, w.mat[2]) && Codable(w.kind, 3, hp, w.mat[3]))
    && (w.kind == ROTZOOM ==> w.mat[4] == -w.mat[3] && w.mat[5] == w.mat[2])
    && (w.kind == AFFINE ==> Codable(w.kind, 4, hp, w.mat[4]) && Codable(w.kind, 5, hp, w.mat[5]))
  }

  ghost predicate Sane(mat: seq<int>) {
    |mat| == 6 && forall i :: 0 <= i < 6 ==> Bounded(i, mat[i])
  }

  lemma DefaultIsSane()
    ensures Sane(DEFAULT)
  {
  }

  /** Parameters of every frame are references for every other frame. */
  lemma DecodableIsSane(w: Warp, hp: bool)
    requires Decodable(w, hp)
    ensures Sane(w.mat)
  {
    forall i | 0 <= i < 6
      ensures Bounded(i, w.mat[i])
    {
      if w.kind == TRANSLATION && i >= 2 {
        assert w.mat[2..][i - 2] == DEFAULT[2..][i - 2];
      } else if w.kind == ROTZOOM && i >= 4 {
        CodableIsBounded(w.kind, 3, hp, w.mat[3]);
        CodableIsBounded(w.kind, 2, hp, w.mat[2]);
      } else if w.kind != IDENTITY {
        CodableIsBounded(w.kind, i, hp, w.mat[i]);
      }
    }
  }

  function TypeCode(kind: nat): seq<bool> {
    if kind == IDENTITY then [false]
    else if kind == ROTZOOM then [true, true]
    else [true, false, kind == TRANSLATION]
  }

  function ReadType(s: seq<bool>): Parsed<nat> {
    var (isGlobal, s) :- ReadBit(s);
    if !isGlobal then Read(IDENTITY, s)
    else
      var (isRotZoom, s) :- ReadBit(s);
      if isRotZoom then Read(ROTZOOM, s)
      else
        var (isTranslation, s) :- ReadBit(s);
        Read(if isTranslation then TRANSLATION else AFFINE, s)
  }

  /** A pair of parameters. */
  function PairCode(w: Warp, idx: nat, hp: bool, prev: seq<int>): seq<bool>
    requires idx <= 4 && |w.mat| == 6 && Sane(prev)
    requires Codable(w.kind, idx, hp, w.mat[idx]) && Codable(w.kind, idx + 1, hp, w.mat[idx + 1])
  {
    ValueInRange(w.kind, idx, hp, w.mat[idx]);
    ValueInRange(w.kind, idx + 1, hp, w.mat[idx + 1]);
    ParamCode(w.kind, idx, hp, w.mat[idx], prev[idx]) + ParamCode(w.kind, idx + 1, hp, w.mat[idx + 1], prev[idx + 1])
  }

  function ReadPair(s: seq<bool>, kind: nat, idx: nat, hp: bool, prev: seq<int>): Parsed<(int, int)>
    requires idx <= 4 && Sane(prev)
  {
    var (a, s) :- ReadParam(s, kind, idx, hp, prev[idx]);
    var (b, s) :- ReadParam(s, kind, idx + 1, hp, prev[idx + 1]);
    Read((a, b), s)
  }

  lemma PairRoundTrip(w: Warp, idx: nat, hp: bool, prev: seq<int>, rest: seq<bool>)
    requires idx <= 4 && |w.mat| == 6 && Sane(prev)
    requires Codable(w.kind, idx, hp, w.mat[idx]) && Codable(w.kind, idx + 1, hp, w.mat[idx + 1])
    ensures ReadPair(PairCode(w, idx, hp, prev) + rest, w.kind, idx, hp, prev)
            == Read((w.mat[idx], w.mat[idx + 1]), rest)
  {
    hide ParamCode, ReadParam, Codable, Bounded, Fits, Shifted;
    ValueInRange(w.kind, idx, hp, w.mat[idx]);
    ValueInRange(w.kind, idx + 1, hp, w.mat[idx + 1]);
    var second := ParamCode(w.kind, idx + 1, hp, w.mat[idx + 1], prev[idx + 1]);
    ParamRoundTrip(w.kind, idx, hp, w.mat[idx], prev[idx], second + rest);
    ParamRoundTrip(w.kind, idx + 1, hp, w.mat[idx + 1], prev[idx + 1], rest);
    Associative(ParamCode(w.kind, idx, hp, w.mat[idx], prev[idx]), second, rest);
  }

  /** The type, the linear part as far as the type codes it, the translation. */
  function WarpCode(w: Warp, hp: bool, prev: seq<int>): seq<bool>
    requires Decodable(w, hp) && Sane(prev)
  {
    if w.kind == IDENTITY then TypeCode(w.kind)
    else if w.kind == TRANSLATION then TypeCode(w.kind) + PairCode(w, 0, hp, prev)
    else if w.kind == ROTZOOM then TypeCode(w.kind) + (PairCode(w, 2, hp, prev) + PairCode(w, 0, hp, prev))
    else TypeCode(w.kind) + (PairCode(w, 2, hp, prev) + (PairCode(w, 4, hp, prev) + PairCode(w, 0, hp, prev)))
  }

  /** One turn of the loop of global_motion_params( ) (5.9.24). */
  function ReadWarp(s: seq<bool>, hp: bool, prev: seq<int>): Parsed<Warp>
    requires Sane(prev)
  {
    var (kind, s) :- ReadType(s);
    if kind == IDENTITY then Read(Warp(kind, [0, 0, 65536, 0, 0, 65536]), s)
    else if kind == TRANSLATION then
      var (t, s) :- ReadPair(s, kind, 0, hp, prev);
      Read(Warp(kind, [t.0, t.1, 65536, 0, 0, 65536]), s)
    else
      var (a, s) :- ReadPair(s, kind, 2, hp, prev);
      if kind == ROTZOOM then
        var (t, s) :- ReadPair(s, kind, 0, hp, prev);
        Read(Warp(kind, [t.0, t.1, a.0, a.1, -a.1, a.0]), s)
      else
        var (c, s) :- ReadPair(s, kind, 4, hp, prev);
        var (t, s) :- ReadPair(s, kind, 0, hp, prev);
        Read(Warp(kind, [t.0, t.1, a.0, a.1, c.0, c.1]), s)
  }

  lemma TypeRoundTrip(kind: nat, rest: seq<bool>)
    requires kind <= AFFINE
    ensures ReadType(TypeCode(kind) + rest) == Read(kind, rest)
  {
    if kind == IDENTITY {
    } else if kind == ROTZOOM {
      assert ([true, true] + rest)[1..][1..] == rest;
    } else {
      assert ([true, false, kind == TRANSLATION] + rest)[1..][1..][1..] == rest;
    }
  }

  lemma WarpRoundTrip(w: Warp, hp: bool, prev: seq<int>, rest: seq<bool>)
    requires Decodable(w, hp) && Sane(prev)
    ensures ReadWarp(WarpCode(w, hp, prev) + rest, hp, prev) == Read(w, rest)
  {
    Six(w.mat);
    hide PairCode, ReadPair, TypeCode, ReadType, Codable, Sane;
    if w.kind == IDENTITY {
      TypeRoundTrip(w.kind, rest);
    } else if w.kind == TRANSLATION {
      var t := PairCode(w, 0, hp, prev);
      Associative(TypeCode(w.kind), t, rest);
      TypeRoundTrip(w.kind, t + rest);
      PairRoundTrip(w, 0, hp, prev, rest);
    } else {
      LinearRoundTrip(w, hp, prev, rest);
    }
  }

  // ---------------------------------------------------------------- what a decoder can end up with

  lemma ReadNsBelow(s: seq<bool>, n: nat)
    requires n > 0
    ensures ReadNs(s, n).Read? ==> ReadNs(s, n).value < n
  {
    var w := Width(n);
    FixedBelow(s, w - 1);
    var high := ReadFixed(s, w - 1);
    if high.Read? {
      FixedBelow(high.rest, 1);
    }
    assert Pow2(w) == 2 * Pow2(w - 1) && Pow2(1) == 2;
    hide Pow2, Width, ReadFixed;
  }

  lemma FixedBelow(s: seq<bool>, n: nat)
    ensures ReadFixed(s, n).Read? ==> ReadFixed(s, n).value < Pow2(n)
  {
    if n <= |s| {
      FixedOfValue(s[..n]);
    }
  }

  lemma {:induction false} ReadSubexpBelow(s: seq<bool>, numSyms: nat, i: nat, mk: nat)
    requires mk < numSyms
    ensures ReadSubexp(s, numSyms, i, mk).Read? ==> ReadSubexp(s, numSyms, i, mk).value < numSyms
    decreases numSyms - mk
  {
    hide ReadNs, ReadFixed, Pow2;
    var b2 := if i == 0 then 3 else 3 + i - 1;
    var a := Pow2(b2);
    if numSyms <= mk + 3 * a {
      ReadNsBelow(s, numSyms - mk);
    } else if s != [] {
      if s[0] {
        ReadSubexpBelow(s[1..], numSyms, i + 1, mk + a);
      } else {
        FixedBelow(s[1..], b2);
      }
    }
  }

  lemma ReadParamCodable(s: seq<bool>, kind: nat, idx: nat, hp: bool, reference: int)
    requires Bounded(idx, reference)
    ensures var r := ReadParam(s, kind, idx, hp, reference);
            r.Read? ==> Codable(kind, idx, hp, r.value)
  {
    hide ReadSubexp, Pow2, Limit, Unit, InverseRecenter, RecenterForward, Reference, Bounded;
    SameScale(kind, idx, hp, reference);
    var mx := Limit(kind, idx, hp);
    var n, q := 2 * mx + 1, Reference(kind, idx, hp, reference) + mx;
    ReadSubexpBelow(s, n, 0, 0);
    var x := ReadSubexp(s, n, 0, 0);
    if x.Read? {
      RecenterIsBijective(n, if 2 * q <= n then q else n - 1 - q, x.value);
      var v := ReadSigned(s, -mx, mx + 1, q - mx).value;
      assert IsCoded(kind, idx, hp, v, ReadParam(s, kind, idx, hp, reference).value);
    }
  }

  lemma ReadPairCodable(s: seq<bool>, kind: nat, idx: nat, hp: bool, prev: seq<int>)
    requires idx <= 4 && Sane(prev)
    ensures var r := ReadPair(s, kind, idx, hp, prev);
            r.Read? ==> Codable(kind, idx, hp, r.value.0) && Codable(kind, idx + 1, hp, r.value.1)
  {
    hide ReadParam, Codable, Bounded;
    ReadParamCodable(s, kind, idx, hp, prev[idx]);
    var first := ReadParam(s, kind, idx, hp, prev[idx]);
    if first.Read? {
      ReadParamCodable(first.rest, kind, idx + 1, hp, prev[idx + 1]);
    }
  }

  /** Whatever the bits are: a warp that a decoder reads is one that the round trip is about. */
  lemma DecodedIsDecodable(s: seq<bool>, hp: bool, prev: seq<int>)
    requires Sane(prev)
    ensures ReadWarp(s, hp, prev).Read? ==> Decodable(ReadWarp(s, hp, prev).value, hp)
  {
    hide ReadPair, Codable, Sane;
    var t := ReadType(s);
    if t.Read? && t.value != IDENTITY {
      if t.value == TRANSLATION {
        ReadPairCodable(t.rest, t.value, 0, hp, prev);
      } else {
        ReadPairCodable(t.rest, t.value, 2, hp, prev);
        var a := ReadPair(t.rest, t.value, 2, hp, prev);
        if a.Read? {
          var c := if t.value == AFFINE then ReadPair(a.rest, t.value, 4, hp, prev) else a;
          if t.value == AFFINE {
            ReadPairCodable(a.rest, t.value, 4, hp, prev);
          }
          if c.Read? {
            ReadPairCodable(c.rest, t.value, 0, hp, prev);
          }
        }
      }
    }
  }

  lemma Six(mat: seq<int>)
    ensures |mat| == 6 ==> mat == [mat[0], mat[1], mat[2], mat[3], mat[4], mat[5]]
    ensures |mat| == 6 && mat[2..] == DEFAULT[2..] ==> mat == [mat[0], mat[1], ONE, 0, 0, ONE]
  {
    if |mat| == 6 && mat[2..] == DEFAULT[2..] {
      assert mat[2] == mat[2..][0] && mat[3] == mat[2..][1] && mat[4] == mat[2..][2] && mat[5] == mat[2..][3];
    }
  }

  lemma LinearRoundTrip(w: Warp, hp: bool, prev: seq<int>, rest: seq<bool>)
    requires Decodable(w, hp) && Sane(prev) && w.kind >= ROTZOOM
    ensures ReadWarp(WarpCode(w, hp, prev) + rest, hp, prev) == Read(w, rest)
  {
    Six(w.mat);
    hide PairCode, ReadPair, TypeCode, ReadType, Codable, Sane;
    var a, t := PairCode(w, 2, hp, prev), PairCode(w, 0, hp, prev);
    PairRoundTrip(w, 0, hp, prev, rest);
    if w.kind == ROTZOOM {
      ThreeParts(TypeCode(w.kind), a, t, rest);
      TypeRoundTrip(w.kind, a + (t + rest));
      PairRoundTrip(w, 2, hp, prev, t + rest);
    } else {
      var c := PairCode(w, 4, hp, prev);
      ThreeParts(TypeCode(w.kind), a, c + t, rest);
      Associative(c, t, rest);
      TypeRoundTrip(w.kind, a + (c + (t + rest)));
      PairRoundTrip(w, 2, hp, prev, c + (t + rest));
      PairRoundTrip(w, 4, hp, prev, t + rest);
    }
  }

  lemma ThreeParts(a: seq<bool>, b: seq<bool>, c: seq<bool>, rest: seq<bool>)
    ensures (a + (b + c)) + rest == a + (b + (c + rest))
  {
  }

  // ---------------------------------------------------------------- all references

  function MotionCode(ws: seq<Warp>, hp: bool, prevs: seq<seq<int>>): seq<bool>
    requires |ws| == |prevs|
    requires forall i :: 0 <= i < |ws| ==> Decodable(ws[i], hp) && Sane(prevs[i])
  {
    if ws == [] then [] else WarpCode(ws[0], hp, prevs[0]) + MotionCode(ws[1..], hp, prevs[1..])
  }

  function ReadMotion(s: seq<bool>, hp: bool, prevs: seq<seq<int>>): Parsed<seq<Warp>>
    requires forall i :: 0 <= i < |prevs| ==> Sane(prevs[i])
    decreases |prevs|
  {
    if prevs == [] then Read([], s)
    else
      var (w, s) :- ReadWarp(s, hp, prevs[0]);
      var (ws, s) :- ReadMotion(s, hp, prevs[1..]);
      Read([w] + ws, s)
  }

  /** A decoder with the same saved parameters reads back every reference's warp. */
  lemma {:induction false} MotionRoundTrip(ws: seq<Warp>, hp: bool, prevs: seq<seq<int>>, rest: seq<bool>)
    requires |ws| == |prevs|
    requires forall i :: 0 <= i < |ws| ==> Decodable(ws[i], hp) && Sane(prevs[i])
    ensures ReadMotion(MotionCode(ws, hp, prevs) + rest, hp, prevs) == Read(ws, rest)
  {
    hide WarpCode, ReadWarp, Decodable, Sane;
    if ws == [] {
      assert MotionCode(ws, hp, prevs) + rest == rest;
    } else {
      var tail := MotionCode(ws[1..], hp, prevs[1..]);
      Associative(WarpCode(ws[0], hp, prevs[0]), tail, rest);
      WarpRoundTrip(ws[0], hp, prevs[0], tail + rest);
      MotionRoundTrip(ws[1..], hp, prevs[1..], rest);
      assert ws == [ws[0]] + ws[1..];
    }
  }

  method WritePair(b: BitWriter, w: Warp, idx: nat, prev: seq<int>, hp: bool)
    requires b.Valid() && idx <= 4 && |w.mat| == 6 && Sane(prev)
    requires Codable(w.kind, idx, hp, w.mat[idx]) && Codable(w.kind, idx + 1, hp, w.mat[idx + 1])
    modifies b
    ensures b.Valid() && b.contents == old(b.contents) + PairCode(w, idx, hp, prev)
  {
    hide ParamCode, Codable, Bounded, Fits, Shifted;
    ValueInRange(w.kind, idx, hp, w.mat[idx]);
    ValueInRange(w.kind, idx + 1, hp, w.mat[idx + 1]);
    WriteParam(b, w.kind, idx, w.mat[idx], prev[idx], hp);
    WriteParam(b, w.kind, idx + 1, w.mat[idx + 1], prev[idx + 1], hp);
    Associative(old(b.contents), ParamCode(w.kind, idx, hp, w.mat[idx], prev[idx]),
                ParamCode(w.kind, idx + 1, hp, w.mat[idx + 1], prev[idx + 1]));
  }

  method WriteType(b: BitWriter, kind: nat)
    requires b.Valid()
    modifies b
    ensures b.Valid() && b.contents == old(b.contents) + TypeCode(kind)
  {
    hide ByteBits, FromBytes;
    var isGlobal := kind != IDENTITY;
    b.Bit(isGlobal);
    if !isGlobal {
      return;
    }
    var isRotZoom := kind == ROTZOOM;
    b.Bit(isRotZoom);
    if !isRotZoom {
      b.Bit(kind == TRANSLATION);
    }
  }

  method WriteWarp(b: BitWriter, w: Warp, prev: seq<int>, hp: bool)
    requires b.Valid() && Decodable(w, hp) && Sane(prev)
    modifies b
    ensures b.Valid() && b.contents == old(b.contents) + WarpCode(w, hp, prev)
  {
    hide ByteBits, FromBytes, PairCode, TypeCode, Codable, Sane;
    WriteType(b, w.kind);
    if w.kind == IDENTITY {
      return;
    }
    ghost var t := PairCode(w, 0, hp, prev);
    if w.kind >= ROTZOOM {
      WritePair(b, w, 2, prev, hp);
      ghost var a := PairCode(w, 2, hp, prev);
      WarpShape(old(b.contents), TypeCode(w.kind), a, [], t);
      if w.kind == AFFINE {
        WritePair(b, w, 4, prev, hp);
        WarpShape(old(b.contents), TypeCode(w.kind), a, PairCode(w, 4, hp, prev), t);
      }
    } else {
      Associative(old(b.contents), TypeCode(w.kind), t);
    }
    WritePair(b, w, 0, prev, hp);
  }

  lemma WarpShape(w: seq<bool>, kind: seq<bool>, a: seq<bool>, c: seq<bool>, t: seq<bool>)
    ensures w + (kind + (a + (c + t))) == ((w + kind + a) + c) + t
    ensures w + (kind + (a + t)) == (w + kind + a) + t
  {
  }
}
