/** The variable-length codes of H.265 (section 9.2) and of the AV1 specification (sections 4.10.5
    to 4.10.7). `XCode` is the bit string the writer appends; `ReadX` is the standard's parsing process,
    which returns the value together with the bits that follow it. */
module Codes {
  import opened Bits

  datatype Parsed<+T> = Malformed | Read(value: T, rest: seq<bool>) {
    predicate IsFailure() { Malformed? }

    function PropagateFailure<U>(): Parsed<U>
      requires Malformed?
    {
      Malformed
    }

    function Extract(): (T, seq<bool>)
      requires Read?
    {
      (value, rest)
    }
  }

  function Zeros(n: nat): (z: seq<bool>)
    ensures |z| == n && forall i :: 0 <= i < n ==> !z[i]
  {
    seq(n, _ => false)
  }

  function ReadBit(s: seq<bool>): Parsed<bool> {
    if |s| == 0 then Malformed else Read(s[0], s[1..])
  }

  /** u(n) / f(n). */
  function ReadFixed(s: seq<bool>, n: nat): Parsed<nat> {
    if |s| < n then Malformed else Read(Value(s[..n]), s[n..])
  }

  lemma FixedRoundTrip(v: nat, n: nat, rest: seq<bool>)
    requires v < Pow2(n)
    ensures ReadFixed(Fixed(v, n) + rest, n) == Read(v, rest)
  {
    ValueOfFixed(v, n);
    assert (Fixed(v, n) + rest)[..n] == Fixed(v, n);
    assert (Fixed(v, n) + rest)[n..] == rest;
  }

  // ---------------------------------------------------------------- ue(v) / uvlc()

  /** The code for a 32-bit value. `codeNum` wraps: the all-ones value is coded by no bits at all. */
  function UeCode(v: nat): seq<bool> {
    var codeNum := if v == U32 - 1 then 0 else v + 1;
    var w := Width(codeNum);
    Zeros(if w == 0 then 0 else w - 1) + Fixed(codeNum, w)
  }

  function LeadingZeros(s: seq<bool>): (z: nat)
    ensures z <= |s|
    ensures forall i :: 0 <= i < z ==> !s[i]
    ensures z < |s| ==> s[z]
  {
    if |s| == 0 || s[0] then 0 else 1 + LeadingZeros(s[1..])
  }

  function ReadUe(s: seq<bool>): Parsed<nat> {
    var z := LeadingZeros(s);
    if |s| == z then Malformed
    else
      var (low, rest) :- ReadFixed(s[z + 1..], z);
      Read(Pow2(z) - 1 + low, rest)
  }

  lemma {:induction false} FixedTop(c: nat, w: nat)
    requires w > 0 && Pow2(w - 1) <= c < Pow2(w)
    ensures Fixed(c, w) == [true] + Fixed(c - Pow2(w - 1), w - 1)
  {
    if w == 1 {
    } else {
      FixedTop(c / 2, w - 1);
      assert (c - Pow2(w - 1)) / 2 == c / 2 - Pow2(w - 2);
    }
  }

  lemma UeShape(v: nat, z: nat)
    requires v < U32 - 1 && Width(v + 1) == z + 1
    ensures Pow2(z) <= v + 1 < 2 * Pow2(z)
    ensures UeCode(v) == Zeros(z) + ([true] + Fixed(v + 1 - Pow2(z), z)) && |UeCode(v)| == 2 * z + 1
  {
    FixedTop(v + 1, z + 1);
  }

  lemma ZerosThenOne(z: nat, tail: seq<bool>)
    ensures LeadingZeros(Zeros(z) + ([true] + tail)) == z
  {
    var s := Zeros(z) + ([true] + tail);
    assert s[z];
    assert LeadingZeros(s) <= z;
  }

  lemma UeRoundTrip(v: nat, rest: seq<bool>)
    requires v < U32 - 1
    ensures ReadUe(UeCode(v) + rest) == Read(v, rest)
  {
    var z := Width(v + 1) - 1;
    UeShape(v, z);
    hide Fixed, Value, Pow2, Width, UeCode;
    var low := Fixed(v + 1 - Pow2(z), z);
    var s := UeCode(v) + rest;
    assert s == Zeros(z) + ([true] + (low + rest)) by {
      UeSplit(Zeros(z), low, rest);
    }
    ZerosThenOne(z, low + rest);
    assert s[z + 1..] == low + rest;
    FixedRoundTrip(v + 1 - Pow2(z), z, rest);
  }

  lemma UeSplit(zeros: seq<bool>, low: seq<bool>, rest: seq<bool>)
    ensures (zeros + ([true] + low)) + rest == zeros + ([true] + (low + rest))
  {
  }

  /** The one value the 32-bit writer loses: nothing is written for it. */
  lemma UeWraps()
    ensures UeCode(U32 - 1) == []
  {
  }

  // ---------------------------------------------------------------- se(v)

  function SeIndex(v: int): nat {
    if v > 0 then 2 * v - 1 else -2 * v
  }

  function SeCode(v: int): seq<bool> {
    UeCode(SeIndex(v))
  }

  function ReadSe(s: seq<bool>): Parsed<int> {
    var (k, rest) :- ReadUe(s);
    Read(if k % 2 == 1 then (k + 1) / 2 else -(k / 2), rest)
  }

  lemma SeRoundTrip(v: int, rest: seq<bool>)
    requires -0x4000_0000 < v < 0x4000_0000
    ensures ReadSe(SeCode(v) + rest) == Read(v, rest)
  {
    hide UeCode, ReadUe;
    UeRoundTrip(SeIndex(v), rest);
  }

  // ---------------------------------------------------------------- su(n)

  function SuCode(v: int, n: nat): seq<bool>
    requires -0x8000_0000 <= v < 0x8000_0000
  {
    Fixed(if v < 0 then v + U32 else v, n)
  }

  function ReadSu(s: seq<bool>, n: nat): Parsed<int>
    requires n > 0
  {
    var (v, rest) :- ReadFixed(s, n);
    var signMask := Pow2(n - 1);
    Read(if v >= signMask then v - 2 * signMask else v, rest)
  }

  lemma SuRoundTrip(v: int, n: nat, rest: seq<bool>)
    requires -0x8000_0000 <= v < 0x8000_0000
    requires 0 < n <= 32 && 0 - Pow2(n - 1) <= v < Pow2(n - 1)
    ensures ReadSu(SuCode(v, n) + rest, n) == Read(v, rest)
  {
    TruncateSigned(v, n);
    FixedRoundTrip(if v >= 0 then v else v + Pow2(n), n, rest);
  }

  /** Two's complement in 32 bits, cut down to `n`. */
  lemma TruncateSigned(v: int, n: nat)
    requires -0x8000_0000 <= v < 0x8000_0000
    requires 0 < n <= 32 && 0 - Pow2(n - 1) <= v < Pow2(n - 1)
    ensures SuCode(v, n) == Fixed(if v >= 0 then v else v + Pow2(n), n)
  {
    assert Pow2(n) == 2 * Pow2(n - 1);
    hide Fixed, Pow2;
    if v < 0 {
      var k := Multiples(n);
      FixedWrap(v + Pow2(n), k, n);
    }
  }

  lemma {:induction false} Multiples(n: nat) returns (k: nat)
    requires n <= 32
    ensures U32 == Pow2(n) + k * Pow2(n)
    decreases 32 - n
  {
    if n == 32 {
      Pow2Of32();
      k := 0;
    } else {
      var half := Multiples(n + 1);
      k := 2 * half + 1;
      assert half * Pow2(n + 1) == 2 * (half * Pow2(n));
    }
  }

  // ---------------------------------------------------------------- ns(n)

  function NsCode(v: nat, n: nat): seq<bool> {
    if n <= 1 then []
    else
      var w := Width(n);
      var m := Pow2(w) - n;
      if v < m then Fixed(v, w - 1) else Fixed(v + m, w)
  }

  function ReadNs(s: seq<bool>, n: nat): Parsed<nat>
    requires n > 0
  {
    var w := Width(n);
    var m := Pow2(w) - n;
    var (v, rest) :- ReadFixed(s, w - 1);
    if v < m then Read(v, rest)
    else
      var (extra, rest') :- ReadFixed(rest, 1);
      if 2 * v + extra < m then Malformed else Read(2 * v + extra - m, rest')
  }

  lemma NsRoundTrip(v: nat, n: nat, rest: seq<bool>)
    requires v < n
    ensures ReadNs(NsCode(v, n) + rest, n) == Read(v, rest)
  {
    var w := Width(n);
    var m := Pow2(w) - n;
    if n == 1 {
      assert NsCode(v, n) + rest == rest;
      FixedRoundTrip(0, 0, rest);
      assert Fixed(0, 0) + rest == rest;
    } else if v < m {
      FixedRoundTrip(v, w - 1, rest);
    } else {
      NsLong(v + m, n, rest);
    }
  }

  /** The longer of the two code lengths; `c` is what the code carries. */
  lemma NsLong(c: nat, n: nat, rest: seq<bool>)
    requires n > 1 && Pow2(Width(n)) - n <= c / 2 && c < Pow2(Width(n))
    ensures ReadNs(Fixed(c, Width(n)) + rest, n) == Read(c + n - Pow2(Width(n)), rest)
  {
    hide Fixed, ReadFixed, Pow2, ReadNs, Width;
    var w := Width(n);
    HalvesFit(c, w);
    var low := Fixed(c % 2, 1) + rest;
    FixedSplitLast(c, w, rest);
    FixedRoundTrip(c / 2, w - 1, low);
    FixedRoundTrip(c % 2, 1, rest);
    NsTwoParts(Fixed(c, w) + rest, n, c / 2, c % 2, low, rest);
  }

  lemma HalvesFit(c: nat, w: nat)
    requires w > 0 && c < Pow2(w)
    ensures c / 2 < Pow2(w - 1) && c % 2 < Pow2(1) && c == 2 * (c / 2) + c % 2
  {
  }

  lemma NsTwoParts(s: seq<bool>, n: nat, high: nat, extra: nat, low: seq<bool>, rest: seq<bool>)
    requires n > 0 && Pow2(Width(n)) - n <= high
    requires ReadFixed(s, Width(n) - 1) == Read(high, low) && ReadFixed(low, 1) == Read(extra, rest)
    ensures ReadNs(s, n) == Read(2 * high + extra + n - Pow2(Width(n)), rest)
  {
  }

  // ---------------------------------------------------------------- leb128()

  function Low7(v: nat): (r: nat)
    ensures r < 128
  {
    v % 128
  }

  function High7(v: nat): (r: nat)
    ensures 128 * r + Low7(v) == v && (v >= 128 ==> 0 < r < v) && (v < 128 ==> r == 0)
  {
    v / 128
  }

  function Leb128Code(v: nat): seq<bool>
    decreases v
  {
    if v < 128 then Fixed(v, 8) else Fixed(Low7(v) + 128, 8) + Leb128Code(High7(v))
  }

  /** The parsing process reads at most eight bytes; `left` of them may still follow. */
  function ReadLeb128(s: seq<bool>, left: nat := 8): Parsed<nat>
    decreases left
  {
    if left == 0 then Read(0, s)
    else
      var (byte, rest) :- ReadFixed(s, 8);
      if byte < 128 then Read(byte, rest)
      else
        var (high, rest') :- ReadLeb128(rest, left - 1);
        Read(byte - 128 + 128 * high, rest')
  }

  lemma SmallPowers()
    ensures Pow2(7) == 128 && Pow2(8) == 256
  {
    assert Pow2(4) == 16;
    Pow2Add(4, 4);
  }

  lemma HighBytes(v: nat, left: nat)
    requires left > 0
    ensures v < Pow2(7 * left) <==> High7(v) < Pow2(7 * (left - 1))
    ensures Pow2(7 * left) >= 128
  {
    hide High7, Low7, Pow2;
    SmallPowers();
    Pow2Add(7, 7 * (left - 1));
    assert 7 + 7 * (left - 1) == 7 * left;
  }

  lemma ByteRoundTrip(v: nat, rest: seq<bool>)
    requires v < 256
    ensures ReadFixed(Fixed(v, 8) + rest, 8) == Read(v, rest)
  {
    hide Fixed, ReadFixed, Pow2;
    SmallPowers();
    FixedRoundTrip(v, 8, rest);
  }

  lemma {:induction false} Leb128RoundTrip(v: nat, left: nat, rest: seq<bool>)
    requires left > 0 && v < Pow2(7 * left)
    ensures ReadLeb128(Leb128Code(v) + rest, left) == Read(v, rest)
    decreases left
  {
    hide Fixed, ReadFixed, Pow2, High7, Low7;
    HighBytes(v, left);
    if v < 128 {
      ByteRoundTrip(v, rest);
    } else {
      NotLast(v, left);
      Leb128Step(v, left, rest);
      Leb128RoundTrip(High7(v), left - 1, rest);
    }
  }

  lemma NotLast(v: nat, left: nat)
    requires left > 0 && 128 <= v < Pow2(7 * left)
    ensures left > 1
  {
    SmallPowers();
    hide Pow2;
  }

  lemma Leb128Step(v: nat, left: nat, rest: seq<bool>)
    requires left > 0 && v >= 128
    ensures ReadLeb128(Leb128Code(v) + rest, left)
         == var high := ReadLeb128(Leb128Code(High7(v)) + rest, left - 1);
            if high.Malformed? then Malformed else Read(Low7(v) + 128 * high.value, high.rest)
  {
    hide Fixed, ReadFixed, Pow2, High7, Low7;
    var low, high := Fixed(Low7(v) + 128, 8), Leb128Code(High7(v));
    ByteRoundTrip(Low7(v) + 128, high + rest);
    Associative(low, high, rest);
  }

  /** Nine bytes are written from 2^56 on, and the standard's eight-byte loop then stops short. */
  lemma Leb128Limit(v: nat)
    ensures ReadLeb128(Leb128Code(v)) == Read(v, []) <==> v < Pow2(56)
  {
    hide Pow2, ReadLeb128, Leb128Code;
    assert Leb128Code(v) + [] == Leb128Code(v);
    if v < Pow2(56) {
      Leb128RoundTrip(v, 8, []);
    } else {
      Leb128Overrun(v, 8);
    }
  }

  lemma {:induction false} Leb128Overrun(v: nat, left: nat)
    requires v >= Pow2(7 * left)
    ensures ReadLeb128(Leb128Code(v), left).Read? ==> ReadLeb128(Leb128Code(v), left).value < v
    decreases left
  {
    if left == 0 {
      assert Pow2(0) == 1;
    }
    hide Fixed, ReadFixed, Pow2, High7, Low7;
    if left > 0 {
      HighBytes(v, left);
      assert Leb128Code(v) + [] == Leb128Code(v) && Leb128Code(High7(v)) + [] == Leb128Code(High7(v));
      Leb128Step(v, left, []);
      Leb128Overrun(High7(v), left - 1);
    }
  }
}
