/** Bit strings, most significant bit first, and their relation to numbers and bytes. */
module Bits {

  const U32: nat := 0x1_0000_0000

  function Pow2(n: nat): (r: nat)
    ensures r > 0
  {
    if n == 0 then 1 else 2 * Pow2(n - 1)
  }

  lemma {:induction false} Pow2Add(m: nat, n: nat)
    ensures Pow2(m + n) == Pow2(m) * Pow2(n)
  {
    if m == 0 {
    } else {
      Pow2Add(m - 1, n);
      assert Pow2(m) * Pow2(n) == 2 * (Pow2(m - 1) * Pow2(n));
    }
  }

  lemma {:induction false} Pow2Monotone(m: nat, n: nat)
    requires m <= n
    ensures Pow2(m) <= Pow2(n)
  {
    if m < n {
      Pow2Monotone(m, n - 1);
    }
  }

  lemma Pow2Of32()
    ensures Pow2(32) == U32 && Pow2(31) == 0x8000_0000
  {
    assert Pow2(8) == 256;
    Pow2Add(8, 8);
    Pow2Add(16, 8);
    Pow2Add(24, 8);
    assert Pow2(32) == 2 * Pow2(31);
  }

  /** The number of binary digits of `n`; zero for zero. */
  function Width(n: nat): (w: nat)
    ensures n > 0 ==> w > 0 && Pow2(w - 1) <= n < Pow2(w)
    ensures n == 0 <==> w == 0
  {
    if n == 0 then 0 else 1 + Width(n / 2)
  }

  lemma WidthUnique(n: nat, w: nat)
    requires w > 0 && Pow2(w - 1) <= n < Pow2(w)
    ensures Width(n) == w
  {
    WidthBound(n, w);
    if Width(n) < w {
      Pow2Monotone(Width(n), w - 1);
    }
  }

  lemma {:induction false} WidthBound(n: nat, w: nat)
    requires n < Pow2(w)
    ensures Width(n) <= w
  {
    if n > 0 {
      WidthBound(n / 2, w - 1);
    }
  }

  /** The low `n` binary digits of `v`. */
  function Fixed(v: nat, n: nat): (b: seq<bool>)
    ensures |b| == n
  {
    if n == 0 then [] else Fixed(v / 2, n - 1) + [v % 2 == 1]
  }

  function Value(b: seq<bool>): nat {
    if |b| == 0 then 0 else 2 * Value(b[..|b| - 1]) + (if b[|b| - 1] then 1 else 0)
  }

  lemma {:induction false} ValueOfFixed(v: nat, n: nat)
    requires v < Pow2(n)
    ensures Value(Fixed(v, n)) == v
  {
    if n > 0 {
      ValueOfFixed(v / 2, n - 1);
      assert Fixed(v, n)[..n - 1] == Fixed(v / 2, n - 1);
    }
  }

  lemma {:induction false} FixedOfValue(b: seq<bool>)
    ensures Value(b) < Pow2(|b|) && Fixed(Value(b), |b|) == b
  {
    if |b| > 0 {
      FixedOfValue(b[..|b| - 1]);
      assert b[..|b| - 1] + [b[|b| - 1]] == b;
      assert Value(b) / 2 == Value(b[..|b| - 1]);
      assert (Value(b) % 2 == 1) == b[|b| - 1];
    }
  }

  lemma {:induction false} HalveDivide(v: nat, m: nat)
    ensures v / 2 / Pow2(m) == v / Pow2(m + 1)
  {
    var p := Pow2(m);
    var q := v / 2 / p;
    var r := v / 2 % p;
    assert v / 2 == q * p + r;
    assert v == 2 * (q * p + r) + v % 2;
    assert v == q * (2 * p) + (2 * r + v % 2);
    DivideUnique(v, 2 * p, q, 2 * r + v % 2);
  }

  lemma MulMonotone(a: nat, b: nat, d: nat)
    requires a <= b
    ensures a * d <= b * d
  {
  }

  lemma MulOrder(a: int, b: int, d: nat)
    ensures a <= b ==> a * d <= b * d
  {
  }

  lemma MultipleBounds(k: int, d: nat)
    ensures k >= 1 ==> k * d >= d
    ensures k <= -1 ==> k * d <= 0 - d
  {
    MulOrder(1, k, d);
    MulOrder(k, -1, d);
  }

  /** Quotient and remainder of any number are unique. */
  lemma QuotientRemainder(x: int, d: nat, q: int, r: nat)
    requires d > 0 && r < d && x == q * d + r
    ensures x / d == q && x % d == r
  {
    var q' := x / d;
    assert x == q' * d + x % d;
    MultipleBounds(q - q', d);
  }

  lemma DivideUnique(v: nat, d: nat, q: nat, r: nat)
    requires d > 0 && r < d && v == q * d + r
    ensures v / d == q && v % d == r
  {
    var q' := v / d;
    assert v == d * q' + v % d;
    if q' < q {
      MulMonotone(q' + 1, q, d);
    } else if q' > q {
      MulMonotone(q + 1, q', d);
    }
  }

  /** Digit `k` of `Fixed(v, n)`: what a shift by `n - 1 - k` and a mask would give. */
  lemma {:induction false} FixedAt(v: nat, n: nat, k: nat)
    requires k < n
    ensures Fixed(v, n)[k] == (v / Pow2(n - 1 - k) % 2 == 1)
  {
    if k < n - 1 {
      FixedAt(v / 2, n - 1, k);
      HalveDivide(v, n - 2 - k);
    }
  }

  /** Only the low digits are kept. */
  lemma {:induction false} FixedWrap(v: nat, k: nat, n: nat)
    ensures Fixed(v + k * Pow2(n), n) == Fixed(v, n)
  {
    if n > 0 {
      var m := k * Pow2(n - 1);
      DoubleProduct(k, n);
      FixedWrap(v / 2, k, n - 1);
      hide Pow2;
      AddEven(v, m);
    }
  }

  lemma DoubleProduct(k: nat, n: nat)
    requires n > 0
    ensures k * Pow2(n) == 2 * (k * Pow2(n - 1))
  {
  }

  lemma AddEven(v: nat, m: nat)
    ensures (v + 2 * m) / 2 == v / 2 + m && (v + 2 * m) % 2 == v % 2
  {
  }

  lemma FixedSplitLast(v: nat, n: nat, rest: seq<bool>)
    requires n > 0
    ensures Fixed(v, n) + rest == Fixed(v / 2, n - 1) + (Fixed(v % 2, 1) + rest)
  {
    assert Fixed(v % 2, 1) == [v % 2 == 1];
  }

  // ---------------------------------------------------------------- bytes

  type byte = b: nat | b < 256

  /** The bits of a byte, the most significant one first. */
  function ByteBits(b: byte): (r: seq<bool>)
    ensures |r| == 8
  {
    Fixed(b, 8)
  }

  function FromBytes(data: seq<byte>): (r: seq<bool>)
    ensures |r| == 8 * |data|
  {
    if |data| == 0 then [] else FromBytes(data[..|data| - 1]) + ByteBits(data[|data| - 1])
  }

  lemma ByteBitsInjective(a: byte, b: byte)
    requires ByteBits(a) == ByteBits(b)
    ensures a == b
  {
    assert Pow2(8) == 256;
    ValueOfFixed(a, 8);
    ValueOfFixed(b, 8);
  }

  lemma {:induction false} FromBytesInjective(a: seq<byte>, b: seq<byte>)
    requires FromBytes(a) == FromBytes(b)
    ensures a == b
  {
    if |a| > 0 {
      var n := |a| - 1;
      assert FromBytes(a) == FromBytes(a[..n]) + ByteBits(a[n]);
      assert FromBytes(b) == FromBytes(b[..n]) + ByteBits(b[n]);
      hide FromBytes, ByteBits;
      SplitEqual(FromBytes(a[..n]), ByteBits(a[n]), FromBytes(b[..n]), ByteBits(b[n]));
      FromBytesInjective(a[..n], b[..n]);
      ByteBitsInjective(a[n], b[n]);
      assert a == a[..n] + [a[n]] && b == b[..n] + [b[n]];
    }
  }

  lemma SplitEqual(a: seq<bool>, x: seq<bool>, b: seq<bool>, y: seq<bool>)
    requires a + x == b + y && |a| == |b|
    ensures a == b && x == y
  {
    assert a == (a + x)[..|a|] && b == (b + y)[..|b|];
    assert x == (a + x)[|a|..] && y == (b + y)[|b|..];
  }

  lemma {:induction false} FromBytesConcat(a: seq<byte>, b: seq<byte>)
    ensures FromBytes(a + b) == FromBytes(a) + FromBytes(b)
  {
    hide ByteBits;
    if |b| == 0 {
      assert a + b == a;
    } else {
      var b' := b[..|b| - 1];
      FromBytesConcat(a, b');
      assert a + b == (a + b') + [b[|b| - 1]];
    }
  }

  lemma Associative<T>(a: seq<T>, b: seq<T>, c: seq<T>)
    ensures (a + b) + c == a + (b + c)
  {
  }

  lemma Peel4(a: seq<bool>, b: seq<bool>, c: seq<bool>, d: seq<bool>, rest: seq<bool>)
    ensures (a + (b + (c + d))) + rest == a + (b + (c + (d + rest)))
  {
  }
}
