/** Order hints and skip mode (src/codec/av1_obu.cc): distances on a circle, and the search for the nearest
    reference before and after the current frame. */
module Av1Order {
  import opened Bits

  // ---------------------------------------------------------------- relative distance

  /** `x & (m - 1)` for a power of two, in two's complement. */
  function LowBits(x: int, m: nat): nat
    requires m > 0
  {
    x % m
  }

  /** `x & m`: the next bit above. */
  function NextBit(x: int, m: nat): nat
    requires m > 0
  {
    if x % (2 * m) >= m then m else 0
  }

  /** relative_dist */
  function RelativeDist(a: int, b: int, enabled: bool, bits: nat): int
    requires bits > 0
  {
    if !enabled then 0
    else
      var m := Pow2(bits - 1);
      LowBits(a - b, m) - NextBit(a - b, m)
  }

  lemma DistOfRemainder(x: int, m: nat)
    requires m > 0
    ensures var d := LowBits(x, m) - NextBit(x, m);
            0 - m <= d < m && d == (if x % (2 * m) < m then x % (2 * m) else x % (2 * m) - 2 * m)
  {
    var q, r := x / (2 * m), x % (2 * m);
    assert x == q * (2 * m) + r;
    if r < m {
      Remainder(x, m, 2 * q, r);
    } else {
      Remainder(x, m, 2 * q + 1, r - m);
    }
  }

  lemma Remainder(x: int, d: nat, q: int, r: nat)
    requires d > 0 && r < d && x == q * d + r
    ensures x % d == r
  {
    QuotientRemainder(x, d, q, r);
  }

  /** It is the one number in [-m, m) that differs from a - b by a multiple of 2m. */
  lemma DistIsRepresentative(a: int, b: int, bits: nat, d: int, k: int)
    requires bits > 0
    ensures 0 - Pow2(bits - 1) <= RelativeDist(a, b, true, bits) < Pow2(bits - 1)
    ensures (a - b - RelativeDist(a, b, true, bits)) % (2 * Pow2(bits - 1)) == 0
    ensures var m := Pow2(bits - 1);
            0 - m <= d < m && a - b == d + k * (2 * m) ==> d == RelativeDist(a, b, true, bits)
  {
    var m: int := Pow2(bits - 1);
    var x := a - b;
    DistOfRemainder(x, m);
    var q, r := x / (2 * m), x % (2 * m);
    assert x == q * (2 * m) + r;
    Remainder(x - RelativeDist(a, b, true, bits), 2 * m, if r < m then q else q + 1, 0);
    if -m <= d < m && x == d + k * (2 * m) {
      if d >= 0 {
        Remainder(x, 2 * m, k, d);
      } else {
        Remainder(x, 2 * m, k - 1, d + 2 * m);
      }
    }
  }

  /** Two points less than half a circle behind, or ahead of, a third: their distance is the difference. */
  lemma DistDifference(a: int, b: int, c: int, bits: nat)
    requires bits > 0
    ensures var m, da, db := Pow2(bits - 1), RelativeDist(a, c, true, bits), RelativeDist(b, c, true, bits);
            0 - m <= da - db < m ==> RelativeDist(a, b, true, bits) == da - db
  {
    var m: int := Pow2(bits - 1);
    var da, db := RelativeDist(a, c, true, bits), RelativeDist(b, c, true, bits);
    var ka, kb := (a - c - da) / (2 * m), (b - c - db) / (2 * m);
    DistIsRepresentative(a, c, bits, da, 0);
    DistIsRepresentative(b, c, bits, db, 0);
    hide RelativeDist, Pow2;
    Factor(a - c - da, m);
    Factor(b - c - db, m);
    Subtract(ka, kb, 2 * m);
    DistIsRepresentative(a, b, bits, da - db, ka - kb);
  }

  lemma Factor(x: int, m: int)
    requires m > 0 && x % (2 * m) == 0
    ensures x == x / (2 * m) * (2 * m)
  {
  }

  lemma Subtract(a: int, b: int, d: int)
    ensures a * d - b * d == (a - b) * d
  {
  }

  /** Exactly half a circle ahead counts as half a circle behind. */
  lemma DistOpposite(a: int, b: int, c: int, bits: nat)
    requires bits > 0
    ensures var m := Pow2(bits - 1);
            RelativeDist(a, c, true, bits) == 0 && RelativeDist(b, c, true, bits) == 0 - m ==>
              RelativeDist(a, b, true, bits) == 0 - m
  {
    var m: int := Pow2(bits - 1);
    var da, db := RelativeDist(a, c, true, bits), RelativeDist(b, c, true, bits);
    var ka, kb := (a - c - da) / (2 * m), (b - c - db) / (2 * m);
    DistIsRepresentative(a, c, bits, da, 0);
    DistIsRepresentative(b, c, bits, db, 0);
    hide RelativeDist, Pow2;
    Factor(a - c - da, m);
    Factor(b - c - db, m);
    if da == 0 && db == -m {
      Subtract(ka, kb, 2 * m);
      Subtract(ka - kb + 1, 1, 2 * m);
      DistIsRepresentative(a, b, bits, -m, ka - kb + 1);
    }
  }

  // ---------------------------------------------------------------- skip mode

  /** Distance of reference `i` from the current frame. */
  function Dist(hints: seq<int>, current: int, bits: nat, i: nat): int
    requires bits > 0 && i < |hints|
  {
    RelativeDist(hints[i], current, true, bits)
  }

  /** `i` is the first of the nearest earlier references. */
  ghost predicate NearestBefore(hints: seq<int>, current: int, bits: nat, i: nat)
    requires bits > 0 && i < |hints|
  {
    && Dist(hints, current, bits, i) < 0
    && (forall j :: 0 <= j < |hints| && Dist(hints, current, bits, j) < 0 ==>
          Dist(hints, current, bits, j) <= Dist(hints, current, bits, i))
    && (forall j :: 0 <= j < i && Dist(hints, current, bits, j) < 0 ==>
          Dist(hints, current, bits, j) < Dist(hints, current, bits, i))
  }

  ghost predicate NearestAfter(hints: seq<int>, current: int, bits: nat, i: nat)
    requires bits > 0 && i < |hints|
  {
    && Dist(hints, current, bits, i) > 0
    && (forall j :: 0 <= j < |hints| && Dist(hints, current, bits, j) > 0 ==>
          Dist(hints, current, bits, j) >= Dist(hints, current, bits, i))
    && (forall j :: 0 <= j < i && Dist(hints, current, bits, j) > 0 ==>
          Dist(hints, current, bits, j) > Dist(hints, current, bits, i))
  }

  ghost predicate SomeBefore(hints: seq<int>, current: int, bits: nat)
    requires bits > 0
  {
    exists i :: 0 <= i < |hints| && Dist(hints, current, bits, i) < 0
  }

  ghost predicate SomeAfter(hints: seq<int>, current: int, bits: nat)
    requires bits > 0
  {
    exists i :: 0 <= i < |hints| && Dist(hints, current, bits, i) > 0
  }

  /** Two references on the same side compare as their distances from the current frame do. */
  lemma SameSide(hints: seq<int>, current: int, bits: nat, i: nat, j: nat)
    requires bits > 0 && i < |hints| && j < |hints|
    ensures var di, dj := Dist(hints, current, bits, i), Dist(hints, current, bits, j);
            (di < 0 && dj < 0) || (di > 0 && dj > 0) ==> RelativeDist(hints[i], hints[j], true, bits) == di - dj
  {
    DistIsRepresentative(hints[i], current, bits, 0, 0);
    DistIsRepresentative(hints[j], current, bits, 0, 0);
    hide RelativeDist, Pow2;
    DistDifference(hints[i], hints[j], current, bits);
  }

  /** The first search: the nearest reference on either side, -1 if there is none. */
  method Neighbours(hints: seq<int>, current: int, bits: nat) returns (forward: int, backward: int)
    requires bits > 0
    ensures -1 <= forward < |hints| && -1 <= backward < |hints|
    ensures if forward >= 0 then NearestBefore(hints, current, bits, forward) else !SomeBefore(hints, current, bits)
    ensures if backward >= 0 then NearestAfter(hints, current, bits, backward) else !SomeAfter(hints, current, bits)
  {
    hide RelativeDist;
    forward, backward := -1, -1;
    var forwardHint, backwardHint := 0, 0;
    for i := 0 to |hints|
      invariant -1 <= forward < i && -1 <= backward < i
      invariant forward >= 0 ==> forwardHint == hints[forward] && NearestBefore(hints[..i], current, bits, forward)
      invariant forward < 0 ==> !SomeBefore(hints[..i], current, bits)
      invariant backward >= 0 ==> backwardHint == hints[backward] && NearestAfter(hints[..i], current, bits, backward)
      invariant backward < 0 ==> !SomeAfter(hints[..i], current, bits)
    {
      var refHint := hints[i];
      var distance := RelativeDist(refHint, current, true, bits);
      if forward >= 0 {
        SameSide(hints, current, bits, i, forward);
      }
      if backward >= 0 {
        SameSide(hints, current, bits, i, backward);
      }
      OneMoreHint(hints, current, bits, i, forward, backward);
      if distance < 0 {
        if forward < 0 || RelativeDist(refHint, forwardHint, true, bits) > 0 {
          forward := i;
          forwardHint := refHint;
        }
      } else if distance > 0 {
        if backward < 0 || RelativeDist(refHint, backwardHint, true, bits) < 0 {
          backward := i;
          backwardHint := refHint;
        }
      }
    }
    assert hints[..|hints|] == hints;
  }

  /** What one more reference changes. */
  lemma OneMoreHint(hints: seq<int>, current: int, bits: nat, i: nat, forward: int, backward: int)
    requires bits > 0 && i < |hints| && -1 <= forward < i && -1 <= backward < i
    requires if forward >= 0 then NearestBefore(hints[..i], current, bits, forward) else !SomeBefore(hints[..i],
             current, bits)
    requires if backward >= 0 then NearestAfter(hints[..i], current, bits, backward) else !SomeAfter(hints[..i],
             current, bits)
    ensures var d := Dist(hints, current, bits, i);
            && (if d < 0 && (forward < 0 || d > Dist(hints, current, bits, forward)) then
                  NearestBefore(hints[..i + 1], current, bits, i)
                else if forward >= 0 then NearestBefore(hints[..i + 1], current, bits, forward)
                else !SomeBefore(hints[..i + 1], current, bits))
            && (if d > 0 && (backward < 0 || d < Dist(hints, current, bits, backward)) then
                  NearestAfter(hints[..i + 1], current, bits, i)
                else if backward >= 0 then NearestAfter(hints[..i + 1], current, bits, backward)
                else !SomeAfter(hints[..i + 1], current, bits))
  {
    hide RelativeDist;
    var a, b := hints[..i], hints[..i + 1];
    forall j | 0 <= j < i
      ensures Dist(b, current, bits, j) == Dist(a, current, bits, j)
    {
    }
    assert Dist(b, current, bits, i) == Dist(hints, current, bits, i);
  }

  /** A reference earlier than `hint`. */
  ghost predicate SomeEarlierThan(hints: seq<int>, hint: int, bits: nat)
    requires bits > 0
  {
    exists i :: 0 <= i < |hints| && RelativeDist(hints[i], hint, true, bits) < 0
  }

  /** When skip_mode_present is coded (section 5.9.22). */
  ghost predicate SkipModeAllowed(intra: bool, referenceSelect: bool, enabled: bool, hints: seq<int>, current: int,
                                  bits: nat)
    requires bits > 0
  {
    && !intra && referenceSelect && enabled
    && SomeBefore(hints, current, bits)
    && (SomeAfter(hints, current, bits)
        || exists f ::
             0 <= f < |hints| && NearestBefore(hints, current, bits, f) && SomeEarlierThan(hints, hints[f], bits))
  }

  /** The second search, among references earlier than the nearest earlier one. */
  method SecondForward(hints: seq<int>, forwardHint: int, bits: nat) returns (second: int)
    requires bits > 0
    ensures -1 <= second < |hints|
    ensures second >= 0 <==> SomeEarlierThan(hints, forwardHint, bits)
    ensures second >= 0 ==> RelativeDist(hints[second], forwardHint, true, bits) < 0
  {
    hide RelativeDist;
    second := -1;
    var secondHint := 0;
    for i := 0 to |hints|
      invariant -1 <= second < i
      invariant second >= 0 ==> secondHint == hints[second] && RelativeDist(hints[second], forwardHint, true, bits) < 0
      invariant second < 0 ==> forall j :: 0 <= j < i ==> RelativeDist(hints[j], forwardHint, true, bits) >= 0
    {
      if RelativeDist(hints[i], forwardHint, true, bits) < 0 {
        if second < 0 || RelativeDist(hints[i], secondHint, true, bits) > 0 {
          second := i;
          secondHint := hints[i];
        }
      }
    }
  }

  /** The flag is written exactly when the specification allows it. */
  method SkipModeFlag(intra: bool, referenceSelect: bool, enabled: bool, hints: seq<int>, current: int, bits: nat)
    returns (allowed: bool)
    requires bits > 0
    ensures allowed <==> SkipModeAllowed(intra, referenceSelect, enabled, hints, current, bits)
  {
    hide RelativeDist, Dist, SomeEarlierThan;
    allowed := false;
    if !intra && referenceSelect && enabled {
      var forward, backward := Neighbours(hints, current, bits);
      if forward >= 0 && backward >= 0 {
        allowed := true;
      } else if forward >= 0 {
        var second := SecondForward(hints, hints[forward], bits);
        allowed := second >= 0;
        assert forall g :: 0 <= g < |hints| && NearestBefore(hints, current, bits, g) ==> g == forward;
      }
    }
  }

  /** In terms of distances from the current frame: there are references on both sides, or two at different
      distances before it, or one before it at half the circle and one at its own place. */
  lemma SkipModeMeaning(hints: seq<int>, current: int, bits: nat, f: nat)
    requires bits > 0 && f < |hints| && NearestBefore(hints, current, bits, f) && !SomeAfter(hints, current, bits)
    ensures SomeEarlierThan(hints, hints[f], bits) <==>
              exists i :: 0 <= i < |hints|
                  && Earlier(Dist(hints, current, bits, i), Dist(hints, current, bits, f), bits)
  {
    hide NearestBefore, SomeAfter;
    forall i | 0 <= i < |hints|
      ensures RelativeDist(hints[i], hints[f], true, bits) < 0 <==>
                Earlier(Dist(hints, current, bits, i), Dist(hints, current, bits, f), bits)
    {
      EarlierMeans(hints, current, bits, f, i);
    }
    hide RelativeDist, Dist, Earlier;
  }

  /** `di` is before `df`, both being distances from the current frame; half the circle ahead wraps around. */
  predicate Earlier(di: int, df: int, bits: nat)
    requires bits > 0
  {
    di < df || (di == 0 && df == 0 - Pow2(bits - 1))
  }

  lemma EarlierMeans(hints: seq<int>, current: int, bits: nat, f: nat, i: nat)
    requires bits > 0 && f < |hints| && NearestBefore(hints, current, bits, f) && !SomeAfter(hints, current, bits)
    requires i < |hints|
    ensures RelativeDist(hints[i], hints[f], true, bits) < 0 <==>
              Earlier(Dist(hints, current, bits, i), Dist(hints, current, bits, f), bits)
  {
    var di, df := Dist(hints, current, bits, i), Dist(hints, current, bits, f);
    assert di <= 0 && df < 0;
    hide RelativeDist, Pow2;
    DistIsRepresentative(hints[i], current, bits, 0, 0);
    DistIsRepresentative(hints[f], current, bits, 0, 0);
    DistDifference(hints[i], hints[f], current, bits);
    DistOpposite(hints[i], hints[f], current, bits);
  }
}
