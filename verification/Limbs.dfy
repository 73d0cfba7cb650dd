/** Numbers in base 2^64, and the multiply-and-add steps on two or three limbs. */
module Limbs {

  const B: nat := 0x1_0000_0000_0000_0000

  type Limb = x: nat | x < B

  /** `x` times the `k`-th power of the base. */
  ghost function Shift(x: int, k: nat): int {
    if k == 0 then x else B * Shift(x, k - 1)
  }

  lemma {:induction false} ShiftAdd(x: int, y: int, k: nat)
    ensures Shift(x + y, k) == Shift(x, k) + Shift(y, k)
  {
    if k > 0 { ShiftAdd(x, y, k - 1); }
  }

  lemma {:induction false} ShiftNext(x: int, k: nat)
    ensures Shift(B * x, k) == Shift(x, k + 1)
  {
    if k > 0 { ShiftNext(x, k - 1); }
  }

  lemma {:induction false} ShiftTwice(x: int, j: nat, k: nat)
    ensures Shift(Shift(x, j), k) == Shift(x, j + k)
  {
    if k > 0 { ShiftTwice(x, j, k - 1); }
  }

  lemma {:induction false} ShiftMonotone(x: int, y: int, k: nat)
    requires x <= y
    ensures Shift(x, k) <= Shift(y, k) && (0 <= x ==> 0 <= Shift(x, k))
    ensures x < y ==> Shift(x, k) < Shift(y, k)
  {
    if k > 0 { ShiftMonotone(x, y, k - 1); }
  }

  lemma {:induction false} ShiftTimes(a: int, x: int, k: nat)
    ensures Shift(a * x, k) == a * Shift(x, k)
  {
    if k > 0 {
      ShiftTimes(a, x, k - 1);
      assert B * (a * Shift(x, k - 1)) == a * (B * Shift(x, k - 1));
    }
  }

  /** The number a list of limbs stands for, least significant limb first. */
  ghost function Val(s: seq<Limb>): nat {
    if s == [] then 0
    else
      ShiftMonotone(0, s[|s| - 1], |s| - 1);
      ShiftZero(|s| - 1);
      Val(s[..|s| - 1]) + Shift(s[|s| - 1], |s| - 1)
  }

  lemma {:induction false} ShiftZero(k: nat)
    ensures Shift(0, k) == 0
  {
    if k > 0 { ShiftZero(k - 1); }
  }

  lemma ValAppend(s: seq<Limb>, x: Limb)
    ensures Val(s + [x]) == Val(s) + Shift(x, |s|)
  {
    assert (s + [x])[..|s|] == s;
  }

  lemma {:induction false} ValBound(s: seq<Limb>)
    ensures Val(s) < Shift(1, |s|)
  {
    if s != [] {
      var n := |s| - 1;
      ValBound(s[..n]);
      var x: int := s[n];
      ShiftMonotone(x + 1, B, n);
      ShiftAdd(x, 1, n);
      ShiftNext(1, n);
    }
  }

  function V2(low: int, high: int): int {
    low + high * B
  }

  function V3(low: int, high: int, carry: int): int {
    low + high * B + carry * B * B
  }

  lemma ProductBound(a: Limb, b: Limb)
    ensures 0 <= a * b <= (B - 1) * (B - 1)
  {
    var m: int := B - 1;
    ProductMonotone(a, b, m, m);
  }

  lemma ProductMonotone(a: int, b: int, c: int, d: int)
    requires 0 <= a <= c && 0 <= b <= d
    ensures 0 <= a * b <= c * d
  {
    assert a * b <= c * b;
    assert c * b <= c * d;
  }

  /** The sum of two limbs and whether it overflowed. */
  function OverflowingAdd(x: Limb, y: Limb): (r: (Limb, bool))
    ensures x + y == r.0 + if r.1 then B else 0
  {
    if x + y < B then (x + y, false) else (x + y - B, true)
  }

  function AsLimb(b: bool): Limb {
    if b then 1 else 0
  }

  /** The product of two limbs as two limbs. */
  method MulWide(a: Limb, b: Limb) returns (low: Limb, high: Limb)
    ensures V2(low, high) == a * b && high <= B - 2
  {
    ProductBound(a, b);
    var t := a * b;
    low, high := t % B, t / B;
  }

  /** `[low, high, carry]` plus a product, provided it fits in three limbs. */
  method MulAdd3(a: Limb, b: Limb, low: Limb, high: Limb, carry: Limb) returns (low': Limb, high': Limb, carry': Limb)
    requires V3(low, high, carry) + a * b < B * B * B
    ensures V3(low', high', carry') == V3(low, high, carry) + a * b
  {
    var tl, th := MulWide(a, b);
    var sum := OverflowingAdd(low, tl);
    low' := sum.0;
    th := th + AsLimb(sum.1);
    sum := OverflowingAdd(high, th);
    high' := sum.0;
    carry' := carry + AsLimb(sum.1);
  }

  /** `[c0, c1] + n * [d0, d1, d2]`, provided it fits in three limbs. */
  method MulNAdd3(c0: Limb, c1: Limb, d0: Limb, d1: Limb, d2: Limb, n: Limb) returns (r0: Limb, r1: Limb, r2: Limb)
    requires V2(c0, c1) + V3(d0 * n, d1 * n, d2 * n) < B * B * B
    ensures V3(r0, r1, r2) == V2(c0, c1) + V3(d0 * n, d1 * n, d2 * n)
  {
    ProductBound(d0, n);
    ProductBound(d1, n);
    ProductBound(d2, n);
    r0, r1, r2 := AddProducts(c0, c1, d0 * n, d1 * n, d2 * n);
  }

  method AddProducts(c0: Limb, c1: Limb, p0: nat, p1: nat, p2: nat) returns (r0: Limb, r1: Limb, r2: Limb)
    requires V2(c0, c1) + V3(p0, p1, p2) < B * B * B && p0 <= (B - 1) * (B - 1) && p1 <= (B - 1) * (B - 1)
    ensures V3(r0, r1, r2) == V2(c0, c1) + V3(p0, p1, p2)
  {
    var t := p0 + c0;
    assert t < B * B;
    r0 := t % B;
    t := t / B;
    t := t + p1 + c1;
    assert t < B * B;
    r1 := t % B;
    t := t / B;
    r2 := t + p2;
  }

  /** `[low, high] * n`, provided it fits in two limbs. */
  method MulN2(low: Limb, high: Limb, n: Limb) returns (low': Limb, high': Limb)
    requires V2(low * n, high * n) < B * B
    ensures V2(low', high') == V2(low * n, high * n)
  {
    ProductBound(low, n);
    ProductBound(high, n);
    var t := low * n;
    low' := t % B;
    t := t / B;
    t := t + high * n;
    assert t < B * B;
    high' := t;
  }
}
