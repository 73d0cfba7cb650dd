/** Multiplication modulo 2^(64 N) - 1103717 on N limbs, for any N from 2 up to a million. */
module U3072s {
  import opened Limbs

  const PRIME_DIFF: nat := 1103717

  const MAX_LIMBS: nat := 0x10_0000

  /** The modulus for `n` limbs. For 48 limbs it is 2^3072 - 1103717. */
  ghost function Modulus(n: nat): int {
    Shift(1, n) - PRIME_DIFF
  }

  lemma ModulusLarge(n: nat)
    requires n >= 2
    ensures Modulus(n) >= B * B - PRIME_DIFF && Shift(1, n) >= B * B
  {
    ShiftTwice(1, 2, n - 2);
    assert Shift(1, 2) == B * Shift(1, 1) == B * B;
    ShiftLarge(B * B, n - 2);
  }

  lemma {:induction false} ShiftLarge(x: int, k: nat)
    requires x >= 0
    ensures Shift(x, k) >= x
  {
    if k > 0 { ShiftLarge(x, k - 1); }
  }

  // ----- columns of a product -----

  function Term(a: seq<Limb>, b: seq<Limb>, i: nat, k: nat): nat
    requires i < |a|
  {
    if 0 <= k - i < |b| then
      ProductBound(a[i], b[k - i]);
      var x: int, y: int := a[i], b[k - i];
      x * y
    else 0
  }

  /** The products of the first `r` limbs of `a` that belong to column `k`. */
  ghost function Column(a: seq<Limb>, b: seq<Limb>, r: nat, k: nat): nat
    requires r <= |a|
  {
    if r == 0 then 0 else Column(a, b, r - 1, k) + Term(a, b, r - 1, k)
  }

  /** The columns `from..from + n`, weighted from the zeroth power of the base. */
  ghost function Columns(a: seq<Limb>, b: seq<Limb>, r: nat, from: nat, n: nat): int
    requires r <= |a|
  {
    if n == 0 then 0 else Columns(a, b, r, from, n - 1) + Shift(Column(a, b, r, from + n - 1), n - 1)
  }

  ghost function Row(a: seq<Limb>, b: seq<Limb>, i: nat, n: nat): int
    requires i < |a|
  {
    if n == 0 then 0 else Row(a, b, i, n - 1) + Shift(Term(a, b, i, n - 1), n - 1)
  }

  lemma {:induction false} ColumnsStep(a: seq<Limb>, b: seq<Limb>, r: nat, n: nat)
    requires r < |a|
    ensures Columns(a, b, r + 1, 0, n) == Columns(a, b, r, 0, n) + Row(a, b, r, n)
  {
    if n > 0 {
      ColumnsStep(a, b, r, n - 1);
      ShiftAdd(Column(a, b, r, n - 1), Term(a, b, r, n - 1), n - 1);
    }
  }

  /** A row is its limb times the other number, shifted. */
  lemma {:induction false} RowIs(a: seq<Limb>, b: seq<Limb>, i: nat, n: nat)
    requires i < |a|
    ensures n <= i ==> Row(a, b, i, n) == 0
    ensures i <= n <= i + |b| ==> Row(a, b, i, n) == a[i] * Shift(Val(b[..n - i]), i)
    ensures n > i + |b| ==> Row(a, b, i, n) == a[i] * Shift(Val(b), i)
  {
    if n == 0 {
      if i == 0 { assert b[..0] == []; assert a[0] * Shift(0, 0) == 0; }
    } else {
      RowIs(a, b, i, n - 1);
      ShiftZero(n - 1);
      if i < n <= i + |b| {
        var m := n - 1 - i;
        assert b[..m + 1][..m] == b[..m];
        ShiftTwice(b[m], m, i);
        ShiftAdd(Val(b[..m]), Shift(b[m], m), i);
        ShiftTimes(a[i], b[m], n - 1);
        if m == 0 { assert b[..0] == []; ShiftZero(i); }
        Distribute(a[i], Shift(Val(b[..m]), i), Shift(b[m], n - 1));
      } else if n == i {
        ShiftZero(i);
        assert b[..0] == [] && a[i] * 0 == 0;
      } else if n > i + |b| {
        assert b[..|b|] == b;
      }
    }
  }

  lemma Distribute(a: int, x: int, y: int)
    ensures a * (x + y) == a * x + a * y
  {
  }

  /** The columns add up to the product. */
  lemma {:induction false} ColumnsAre(a: seq<Limb>, b: seq<Limb>, r: nat, n: nat)
    requires r <= |a| && n >= |a| + |b|
    ensures Columns(a, b, r, 0, n) == Val(a[..r]) * Val(b)
  {
    if r == 0 {
      NoColumns(a, b, n);
      assert 0 * Val(b) == 0;
    } else {
      ColumnsAre(a, b, r - 1, n);
      ColumnsStep(a, b, r - 1, n);
      RowIs(a, b, r - 1, n);
      assert b[..|b|] == b;
      assert a[..r][..r - 1] == a[..r - 1];
      ShiftTimes(a[r - 1], Val(b), r - 1);
      ShiftTimes(Val(b), a[r - 1], r - 1);
      assert a[r - 1] * Val(b) == Val(b) * a[r - 1];
      Distribute(Val(b), Val(a[..r - 1]), Shift(a[r - 1], r - 1));
    }
  }

  lemma {:induction false} NoColumns(a: seq<Limb>, b: seq<Limb>, n: nat)
    ensures Columns(a, b, 0, 0, n) == 0
  {
    if n > 0 {
      NoColumns(a, b, n - 1);
      ShiftZero(n - 1);
    }
  }

  lemma {:induction false} ColumnsSplit(a: seq<Limb>, b: seq<Limb>, r: nat, m: nat, n: nat)
    requires r <= |a|
    ensures Columns(a, b, r, 0, m + n) == Columns(a, b, r, 0, m) + Shift(Columns(a, b, r, m, n), m)
  {
    if n == 0 {
      ShiftZero(m);
    } else {
      ColumnsSplit(a, b, r, m, n - 1);
      ShiftAdd(Columns(a, b, r, m, n - 1), Shift(Column(a, b, r, m + n - 1), n - 1), m);
      ShiftTwice(Column(a, b, r, m + n - 1), n - 1, m);
    }
  }

  /** Below its diagonal a column has no products. */
  lemma {:induction false} ColumnLow(a: seq<Limb>, b: seq<Limb>, r: nat, k: nat)
    requires k < r <= |a|
    ensures Column(a, b, r, k) == Column(a, b, k + 1, k)
  {
    if r > k + 1 { ColumnLow(a, b, r - 1, k); }
  }

  /** A column beyond the length of `b` starts later. */
  lemma {:induction false} ColumnHigh(a: seq<Limb>, b: seq<Limb>, r: nat, k: nat)
    requires r <= |a| && r + |b| <= k + 1
    ensures Column(a, b, r, k) == 0
  {
    if r > 0 { ColumnHigh(a, b, r - 1, k); }
  }

  lemma {:induction false} ColumnBound(a: seq<Limb>, b: seq<Limb>, r: nat, k: nat)
    requires r <= |a|
    ensures Column(a, b, r, k) <= r * ((B - 1) * (B - 1))
  {
    if r > 0 {
      ColumnBound(a, b, r - 1, k);
      if 0 <= k - (r - 1) < |b| { ProductBound(a[r - 1], b[k - (r - 1)]); }
      StepBound(r);
    }
  }

  lemma StepBound(r: nat)
    requires r > 0
    ensures (r - 1) * ((B - 1) * (B - 1)) + (B - 1) * (B - 1) == r * ((B - 1) * (B - 1))
  {
  }

  // ----- overflow and full reduction -----

  /** Whether the limbs stand for a number that is not below the modulus. */
  predicate IsOverflow(s: seq<Limb>)
    requires s != []
  {
    s[0] > B - 1 - PRIME_DIFF && forall i :: 1 <= i < |s| ==> s[i] == B - 1
  }

  lemma {:induction false} MaxTail(s: seq<Limb>, n: nat)
    requires 1 <= n <= |s| && forall i :: 1 <= i < n ==> s[i] == B - 1
    ensures Val(s[..n]) == s[0] + Shift(1, n) - B
  {
    var m := n - 1;
    assert s[..n][..m] == s[..m];
    if n == 1 {
      assert s[..0] == [];
    } else {
      MaxTail(s, m);
      ShiftAdd(B - 1, 1, m);
      ShiftNext(1, m);
    }
  }

  lemma {:induction false} NotMax(s: seq<Limb>, i: nat)
    requires i < |s| && s[i] < B - 1
    ensures Val(s) + Shift(1, i) < Shift(1, |s|)
  {
    var n := |s| - 1;
    var x: int := s[n];
    ShiftNext(1, n);
    ShiftAdd(x, 1, n);
    ShiftMonotone(x + 1, B, n);
    if i == n {
      ValBound(s[..n]);
      ShiftAdd(x + 1, 1, n);
      ShiftMonotone(x + 2, B, n);
    } else {
      NotMax(s[..n], i);
    }
  }

  lemma OverflowMeans(s: seq<Limb>)
    requires s != []
    ensures IsOverflow(s) <==> Val(s) >= Modulus(|s|)
  {
    if i :| 1 <= i < |s| && s[i] != B - 1 {
      NotMax(s, i);
      ShiftTwice(1, 1, i - 1);
      ShiftLarge(B, i - 1);
      assert Shift(1, 1) == B;
    } else {
      MaxTail(s, |s|);
      assert s[..|s|] == s;
    }
  }

  /** Writes `source` plus a two-limb number into `a`, and returns what does not fit. */
  method AddInto(a: array<Limb>, source: seq<Limb>, low0: Limb, high0: Limb) returns (low: Limb, high: Limb)
    requires a.Length == |source|
    modifies a
    ensures Val(a[..]) + Shift(V2(low, high), a.Length) == Val(source) + V2(low0, high0)
  {
    low, high := low0, high0;
    for i := 0 to a.Length
      invariant Val(a[..i]) + Shift(V2(low, high), i) == Val(source[..i]) + V2(low0, high0)
    {
      ghost var before := V2(low, high);
      var sum := OverflowingAdd(low, source[i]);
      low := sum.0;
      sum := OverflowingAdd(high, AsLimb(sum.1));
      high := sum.0;
      AddStep(a[..i], source, i, low, V2(high, AsLimb(sum.1)), before, V2(low0, high0));
      a[i], low, high := low, high, AsLimb(sum.1);
      assert a[..i + 1] == a[..i] + [a[i]];
    }
    assert a[..] == a[..a.Length] && source[..|source|] == source;
  }

  lemma AddStep(done: seq<Limb>, source: seq<Limb>, i: nat, x: Limb, v': int, v: int, start: int)
    requires i < |source| && |done| == i && x + B * v' == v + source[i]
    requires Val(done) + Shift(v, i) == Val(source[..i]) + start
    ensures Val(done + [x]) + Shift(v', i + 1) == Val(source[..i + 1]) + start
  {
    ValAppend(done, x);
    assert source[..i + 1][..i] == source[..i];
    ShiftNext(v', i);
    ShiftAdd(x, B * v', i);
    ShiftAdd(v, source[i], i);
  }

  /** Adds the distance between modulus and power, dropping the carry: for a number that is not
      below the modulus, this subtracts the modulus. */
  method FullReduce(a: array<Limb>)
    requires a.Length >= 2
    modifies a
    ensures old(IsOverflow(a[..])) ==> Val(a[..]) == old(Val(a[..])) - Modulus(a.Length)
    ensures !old(IsOverflow(a[..])) ==> Val(a[..]) == old(Val(a[..])) + PRIME_DIFF
  {
    ghost var n := a.Length;
    OverflowMeans(a[..]);
    ValBound(a[..]);
    var low, high := AddInto(a, a[..], PRIME_DIFF, 0);
    ValBound(a[..]);
    ModulusLarge(n);
    CarryIs(V2(low, high), n, Val(a[..]), old(Val(a[..])) + PRIME_DIFF);
  }

  /** A carry out of a number below two powers is zero or one. */
  lemma CarryIs(v: int, n: nat, low: int, total: int)
    requires 0 <= v && 0 <= low < Shift(1, n) && low + Shift(v, n) == total && 0 <= total < 2 * Shift(1, n)
    ensures total < Shift(1, n) ==> v == 0 && low == total
    ensures total >= Shift(1, n) ==> v == 1 && low == total - Shift(1, n)
  {
    ShiftZero(n);
    ShiftAdd(1, 1, n);
    if v >= 2 { ShiftMonotone(2, v, n); }
    if v == 0 {} else if v >= 1 { ShiftMonotone(1, v, n); }
  }

  // ----- multiplication -----

  /** Bound on the carry between columns, in terms of the number of limbs. */
  ghost function CarryBound(n: nat): nat {
    B + (PRIME_DIFF + 1) * n * B
  }

  lemma ColumnSmall(a: seq<Limb>, b: seq<Limb>, r: nat, k: nat, n: nat)
    requires r <= |a| && r <= n <= MAX_LIMBS
    ensures Column(a, b, r, k) <= n * ((B - 1) * (B - 1)) < B * B * B
  {
    ColumnBound(a, b, r, k);
  }

  /** Column `n + j` of the product, as three limbs. */
  method HighColumn(x: seq<Limb>, y: seq<Limb>, j: nat) returns (low: Limb, high: Limb, carry: Limb)
    requires |x| == |y| && 2 <= |x| <= MAX_LIMBS && j + 1 < |x|
    ensures V3(low, high, carry) == Column(x, y, |x|, |x| + j)
  {
    var n := |x|;
    low, high := MulWide(x[j + 1], y[n + j - (1 + j)]);
    carry := 0;
    ColumnHigh(x, y, j + 1, n + j);
    assert Column(x, y, j + 2, n + j) == Column(x, y, j + 1, n + j) + Term(x, y, j + 1, n + j);
    for i := 2 + j to n
      invariant V3(low, high, carry) == Column(x, y, i, n + j)
    {
      ColumnSmall(x, y, i + 1, n + j, n);
      assert Column(x, y, i + 1, n + j) == Column(x, y, i, n + j) + Term(x, y, i, n + j);
      low, high, carry := MulAdd3(x[i], y[n + j - i], low, high, carry);
    }
  }

  /** Adds column `j` of the product to three limbs. */
  method AddLowColumn(x: seq<Limb>, y: seq<Limb>, j: nat, low0: Limb, high0: Limb, carry0: Limb)
    returns (low: Limb, high: Limb, carry: Limb)
    requires |x| == |y| && |x| <= MAX_LIMBS && j < |x|
    requires V3(low0, high0, carry0) + Column(x, y, |x|, j) < B * B * B
    ensures V3(low, high, carry) == V3(low0, high0, carry0) + Column(x, y, |x|, j)
  {
    low, high, carry := low0, high0, carry0;
    ColumnLow(x, y, |x|, j);
    for i := 0 to j + 1
      invariant V3(low, high, carry) == V3(low0, high0, carry0) + Column(x, y, i, j)
    {
      ColumnGrows(x, y, i + 1, j + 1, j);
      assert Column(x, y, i + 1, j) == Column(x, y, i, j) + Term(x, y, i, j);
      low, high, carry := MulAdd3(x[i], y[j - i], low, high, carry);
    }
  }

  lemma {:induction false} ColumnGrows(a: seq<Limb>, b: seq<Limb>, r: nat, m: nat, k: nat)
    requires r <= m <= |a|
    ensures Column(a, b, r, k) <= Column(a, b, m, k)
  {
    if r < m { ColumnGrows(a, b, r, m - 1, k); }
  }

  /** The columns up to `j`, with the columns beyond the last limb folded back once. */
  ghost function Folded(x: seq<Limb>, y: seq<Limb>, lower: nat, upper: nat): int
    requires |x| == |y|
  {
    Columns(x, y, |x|, 0, lower) + PRIME_DIFF * Columns(x, y, |x|, |x|, upper)
  }

  lemma FoldedStep(x: seq<Limb>, y: seq<Limb>, j: nat)
    requires |x| == |y|
    ensures Folded(x, y, j + 1, j + 1)
            == Folded(x, y, j, j) + Shift(Column(x, y, |x|, j) + PRIME_DIFF * Column(x, y, |x|, |x| + j), j)
    ensures Folded(x, y, j + 1, j) == Folded(x, y, j, j) + Shift(Column(x, y, |x|, j), j)
  {
    ShiftAdd(Column(x, y, |x|, j), PRIME_DIFF * Column(x, y, |x|, |x| + j), j);
    ShiftTimes(PRIME_DIFF, Column(x, y, |x|, |x| + j), j);
  }

  /** Taking the lowest limb off a three-limb sum. */
  lemma TakeLimb(tmp: seq<Limb>, j: nat, v: int, more: int, low: Limb, high: Limb, carry: Limb, total: int)
    requires |tmp| == j && Val(tmp) + Shift(v, j) == total && V3(low, high, carry) == v + more
    ensures Val(tmp + [low]) + Shift(V2(high, carry), j + 1) == total + Shift(more, j)
  {
    ValAppend(tmp, low);
    ShiftAdd(v, more, j);
    ShiftAdd(low, B * V2(high, carry), j);
    ShiftNext(V2(high, carry), j);
    assert low + B * V2(high, carry) == V3(low, high, carry);
  }

  lemma CarrySmall(n: nat, v: int, c: int, h: int, low: Limb, high: Limb, carry: Limb)
    requires n <= MAX_LIMBS && 0 <= v <= CarryBound(n) && 0 <= c <= n * ((B - 1) * (B - 1))
             && 0 <= h <= n * ((B - 1) * (B - 1))
    ensures v + c + PRIME_DIFF * h < B * B * B
    ensures V3(low, high, carry) == v + c + PRIME_DIFF * h ==> V2(high, carry) <= CarryBound(n)
  {
  }

  /** The folded columns of the product, as limbs and a two-limb carry. */
  method MulColumns(x: seq<Limb>, y: seq<Limb>) returns (tmp: seq<Limb>, carryLow: Limb, carryHigh: Limb)
    requires |x| == |y| && 2 <= |x| <= MAX_LIMBS
    ensures |tmp| == |x| && Val(tmp) + Shift(V2(carryLow, carryHigh), |x|) == Folded(x, y, |x|, |x| - 1)
    ensures V2(carryLow, carryHigh) <= CarryBound(|x|)
  {
    hide Column, Columns, Folded, Shift, Val, CarryBound;
    var n := |x|;
    var carryHighest: Limb := 0;
    carryLow, carryHigh, tmp := 0, 0, [];
    NothingFolded(x, y, n);
    for j := 0 to n - 1
      invariant |tmp| == j && carryHighest == 0 && Val(tmp) + Shift(V2(carryLow, carryHigh), j) == Folded(x, y, j, j)
      invariant V2(carryLow, carryHigh) <= CarryBound(n)
    {
      ghost var v := V2(carryLow, carryHigh);
      ColumnSmall(x, y, n, j, n);
      ColumnSmall(x, y, n, n + j, n);
      var low, high, carry := HighColumn(x, y, j);
      CarrySmall(n, v, Column(x, y, n, j), Column(x, y, n, n + j), 0, 0, 0);
      carryLow, carryHigh, carryHighest := MulNAdd3(carryLow, carryHigh, low, high, carry, PRIME_DIFF);
      carryLow, carryHigh, carryHighest := AddLowColumn(x, y, j, carryLow, carryHigh, carryHighest);
      CarrySmall(n, v, Column(x, y, n, j), Column(x, y, n, n + j), carryLow, carryHigh, carryHighest);
      TakeLimb(tmp, j, v, Column(x, y, n, j) + PRIME_DIFF * Column(x, y, n, n + j), carryLow, carryHigh, carryHighest,
               Folded(x, y, j, j));
      FoldedStep(x, y, j);
      tmp, carryLow, carryHigh, carryHighest := tmp + [carryLow], carryHigh, carryHighest, 0;
    }
    assert carryHighest == 0;
    ghost var v, j := V2(carryLow, carryHigh), n - 1;
    ColumnSmall(x, y, n, j, n);
    CarrySmall(n, v, Column(x, y, n, j), 0, 0, 0, 0);
    carryLow, carryHigh, carryHighest := AddLowColumn(x, y, n - 1, carryLow, carryHigh, carryHighest);
    CarrySmall(n, v, Column(x, y, n, j), 0, carryLow, carryHigh, carryHighest);
    TakeLimb(tmp, j, v, Column(x, y, n, j), carryLow, carryHigh, carryHighest, Folded(x, y, j, j));
    FoldedStep(x, y, j);
    tmp, carryLow, carryHigh := tmp + [carryLow], carryHigh, carryHighest;
  }

  lemma NothingFolded(x: seq<Limb>, y: seq<Limb>, n: nat)
    requires |x| == |y|
    ensures Val([]) + Shift(V2(0, 0), 0) == Folded(x, y, 0, 0) && V2(0, 0) <= CarryBound(n)
  {
  }

  /** Folding the upper columns back once leaves the product unchanged modulo the modulus. */
  lemma FoldedProduct(x: seq<Limb>, y: seq<Limb>)
    requires |x| == |y| && |x| >= 1
    ensures Val(x) * Val(y) == Folded(x, y, |x|, |x| - 1) + Columns(x, y, |x|, |x|, |x| - 1) * Modulus(|x|)
  {
    var n := |x|;
    var h := Columns(x, y, n, n, n - 1);
    ColumnsAre(x, y, n, n + n);
    assert x[..n] == x;
    ColumnsSplit(x, y, n, n, n);
    ColumnHigh(x, y, n, n + n - 1);
    ShiftZero(n - 1);
    assert Columns(x, y, n, n, n) == h;
    ShiftTimes(h, 1, n);
    assert h * (Shift(1, n) - PRIME_DIFF) == h * Shift(1, n) - h * PRIME_DIFF;
  }

  // ----- congruence -----

  ghost function Multiple(k: int, m: int): int {
    k * m
  }

  ghost predicate Congruent(x: int, y: int, m: int) {
    exists k :: x == y + Multiple(k, m)
  }

  lemma CongruentBy(x: int, y: int, m: int, k: int)
    requires x == y + k * m
    ensures Congruent(x, y, m)
  {
    assert x == y + Multiple(k, m);
  }

  lemma CongruentSame(x: int, m: int)
    ensures Congruent(x, x, m)
  {
    CongruentBy(x, x, m, 0);
  }

  lemma CongruentSym(x: int, y: int, m: int)
    requires Congruent(x, y, m)
    ensures Congruent(y, x, m)
  {
    var k :| x == y + Multiple(k, m);
    assert (-k) * m == -(k * m);
    CongruentBy(y, x, m, -k);
  }

  lemma CongruentTrans(x: int, y: int, z: int, m: int)
    requires Congruent(x, y, m) && Congruent(y, z, m)
    ensures Congruent(x, z, m)
  {
    var k :| x == y + Multiple(k, m);
    var l :| y == z + Multiple(l, m);
    assert (k + l) * m == k * m + l * m;
    CongruentBy(x, z, m, k + l);
  }

  lemma CongruentTimes(x: int, y: int, u: int, v: int, m: int)
    requires Congruent(x, y, m) && Congruent(u, v, m)
    ensures Congruent(x * u, y * v, m)
  {
    var k :| x == y + Multiple(k, m);
    var l :| u == v + Multiple(l, m);
    var q := y * l + k * v + k * l * m;
    assert (y + k * m) * (v + l * m) == y * v + y * (l * m) + (k * m) * v + (k * m) * (l * m);
    assert y * (l * m) == (y * l) * m && (k * m) * v == (k * v) * m && (k * m) * (l * m) == (k * l * m) * m;
    assert (y * l + k * v + k * l * m) * m == (y * l) * m + (k * v) * m + (k * l * m) * m;
    CongruentBy(x * u, y * v, m, q);
  }

  lemma CongruentUnique(x: int, y: int, m: int)
    requires Congruent(x, y, m) && 0 <= x < m && 0 <= y < m
    ensures x == y
  {
    var k :| x == y + Multiple(k, m);
    if k >= 1 { ProductMonotone(1, m, k, m); }
    if k <= -1 { ProductMonotone(1, m, -k, m); }
  }

  // ----- the whole multiplication -----

  /** How the second reduction continues the first. */
  lemma SecondReduction(x: seq<Limb>, y: seq<Limb>, tmp: int, v: int, total: int)
    requires |x| == |y| && |x| >= 1
    requires tmp + Shift(v, |x|) == Folded(x, y, |x|, |x| - 1) && total == tmp + PRIME_DIFF * v
    ensures Congruent(Val(x) * Val(y), total, Modulus(|x|))
  {
    hide Folded, Columns, Val, Congruent, Shift;
    var n, h := |x|, Columns(x, y, |x|, |x|, |x| - 1);
    FoldedProduct(x, y);
    ShiftTimes(v, 1, n);
    TwoFolds(v, h, Shift(1, n));
    CongruentBy(Val(x) * Val(y), total, Modulus(n), v + h);
  }

  lemma TwoFolds(v: int, h: int, p: int)
    ensures (v + h) * (p - PRIME_DIFF) == v * p - PRIME_DIFF * v + h * (p - PRIME_DIFF)
  {
    var m := p - PRIME_DIFF;
    assert (v + h) * m == v * m + h * m;
    assert v * (p - PRIME_DIFF) == v * p - v * PRIME_DIFF;
  }

  lemma CarryFits(n: nat, v: int)
    requires 2 <= n <= MAX_LIMBS && 0 <= v <= CarryBound(n)
    ensures 0 <= PRIME_DIFF * v && PRIME_DIFF * v + 2 * PRIME_DIFF < B * B <= Shift(1, n)
  {
    ModulusLarge(n);
  }

  /** Multiplies `a` by `other`, reduced or not, modulo the modulus. The result is the canonical
      residue; no step overflows its limbs, and the final carry is zero or one. */
  method Mul(a: array<Limb>, other: seq<Limb>)
    requires a.Length == |other| && 2 <= a.Length <= MAX_LIMBS
    modifies a
    ensures Val(a[..]) < Modulus(a.Length)
    ensures Congruent(old(Val(a[..])) * Val(other), Val(a[..]), Modulus(a.Length))
  {
    hide Folded, CarryBound, Congruent, Modulus, Shift;
    ghost var x, n := a[..], a.Length;
    var tmp, carryLow, carryHigh := MulColumns(a[..], other);
    ghost var v := V2(carryLow, carryHigh);
    CarryFits(n, v);
    carryLow, carryHigh := MulN2(carryLow, carryHigh, PRIME_DIFF);
    ghost var total := Val(tmp) + PRIME_DIFF * v;
    SecondReduction(x, other, Val(tmp), v, total);
    ValBound(tmp);
    carryLow, carryHigh := AddInto(a, tmp, carryLow, carryHigh);
    ValBound(a[..]);
    CarryIs(V2(carryLow, carryHigh), n, Val(a[..]), total);
    assert carryHigh == 0;
    assert carryLow == 0 || carryLow == 1;
    ModulusIs(n);
    OverflowMeans(a[..]);
    if IsOverflow(a[..]) {
      assert carryLow == 0;
      FullReduce(a);
      SubtractModulus(old(Val(a[..])) * Val(other), total, n);
    }
    if carryLow != 0 {
      FullReduce(a);
      SubtractModulus(old(Val(a[..])) * Val(other), total, n);
    }
  }

  lemma ModulusIs(n: nat)
    requires n >= 2
    ensures Modulus(n) == Shift(1, n) - PRIME_DIFF && Shift(1, n) >= B * B
  {
    ModulusLarge(n);
  }

  lemma SubtractModulus(x: int, total: int, n: nat)
    requires Congruent(x, total, Modulus(n))
    ensures Congruent(x, total - Modulus(n), Modulus(n))
  {
    CongruentBy(total, total - Modulus(n), Modulus(n), 1);
    CongruentTrans(x, total, total - Modulus(n), Modulus(n));
  }
}
