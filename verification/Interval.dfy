/** Reachability intervals: closed ranges of 64-bit labels, and the two ways a range is
    divided among tree children. */
module Intervals {

  const U64_MAX: nat := 0xFFFF_FFFF_FFFF_FFFF

  datatype RawInterval = Interval(start: nat, end: nat)

  /** The assertions of the constructor: the bounds stay one away from both ends of the
      64-bit range, and an empty interval has `end == start - 1`. Every interval built in
      the model is checked against them, so they also rule out overflow and underflow. */
  type Interval = i: RawInterval | 0 < i.start <= i.end + 1 && i.end < U64_MAX
    witness RawInterval.Interval(1, 0)

  function Size(i: Interval): nat {
    i.end + 1 - i.start
  }

  predicate IsEmpty(i: Interval) {
    Size(i) == 0
  }

  predicate Contains(i: Interval, o: Interval) {
    i.start <= o.start && o.end <= i.end
  }

  predicate StrictlyContains(i: Interval, o: Interval) {
    i.start <= o.start && o.end < i.end
  }

  function Increase(i: Interval, offset: nat): Interval
    requires i.end + offset < U64_MAX
  {
    Interval(i.start + offset, i.end + offset)
  }

  function Decrease(i: Interval, offset: nat): Interval
    requires offset < i.start && offset <= i.end
  {
    Interval(i.start - offset, i.end - offset)
  }

  function IncreaseStart(i: Interval, offset: nat): Interval
    requires i.start + offset <= i.end + 1
  {
    Interval(i.start + offset, i.end)
  }

  function DecreaseStart(i: Interval, offset: nat): Interval
    requires offset < i.start
  {
    Interval(i.start - offset, i.end)
  }

  function IncreaseEnd(i: Interval, offset: nat): Interval
    requires i.end + offset < U64_MAX
  {
    Interval(i.start, i.end + offset)
  }

  function DecreaseEnd(i: Interval, offset: nat): Interval
    requires i.start + offset <= i.end + 1 && offset <= i.end
  {
    Interval(i.start, i.end - offset)
  }

  /** The distance between neighbouring 32-bit floating point numbers, of 24 significant bits, at
      the size of `n`. */
  function Ulp(n: nat): (u: nat)
    ensures u >= 1 && n < 0x100_0000 * u && (u > 1 ==> 0x80_0000 * u <= n)
  {
    if n < 0x100_0000 then 1 else 2 * Ulp(n / 2)
  }

  /** The nearest 32-bit floating point number, ties to the one with an even significand. */
  function RoundF32(n: nat): nat {
    var u := Ulp(n);
    var q, rest := n / u, n % u;
    if 2 * rest < u || (2 * rest == u && q % 2 == 0) then q * u else (q + 1) * u
  }

  /** Half of the rounded size, rounded up. */
  function HalfF32(n: nat): nat {
    (RoundF32(n) + 1) / 2
  }

  lemma DivMod(n: nat, u: nat)
    requires u >= 1
    ensures (n / u) * u + n % u == n && (n / u + 1) * u == n - n % u + u
  {
  }

  /** The half is exact, rounded up, for sizes of up to 24 bits. Otherwise it is off by at most half a
      label and a quarter of the distance between neighbouring numbers. */
  lemma HalfNear(n: nat)
    requires n >= 1
    ensures 1 <= HalfF32(n) <= n
    ensures n < 0x100_0000 ==> HalfF32(n) == (n + 1) / 2
    ensures n - 1 - Ulp(n) / 2 <= 2 * HalfF32(n) <= n + 1 + Ulp(n) / 2
  {
    var u := Ulp(n);
    DivMod(n, u);
    assert n - u / 2 - 1 <= RoundF32(n) <= n + u / 2;
  }

  /** Splits a non-empty interval in two; the left part has half the labels, as floating point
      rounds it. */
  method SplitHalf(i: Interval) returns (left: Interval, right: Interval)
    requires !IsEmpty(i)
    ensures left.start == i.start && right.end == i.end && left.end + 1 == right.start
    ensures Size(left) == HalfF32(Size(i)) && !IsEmpty(left)
  {
    HalfNear(Size(i));
    hide HalfF32;
    var leftSize := HalfF32(Size(i));
    left := Interval(i.start, i.start + leftSize - 1);
    right := Interval(i.start + leftSize, i.end);
  }

  function Sum(sizes: seq<nat>): nat {
    if sizes == [] then 0 else Sum(sizes[..|sizes| - 1]) + sizes[|sizes| - 1]
  }

  lemma {:induction false} SumPrefix(sizes: seq<nat>, n: nat)
    requires n <= |sizes|
    ensures Sum(sizes[..n]) <= Sum(sizes)
    decreases |sizes|
  {
    if n == |sizes| {
      assert sizes[..n] == sizes;
    } else {
      SumPrefix(sizes[..|sizes| - 1], n);
      assert sizes[..|sizes| - 1][..n] == sizes[..n];
    }
  }

  /** `parts` tiles `i` from its first label to its last, leaving nothing out. */
  ghost predicate Tiles(i: Interval, parts: seq<Interval>) {
    && (|parts| > 0 ==> parts[0].start == i.start && parts[|parts| - 1].end == i.end)
    && forall k :: 0 < k < |parts| ==> parts[k].start == parts[k - 1].end + 1
  }

  /** Splits an interval into parts of exactly the given sizes. */
  method SplitExact(i: Interval, sizes: seq<nat>) returns (parts: seq<Interval>)
    requires Sum(sizes) == Size(i)
    ensures |parts| == |sizes|
    ensures forall k :: 0 <= k < |sizes| ==> Size(parts[k]) == sizes[k]
    ensures forall k :: 0 <= k < |sizes| ==> Contains(i, parts[k])
    ensures Tiles(i, parts)
  {
    parts := [];
    var start := i.start;
    for k := 0 to |sizes|
      invariant |parts| == k
      invariant start == i.start + Sum(sizes[..k])
      invariant k > 0 ==> parts[0].start == i.start && parts[k - 1].end + 1 == start
      invariant forall j :: 0 <= j < k ==> Size(parts[j]) == sizes[j] && Contains(i, parts[j])
      invariant forall j :: 0 < j < k ==> parts[j].start == parts[j - 1].end + 1
    {
      assert sizes[..k + 1][..k] == sizes[..k];
      SumPrefix(sizes, k + 1);
      parts := parts + [Interval(start, start + sizes[k] - 1)];
      start := start + sizes[k];
    }
    assert sizes[..|sizes|] == sizes;
  }

  /** Splits an interval so that every part gets at least its demanded size. The surplus is
      shared by rounded floating-point fractions: any share up to what remains, and the
      last part takes the rest. */
  method SplitExponential(i: Interval, sizes: seq<nat>) returns (parts: seq<Interval>)
    requires 0 < Sum(sizes) <= Size(i)
    ensures |parts| == |sizes|
    ensures forall k :: 0 <= k < |sizes| ==> Size(parts[k]) >= sizes[k]
    ensures forall k :: 0 <= k < |sizes| ==> Contains(i, parts[k])
    ensures Tiles(i, parts)
  {
    if Size(i) == Sum(sizes) {
      parts := SplitExact(i, sizes);
      return;
    }
    var remainingBias := Size(i) - Sum(sizes);
    var biased: seq<nat> := [];
    for k := 0 to |sizes|
      invariant |biased| == k
      invariant forall j :: 0 <= j < k ==> biased[j] >= sizes[j]
      invariant 0 <= remainingBias
      invariant Sum(biased) + remainingBias == Sum(sizes[..k]) + (Size(i) - Sum(sizes))
      invariant k == |sizes| ==> remainingBias == 0
    {
      var bias: nat;
      if k == |sizes| - 1 {
        bias := remainingBias;
      } else {
        bias :| 0 <= bias <= remainingBias;
      }
      assert sizes[..k + 1][..k] == sizes[..k];
      assert (biased + [sizes[k] + bias])[..k] == biased;
      biased := biased + [sizes[k] + bias];
      remainingBias := remainingBias - bias;
    }
    assert sizes[..|sizes|] == sizes;
    parts := SplitExact(i, biased);
  }
}
