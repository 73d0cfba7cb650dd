// The address checksum (crypto/addresses/src/bech32.rs): a forty-bit remainder that is fed
// one five-bit symbol at a time.
module Checksums {

  /** Remainders have forty bits. */
  predicate Fits(c: bv64) { c <= 0xff_ffff_ffff }

  /** Thirty-five bits: nothing leaves at the next step. */
  predicate Short(c: bv64) { c <= 0x7_ffff_ffff }

  /** The last five bits. */
  function Last(c: bv64): bv64 { c & 31 }

  function Xor(a: bv64, b: bv64): bv64 { a ^ b }

  /** The five bits that leave the remainder. */
  function Top(c: bv64): bv64 { c >> 35 }

  /** The remainder shifted by one symbol. */
  function Shifted(c: bv64): bv64 { (c & 0x07_ffff_ffff) << 5 }

  function Wide(d: bv5): bv64 { d as bv64 }

  /** The reduction owed for the five bits that left. */
  function Reduction(top: bv64): bv64 {
    (if top & 0x01 != 0 then 0x98_f2bc_8e61 else 0)
    ^ (if top & 0x02 != 0 then 0x79_b76d_99e2 else 0)
    ^ (if top & 0x04 != 0 then 0xf3_3e5f_b3c4 else 0)
    ^ (if top & 0x08 != 0 then 0xae_2eab_e2a8 else 0)
    ^ (if top & 0x10 != 0 then 0x1e_4f43_e470 else 0)
  }

  function Step(c: bv64, d: bv5): bv64 {
    Xor(Xor(Shifted(c), Wide(d)), Reduction(Top(c)))
  }

  lemma StepFits(c: bv64, d: bv5)
    ensures Fits(Step(c, d))
  {
  }

  lemma ReductionLow(top: bv64)
    requires top < 32
    ensures Last(Reduction(top)) == top
  {
  }

  /** The lowest symbol of the new remainder tells what left the old one. */
  lemma StepLow(c: bv64, d: bv5)
    requires Fits(c)
    ensures Last(Step(c, d)) == Xor(Wide(d), Top(c))
  {
    assert Top(c) < 32;
    ReductionLow(Top(c));
    hide Reduction;
  }

  lemma XorCancel(a: bv64, b: bv64, c: bv64)
    requires Xor(a, b) == Xor(a, c)
    ensures b == c
  {
  }

  lemma XorCancelLeft(a: bv64, b: bv64, c: bv64)
    requires Xor(a, c) == Xor(b, c)
    ensures a == b
  {
  }

  lemma Parts(c: bv64, e: bv64)
    requires Fits(c) && Fits(e) && Top(c) == Top(e) && Shifted(c) == Shifted(e)
    ensures c == e
  {
  }

  /** A step loses nothing of the remainder. */
  lemma StepState(c: bv64, e: bv64, d: bv5)
    requires Fits(c) && Fits(e) && Step(c, d) == Step(e, d)
    ensures c == e
  {
    StepLow(c, d);
    StepLow(e, d);
    hide Xor, Top, Shifted, Wide, Reduction, Last, Fits;
    XorCancel(Wide(d), Top(c), Top(e));
    XorCancelLeft(Xor(Shifted(c), Wide(d)), Xor(Shifted(e), Wide(d)), Reduction(Top(c)));
    XorCancelLeft(Shifted(c), Shifted(e), Wide(d));
    Parts(c, e);
  }

  /** The remainder of a run of symbols. */
  function Fold(c: bv64, xs: seq<bv5>): bv64 {
    if xs == [] then c else Step(Fold(c, xs[..|xs| - 1]), xs[|xs| - 1])
  }

  lemma {:induction false} FoldAppend(c: bv64, xs: seq<bv5>, ys: seq<bv5>)
    ensures Fold(c, xs + ys) == Fold(Fold(c, xs), ys)
    decreases |ys|
  {
    hide Step, Fits;
    if ys == [] {
      assert xs + ys == xs;
    } else {
      var u := ys[..|ys| - 1];
      FoldAppend(c, xs, u);
      assert (xs + ys)[..|xs + ys| - 1] == xs + u;
    }
  }

  lemma FoldFits(c: bv64, xs: seq<bv5>)
    requires Fits(c)
    ensures Fits(Fold(c, xs))
  {
    if xs != [] {
      StepFits(Fold(c, xs[..|xs| - 1]), xs[|xs| - 1]);
      hide Step, Fits;
    }
  }

  /** A run of symbols loses nothing of the remainder it starts from. */
  lemma {:induction false} FoldState(c: bv64, e: bv64, xs: seq<bv5>)
    requires Fits(c) && Fits(e) && Fold(c, xs) == Fold(e, xs)
    ensures c == e
    decreases |xs|
  {
    hide Step, Fits;
    if xs != [] {
      var u := xs[..|xs| - 1];
      FoldFits(c, u);
      FoldFits(e, u);
      StepState(Fold(c, u), Fold(e, u), xs[|xs| - 1]);
      FoldState(c, e, u);
    }
  }

  // ---------------------------------------------------------------- windows of eight symbols

  function Append(c: bv64, d: bv5): bv64 { (c << 5) | (d as bv64) }

  /** The number a run of symbols spells. */
  function Number(xs: seq<bv5>): bv64 {
    if xs == [] then 0 else Append(Number(xs[..|xs| - 1]), xs[|xs| - 1])
  }

  /** The numbers `n` symbols can spell. */
  predicate Within(c: bv64, n: nat)
    requires n <= 8
  {
    c <= match n
    case 0 => 0
    case 1 => 0x1f
    case 2 => 0x3ff
    case 3 => 0x7fff
    case 4 => 0xf_ffff
    case 5 => 0x1ff_ffff
    case 6 => 0x3fff_ffff
    case 7 => 0x7_ffff_ffff
    case _ => 0xff_ffff_ffff
  }

  lemma RoomGrows(c: bv64, d: bv5, n: nat)
    requires n < 8 && Within(c, n)
    ensures Within(Append(c, d), n + 1) && Short(c)
  {
  }

  lemma {:induction false} NumberFits(xs: seq<bv5>)
    requires |xs| <= 8
    ensures Within(Number(xs), |xs|)
  {
    hide Append, Within, Short;
    if xs == [] {
      RoomStart(Number(xs));
    } else {
      var u := xs[..|xs| - 1];
      NumberFits(u);
      RoomGrows(Number(u), xs[|xs| - 1], |u|);
    }
  }

  lemma RoomStart(c: bv64)
    requires c == 0
    ensures Within(c, 0)
  {
  }

  lemma AppendInjective(c: bv64, d: bv5, e: bv64, f: bv5)
    requires Short(c) && Short(e) && Append(c, d) == Append(e, f)
    ensures c == e && d == f
  {
  }

  lemma {:induction false} NumberInjective(xs: seq<bv5>, ys: seq<bv5>)
    requires |xs| == |ys| <= 8 && Number(xs) == Number(ys)
    ensures xs == ys
  {
    hide Append, Within, Short;
    if xs != [] {
      var n := |xs| - 1;
      NumberFits(xs[..n]);
      NumberFits(ys[..n]);
      RoomGrows(Number(xs[..n]), xs[n], n);
      RoomGrows(Number(ys[..n]), ys[n], n);
      AppendInjective(Number(xs[..n]), xs[n], Number(ys[..n]), ys[n]);
      NumberInjective(xs[..n], ys[..n]);
    }
  }

  /** Remainders that differ by less than 2^35 are reduced alike, so the difference shifts. */
  lemma StepDifference(a: bv64, b: bv64, p: bv64, q: bv64, d: bv5, e: bv5)
    requires Short(p) && Short(q) && Xor(a, b) == Xor(p, q)
    ensures Xor(Step(a, d), Step(b, e)) == Xor(Append(p, d), Append(q, e))
  {
    SameTop(a, b, p, q);
    hide Reduction;
    ShiftDifference(a, b, p, q, d, e);
    var r := Reduction(Top(a));
    var x, y := Xor(Shifted(a), Wide(d)), Xor(Shifted(b), Wide(e));
    hide Top, Shifted, Wide, Append;
    XorSame(x, y, r);
  }

  lemma SameTop(a: bv64, b: bv64, p: bv64, q: bv64)
    requires Short(p) && Short(q) && Xor(a, b) == Xor(p, q)
    ensures Top(a) == Top(b)
  {
  }

  lemma ShiftDifference(a: bv64, b: bv64, p: bv64, q: bv64, d: bv5, e: bv5)
    requires Short(p) && Short(q) && Xor(a, b) == Xor(p, q)
    ensures Xor(Xor(Shifted(a), Wide(d)), Xor(Shifted(b), Wide(e))) == Xor(Append(p, d), Append(q, e))
  {
  }

  lemma XorSame(x: bv64, y: bv64, r: bv64)
    ensures Xor(Xor(x, r), Xor(y, r)) == Xor(x, y)
  {
    assert (x ^ r) ^ (y ^ r) == x ^ y;
  }

  /** Over at most eight symbols the remainder only adds the symbols themselves. */
  lemma {:induction false} Window(c: bv64, xs: seq<bv5>, ys: seq<bv5>)
    requires |xs| == |ys| <= 8
    ensures Xor(Fold(c, xs), Fold(c, ys)) == Xor(Number(xs), Number(ys))
  {
    hide Xor, Step, Append, Within, Short;
    if xs == [] {
      XorSelf(c);
    } else {
      var n := |xs| - 1;
      Window(c, xs[..n], ys[..n]);
      NumberFits(xs[..n]);
      NumberFits(ys[..n]);
      RoomGrows(Number(xs[..n]), xs[n], n);
      RoomGrows(Number(ys[..n]), ys[n], n);
      StepDifference(Fold(c, xs[..n]), Fold(c, ys[..n]), Number(xs[..n]), Number(ys[..n]), xs[n], ys[n]);
    }
  }

  lemma XorSelf(c: bv64)
    ensures Xor(c, c) == Xor(0, 0)
  {
  }

  /** No run of at most eight symbols can be replaced without changing the remainder. */
  lemma BurstDetected(c: bv64, before: seq<bv5>, xs: seq<bv5>, ys: seq<bv5>, after: seq<bv5>)
    requires Fits(c) && |xs| == |ys| <= 8 && xs != ys
    ensures Fold(c, before + xs + after) != Fold(c, before + ys + after)
  {
    hide *;
    FoldAppend(c, before + xs, after);
    FoldAppend(c, before + ys, after);
    FoldAppend(c, before, xs);
    FoldAppend(c, before, ys);
    FoldFits(c, before + xs);
    FoldFits(c, before + ys);
    if Fold(c, before + xs + after) == Fold(c, before + ys + after) {
      FoldState(Fold(c, before + xs), Fold(c, before + ys), after);
      Window(Fold(c, before), xs, ys);
      XorZero(Fold(c, before + xs), Number(xs), Number(ys));
      NumberInjective(xs, ys);
    }
  }

  lemma XorZero(a: bv64, x: bv64, y: bv64)
    requires Xor(a, a) == Xor(x, y)
    ensures x == y
  {
  }
}
