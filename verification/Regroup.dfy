// Regrouping of bytes into five-bit symbols and back (crypto/addresses/src/bech32.rs).
//
// Both conversions are specified on the bit string they carry: `To5` cuts the bits of the
// bytes, right-padded with zeros, into groups of five; `To8` cuts the bits of the symbols
// into groups of eight and drops what is left over. The methods are the source's loops over
// a sixteen-bit shift register.
module Regrouping {

  // ---------------------------------------------------------------- bits of a register

  function Half(b: bv16): bv16 { b >> 1 }

  predicate Odd(b: bv16) { b & 1 == 1 }

  function And(b: bv16, m: bv16): bv16 { b & m }

  /** Shift right by `n`. */
  function Shr(b: bv16, n: nat): bv16
    decreases n
  {
    if n == 0 then b else Shr(Half(b), n - 1)
  }

  /** The mask `(1 << n) - 1`. */
  function Mask(n: nat): bv16
    requires n <= 8
  {
    match n
    case 0 => 0
    case 1 => 1
    case 2 => 3
    case 3 => 7
    case 4 => 0xf
    case 5 => 0x1f
    case 6 => 0x3f
    case 7 => 0x7f
    case _ => 0xff
  }

  /** The lowest `n` bits of a register, most significant first. */
  function Low(b: bv16, n: nat): (bits: seq<bool>)
    ensures |bits| == n
    decreases n
  {
    if n == 0 then [] else Low(Half(b), n - 1) + [Odd(b)]
  }

  lemma {:induction false} LowSplit(b: bv16, n: nat, k: nat)
    ensures Low(b, n + k) == Low(Shr(b, k), n) + Low(b, k)
    decreases k
  {
    hide *;
    LowNone(b);
    if k == 0 {
      ShrNone(b);
      assert Low(b, n) + [] == Low(b, n);
    } else {
      LowSplit(Half(b), n, k - 1);
      LowMore(b, n + k);
      LowMore(b, k);
      ShrMore(b, k);
      assert Low(Shr(b, k), n) + Low(Half(b), k - 1) + [Odd(b)] == Low(Shr(b, k), n) + (Low(Half(b), k - 1) + [Odd(b)]);
    }
  }

  lemma LowNone(b: bv16)
    ensures Low(b, 0) == []
  {
  }

  lemma LowMore(b: bv16, n: nat)
    requires n > 0
    ensures Low(b, n) == Low(Half(b), n - 1) + [Odd(b)]
  {
    hide Half, Odd;
  }

  lemma ShrNone(b: bv16)
    ensures Shr(b, 0) == b
  {
  }

  lemma ShrMore(b: bv16, n: nat)
    requires n > 0
    ensures Shr(b, n) == Shr(Half(b), n - 1)
  {
    hide Half;
  }

  lemma {:induction false} ShrShr(b: bv16, n: nat, k: nat)
    ensures Shr(b, n + k) == Shr(Shr(b, k), n)
    decreases k
  {
    hide Half;
    if k > 0 {
      ShrShr(Half(b), n, k - 1);
      assert Shr(b, n + k) == Shr(Half(b), n + (k - 1));
    }
  }

  lemma MaskNothing(b: bv16)
    ensures And(b, Mask(0)) == 0
  {
  }

  lemma MaskStep(b: bv16, n: nat)
    requires 0 < n <= 8
    ensures Half(And(b, Mask(n))) == And(Half(b), Mask(n - 1))
    ensures Odd(And(b, Mask(n))) == Odd(b)
  {
  }

  /** Masking keeps the low bits and clears the rest. */
  lemma {:induction false} Masked(b: bv16, n: nat)
    requires n <= 8
    ensures Low(And(b, Mask(n)), n) == Low(b, n)
    ensures Shr(And(b, Mask(n)), n) == 0
    decreases n
  {
    hide Half, Odd, And, Mask;
    if n == 0 {
      MaskNothing(b);
    } else {
      MaskStep(b, n);
      Masked(Half(b), n - 1);
    }
  }

  lemma SmallStep(b: bv16, n: nat)
    requires 0 < n <= 8 && Half(b) <= Mask(n - 1)
    ensures b <= Mask(n)
  {
  }

  lemma SmallZero(b: bv16)
    requires b == 0
    ensures b <= Mask(0)
  {
  }

  lemma {:induction false} Small(b: bv16, n: nat)
    requires n <= 8 && Shr(b, n) == 0
    ensures b <= Mask(n)
    decreases n
  {
    hide Half, Mask;
    if n == 0 {
      SmallZero(b);
    } else {
      Small(Half(b), n - 1);
      SmallStep(b, n);
    }
  }

  // ---------------------------------------------------------------- bits of bytes and symbols

  function Byte(b: bv8): bv16 { b as bv16 }

  function Symbol(d: bv5): bv16 { d as bv16 }

  /** The bits of a byte string, most significant first. */
  function Bits8(s: seq<bv8>): (bits: seq<bool>)
    ensures |bits| == 8 * |s|
  {
    if s == [] then [] else Bits8(s[..|s| - 1]) + Low(Byte(s[|s| - 1]), 8)
  }

  /** The bits of a symbol string, most significant first. */
  function Bits5(s: seq<bv5>): (bits: seq<bool>)
    ensures |bits| == 5 * |s|
  {
    if s == [] then [] else Bits5(s[..|s| - 1]) + Low(Symbol(s[|s| - 1]), 5)
  }

  lemma Bits8Snoc(s: seq<bv8>, b: bv8)
    ensures Bits8(s + [b]) == Bits8(s) + Low(Byte(b), 8)
  {
    assert (s + [b])[..|s|] == s;
  }

  lemma Bits5Snoc(s: seq<bv5>, d: bv5)
    ensures Bits5(s + [d]) == Bits5(s) + Low(Symbol(d), 5)
  {
    assert (s + [d])[..|s|] == s;
  }

  /** A register is read back from its low bits. */
  function FromBits(bits: seq<bool>): bv16 {
    if bits == [] then 0 else Join(FromBits(bits[..|bits| - 1]), bits[|bits| - 1])
  }

  function Join(h: bv16, odd: bool): bv16 { (h << 1) | (if odd then 1 else 0) }

  lemma JoinHalf(b: bv16)
    ensures Join(Half(b), Odd(b)) == b
  {
  }

  lemma JoinBack(h: bv16, odd: bool, n: nat)
    requires n < 8 && h <= Mask(n)
    ensures Half(Join(h, odd)) == h && Odd(Join(h, odd)) == odd && Join(h, odd) <= Mask(n + 1)
  {
  }

  lemma {:induction false} FromBitsLow(b: bv16, n: nat)
    requires n <= 8 && b <= Mask(n)
    ensures FromBits(Low(b, n)) == b
    decreases n
  {
    hide Half, Odd, Join, Mask;
    if n == 0 {
      assert b == 0 by { MaskZero(b); }
    } else {
      HalfFits(b, n);
      FromBitsLow(Half(b), n - 1);
      assert Low(b, n)[..n - 1] == Low(Half(b), n - 1);
      JoinHalf(b);
    }
  }

  lemma MaskZero(b: bv16)
    requires b <= Mask(0)
    ensures b == 0
  {
  }

  lemma HalfFits(b: bv16, n: nat)
    requires 0 < n <= 8 && b <= Mask(n)
    ensures Half(b) <= Mask(n - 1)
  {
  }

  lemma LowJoin(h: bv16, odd: bool, n: nat)
    requires n > 0 && Half(Join(h, odd)) == h && Odd(Join(h, odd)) == odd
    ensures Low(Join(h, odd), n) == Low(h, n - 1) + [odd]
  {
    hide Half, Odd, Join;
  }

  lemma {:induction false} LowFromBits(bits: seq<bool>)
    requires |bits| <= 8
    ensures Low(FromBits(bits), |bits|) == bits
    ensures FromBits(bits) <= Mask(|bits|)
  {
    hide Half, Odd, Join, Mask;
    var n := |bits|;
    if n == 0 {
      SmallZero(FromBits(bits));
    } else {
      var h, odd := FromBits(bits[..n - 1]), bits[n - 1];
      LowFromBits(bits[..n - 1]);
      JoinBack(h, odd, n - 1);
      LowJoin(h, odd, n);
      hide Low, FromBits;
      assert bits == bits[..n - 1] + [odd];
    }
  }

  function ReadByte(bits: seq<bool>): bv8
    requires |bits| == 8
  {
    LowFromBits(bits);
    FromBits(bits) as bv8
  }

  function ReadSymbol(bits: seq<bool>): bv5
    requires |bits| == 5
  {
    LowFromBits(bits);
    FromBits(bits) as bv5
  }

  lemma SymbolRead(d: bv5)
    ensures ReadSymbol(Low(Symbol(d), 5)) == d
  {
    assert Symbol(d) <= Mask(5);
    FromBitsLow(Symbol(d), 5);
  }

  lemma ByteRead(b: bv8)
    ensures ReadByte(Low(Byte(b), 8)) == b
  {
    assert Byte(b) <= Mask(8);
    FromBitsLow(Byte(b), 8);
  }

  lemma ReadSymbolBits(bits: seq<bool>)
    requires |bits| == 5
    ensures Low(Symbol(ReadSymbol(bits)), 5) == bits
  {
    LowFromBits(bits);
    assert Symbol(ReadSymbol(bits)) == FromBits(bits);
  }

  lemma ReadByteBits(bits: seq<bool>)
    requires |bits| == 8
    ensures Low(Byte(ReadByte(bits)), 8) == bits
  {
    LowFromBits(bits);
    assert Byte(ReadByte(bits)) == FromBits(bits);
  }

  // ---------------------------------------------------------------- the specification

  /** Symbol strings are the bit strings of length a multiple of five, cut up. */
  function Cut5(bits: seq<bool>): (s: seq<bv5>)
    requires |bits| % 5 == 0
    ensures 5 * |s| == |bits|
  {
    var n := |bits|;
    if n == 0 then [] else Cut5(bits[..n - 5]) + [ReadSymbol(bits[n - 5..])]
  }

  /** Byte strings are the bit strings of length a multiple of eight, cut up. */
  function Cut8(bits: seq<bool>): (s: seq<bv8>)
    requires |bits| % 8 == 0
    ensures 8 * |s| == |bits|
  {
    var n := |bits|;
    if n == 0 then [] else Cut8(bits[..n - 8]) + [ReadByte(bits[n - 8..])]
  }

  lemma {:induction false} Cut5Bits(bits: seq<bool>)
    requires |bits| % 5 == 0
    ensures Bits5(Cut5(bits)) == bits
  {
    hide ReadSymbol, Low, Symbol;
    var n := |bits|;
    if n > 0 {
      Cut5Bits(bits[..n - 5]);
      Bits5Snoc(Cut5(bits[..n - 5]), ReadSymbol(bits[n - 5..]));
      ReadSymbolBits(bits[n - 5..]);
      assert bits == bits[..n - 5] + bits[n - 5..];
    }
  }

  lemma {:induction false} Cut8Bits(bits: seq<bool>)
    requires |bits| % 8 == 0
    ensures Bits8(Cut8(bits)) == bits
  {
    hide ReadByte, Low, Byte;
    var n := |bits|;
    if n > 0 {
      Cut8Bits(bits[..n - 8]);
      Bits8Snoc(Cut8(bits[..n - 8]), ReadByte(bits[n - 8..]));
      ReadByteBits(bits[n - 8..]);
      assert bits == bits[..n - 8] + bits[n - 8..];
    }
  }

  lemma {:induction false} Bits5Cut(s: seq<bv5>)
    ensures Cut5(Bits5(s)) == s
  {
    hide ReadSymbol, Low, Symbol;
    if s != [] {
      var u, d := s[..|s| - 1], s[|s| - 1];
      Bits5Cut(u);
      var bits := Bits5(s);
      assert bits == Bits5(u) + Low(Symbol(d), 5);
      assert bits[..|bits| - 5] == Bits5(u) && bits[|bits| - 5..] == Low(Symbol(d), 5);
      SymbolRead(d);
    }
  }

  lemma {:induction false} Bits8Cut(s: seq<bv8>)
    ensures Cut8(Bits8(s)) == s
  {
    hide ReadByte, Low, Byte;
    if s != [] {
      var u, b := s[..|s| - 1], s[|s| - 1];
      Bits8Cut(u);
      var bits := Bits8(s);
      assert bits == Bits8(u) + Low(Byte(b), 8);
      assert bits[..|bits| - 8] == Bits8(u) && bits[|bits| - 8..] == Low(Byte(b), 8);
      ByteRead(b);
    }
  }

  function Zeros(n: nat): (z: seq<bool>)
    ensures |z| == n && forall i :: 0 <= i < n ==> !z[i]
  {
    seq(n, _ => false)
  }

  /** The number of zero bits added on the right of `n` bytes. */
  function Padding(n: nat): (p: nat)
    ensures p < 5 && (8 * n + p) % 5 == 0
  {
    (2 * n) % 5
  }

  /** The number of bits left over on the right of `n` symbols. */
  function Leftover(n: nat): (p: nat)
    ensures p < 8 && p <= 5 * n && (5 * n - p) % 8 == 0
  {
    (5 * n) % 8
  }

  function To5(s: seq<bv8>): (r: seq<bv5>)
    ensures 5 * |r| == 8 * |s| + Padding(|s|)
  {
    Cut5(Bits8(s) + Zeros(Padding(|s|)))
  }

  function To8(s: seq<bv5>): (r: seq<bv8>)
    ensures 8 * |r| == 5 * |s| - Leftover(|s|)
  {
    Cut8(Bits5(s)[..5 * |s| - Leftover(|s|)])
  }

  lemma PaddingLeftOver(n: nat, m: nat)
    requires 5 * m == 8 * n + Padding(n)
    ensures Leftover(m) == Padding(n)
  {
    var p := Padding(n);
    hide Padding;
    assert 5 * m == 8 * n + p && p < 8;
  }

  lemma LeftoverPadded(n: nat, m: nat)
    requires 8 * n == 5 * m - Leftover(m)
    ensures Leftover(m) < 5 <==> 5 * m == 8 * n + Padding(n)
    ensures Leftover(m) < 5 ==> Padding(n) == Leftover(m)
  {
  }

  lemma To5Bits(s: seq<bv8>)
    ensures Bits5(To5(s)) == Bits8(s) + Zeros(Padding(|s|))
  {
    hide Bits5, Bits8, Cut5, Zeros, Padding;
    Cut5Bits(Bits8(s) + Zeros(Padding(|s|)));
  }

  lemma To8Bits(s: seq<bv5>)
    ensures Bits8(To8(s)) == Bits5(s)[..5 * |s| - Leftover(|s|)]
  {
    hide Bits5, Bits8, Cut8, Leftover;
    Cut8Bits(Bits5(s)[..5 * |s| - Leftover(|s|)]);
  }

  lemma Same5(s: seq<bv5>, t: seq<bv5>)
    requires Bits5(s) == Bits5(t)
    ensures s == t
  {
    Bits5Cut(s);
    Bits5Cut(t);
  }

  lemma Same8(s: seq<bv8>, t: seq<bv8>)
    requires Bits8(s) == Bits8(t)
    ensures s == t
  {
    Bits8Cut(s);
    Bits8Cut(t);
  }

  /** Every byte string survives the passage through five-bit symbols. */
  lemma RoundTrip(s: seq<bv8>)
    ensures To8(To5(s)) == s
  {
    hide Padding, Leftover, Bits5, Bits8, Cut5, Cut8, Zeros, To5, To8;
    var t := To5(s);
    PaddingLeftOver(|s|, |t|);
    To5Bits(s);
    To8Bits(t);
    assert Bits5(t)[..8 * |s|] == Bits8(s);
    Same8(To8(t), s);
  }

  /** A symbol string is the padded form of its bytes. */
  ghost predicate Canonical(s: seq<bv5>) {
    var p := Leftover(|s|);
    p < 5 && Bits5(s)[5 * |s| - p..] == Zeros(p)
  }

  /** The converse passage gives the symbols back exactly when no bit was dropped. */
  lemma RoundTripBack(s: seq<bv5>)
    ensures To5(To8(s)) == s <==> Canonical(s)
  {
    hide Padding, Leftover, Bits5, Bits8, Cut5, Cut8, Zeros, To5, To8;
    var p, r := Leftover(|s|), To8(s);
    var t, k := To5(r), 5 * |s| - p;
    LeftoverPadded(|r|, |s|);
    To8Bits(s);
    To5Bits(r);
    var all := Bits5(s);
    assert all == all[..k] + all[k..];
    if p < 5 {
      assert (all[..k] + Zeros(p))[k..] == Zeros(p);
      if all[k..] == Zeros(p) {
        Same5(s, t);
      }
    }
  }

  // ---------------------------------------------------------------- the shift register

  function Push8(buff: bv16, b: bv8): bv16 { (buff << 8) | (b as bv16) }

  function Push5(buff: bv16, d: bv5): bv16 { (buff << 5) | (d as bv16) }

  function Sixteenth(x: bv16): bv16 { Half(Half(Half(Half(x)))) }

  lemma ShrFour(x: bv16, n: nat)
    requires n >= 4
    ensures Shr(x, n) == Shr(Sixteenth(x), n - 4)
  {
    hide Half, Shr;
    ShrMore(x, n);
    ShrMore(Half(x), n - 1);
    ShrMore(Half(Half(x)), n - 2);
    ShrMore(Half(Half(Half(x))), n - 3);
  }

  lemma Push8Parts(buff: bv16, b: bv8)
    requires buff <= Mask(5)
    ensures Shr(Push8(buff, b), 8) == buff
    ensures And(Push8(buff, b), Mask(8)) == Byte(b)
  {
    hide *;
    var x := Push8(buff, b);
    ShrFour(x, 8);
    ShrFour(Sixteenth(x), 4);
    ShrNone(Sixteenth(Sixteenth(x)));
    Push8Bits(buff, b);
  }

  lemma Push8Bits(buff: bv16, b: bv8)
    requires buff <= Mask(5)
    ensures Sixteenth(Sixteenth(Push8(buff, b))) == buff && And(Push8(buff, b), Mask(8)) == Byte(b)
  {
  }

  lemma Push5Parts(buff: bv16, d: bv5)
    requires buff <= Mask(7)
    ensures Shr(Push5(buff, d), 5) == buff
    ensures And(Push5(buff, d), Mask(5)) == Symbol(d)
  {
    hide *;
    var x := Push5(buff, d);
    ShrFour(x, 5);
    ShrMore(Sixteenth(x), 1);
    ShrNone(Half(Sixteenth(x)));
    Push5Bits(buff, d);
  }

  lemma Push5Bits(buff: bv16, d: bv5)
    requires buff <= Mask(7)
    ensures Half(Sixteenth(Push5(buff, d))) == buff && And(Push5(buff, d), Mask(5)) == Symbol(d)
  {
  }

  lemma MaskWider(b: bv16, n: nat, m: nat)
    requires n <= m <= 8 && b <= Mask(n)
    ensures b <= Mask(m)
  {
  }

  /** Pushing a byte appends its eight bits. */
  lemma Pushed8(buff: bv16, bits: nat, b: bv8)
    requires bits < 5 && Shr(buff, bits) == 0
    ensures Low(Push8(buff, b), bits + 8) == Low(buff, bits) + Low(Byte(b), 8)
    ensures Shr(Push8(buff, b), bits + 8) == 0
  {
    hide *;
    var x := Push8(buff, b);
    Small(buff, bits);
    MaskWider(buff, bits, 5);
    Push8Parts(buff, b);
    LowSplit(x, bits, 8);
    Masked(x, 8);
    ShrShr(x, bits, 8);
  }

  /** Pushing a symbol appends its five bits. */
  lemma Pushed5(buff: bv16, bits: nat, d: bv5)
    requires bits < 8 && Shr(buff, bits) == 0
    ensures Low(Push5(buff, d), bits + 5) == Low(buff, bits) + Low(Symbol(d), 5)
    ensures Shr(Push5(buff, d), bits + 5) == 0
  {
    hide *;
    var x := Push5(buff, d);
    Small(buff, bits);
    MaskWider(buff, bits, 7);
    Push5Parts(buff, d);
    LowSplit(x, bits, 5);
    Masked(x, 5);
    ShrShr(x, bits, 5);
  }

  /** Taking the bits above the lowest `k`, at most `n`, and masking splits the register. */
  lemma Popped(buff: bv16, n: nat, k: nat)
    requires n <= 8 && k <= 8 && Shr(buff, n + k) == 0
    ensures Shr(buff, k) <= Mask(n)
    ensures Low(buff, n + k) == Low(Shr(buff, k), n) + Low(And(buff, Mask(k)), k)
    ensures Shr(And(buff, Mask(k)), k) == 0
  {
    hide *;
    ShrShr(buff, n, k);
    Small(Shr(buff, k), n);
    LowSplit(buff, n, k);
    Masked(buff, k);
  }

  function AsSymbol(b: bv16): (d: bv5)
    requires b <= Mask(5)
    ensures Symbol(d) == b
  {
    b as bv5
  }

  function AsByte(b: bv16): (d: bv8)
    requires b <= Mask(8)
    ensures Byte(d) == b
  {
    b as bv8
  }

  lemma TopSymbol(s: seq<bv5>, d: bv5, top: bv16, rest: seq<bool>)
    requires Symbol(d) == top
    ensures Bits5(s + [d]) + rest == Bits5(s) + (Low(top, 5) + rest)
  {
    hide Low, Symbol, Bits5;
    Bits5Snoc(s, d);
  }

  lemma TopByte(s: seq<bv8>, d: bv8, top: bv16, rest: seq<bool>)
    requires Byte(d) == top
    ensures Bits8(s + [d]) + rest == Bits8(s) + (Low(top, 8) + rest)
  {
    hide Low, Byte, Bits8;
    Bits8Snoc(s, d);
  }

  /** What the register and the symbols written so far carry of the bytes read so far. */
  ghost predicate Carries(read: seq<bv8>, written: seq<bv5>, buff: bv16, bits: nat) {
    && Bits8(read) == Bits5(written) + Low(buff, bits)
    && Shr(buff, bits) == 0
  }

  lemma CarriesPush(read: seq<bv8>, written: seq<bv5>, buff: bv16, bits: nat, b: bv8)
    requires bits < 5 && Carries(read, written, buff, bits)
    ensures Carries(read + [b], written, Push8(buff, b), bits + 8)
  {
    hide Low, Shr, Bits5, Bits8, Push8;
    Pushed8(buff, bits, b);
    Bits8Snoc(read, b);
  }

  lemma CarriesPop(read: seq<bv8>, written: seq<bv5>, buff: bv16, bits: nat)
    requires bits <= 8 && Carries(read, written, buff, 5 + bits)
    ensures Shr(buff, bits) <= Mask(5)
    ensures Carries(read, written + [AsSymbol(Shr(buff, bits))], And(buff, Mask(bits)), bits)
  {
    hide Low, Shr, Bits5, Bits8, And, Mask, AsSymbol, Symbol;
    Popped(buff, 5, bits);
    TopSymbol(written, AsSymbol(Shr(buff, bits)), Shr(buff, bits), Low(And(buff, Mask(bits)), bits));
  }

  function Double(b: bv16): bv16 { b << 1 }

  /** Shift left by `n`. */
  function Shl(b: bv16, n: nat): bv16 {
    if n == 0 then b else Double(Shl(b, n - 1))
  }

  lemma DoubleParts(b: bv16, n: nat)
    requires n < 8 && b <= Mask(n)
    ensures Half(Double(b)) == b && !Odd(Double(b)) && Double(b) <= Mask(n + 1)
  {
  }

  /** Shifting left pads with zeros on the right. */
  lemma {:induction false} Padded(b: bv16, bits: nat, n: nat)
    requires bits + n <= 8 && b <= Mask(bits)
    ensures Low(Shl(b, n), bits + n) == Low(b, bits) + Zeros(n)
    ensures Shl(b, n) <= Mask(bits + n)
    decreases n
  {
    hide Half, Double, Odd, Mask, Low, Zeros;
    if n == 0 {
      assert Low(b, bits) == Low(b, bits) + Zeros(n);
    } else {
      var x := Shl(b, n - 1);
      Padded(b, bits, n - 1);
      DoubleParts(x, bits + n - 1);
      LowDouble(x, bits + n - 1);
      assert Low(b, bits) + Zeros(n) == Low(b, bits) + Zeros(n - 1) + [false];
    }
  }

  lemma LowDouble(b: bv16, n: nat)
    requires Half(Double(b)) == b && !Odd(Double(b))
    ensures Low(Double(b), n + 1) == Low(b, n) + [false]
  {
    hide Half, Double, Odd;
  }

  lemma CarriesPad(read: seq<bv8>, written: seq<bv5>, buff: bv16, bits: nat)
    requires 0 < bits < 5 && Carries(read, written, buff, bits)
    ensures Shl(buff, 5 - bits) <= Mask(5)
    ensures Bits5(written + [AsSymbol(Shl(buff, 5 - bits))]) == Bits8(read) + Zeros(5 - bits)
  {
    hide Low, Shr, Shl, Bits5, Bits8, Mask, AsSymbol, Symbol, Zeros;
    Small(buff, bits);
    Padded(buff, bits, 5 - bits);
    Bits5Snoc(written, AsSymbol(Shl(buff, 5 - bits)));
  }

  lemma Whole(read: seq<bv8>, written: seq<bv5>, pad: nat)
    requires pad < 5 && Bits5(written) == Bits8(read) + Zeros(pad)
    ensures written == To5(read)
  {
    hide Low, Bits5, Bits8, To5, Zeros;
    assert Padding(|read|) == pad;
    hide Padding;
    To5Bits(read);
    Same5(written, To5(read));
  }

  /** The inner loop: symbols are written while the register holds five bits. */
  method WriteSymbols(ghost read: seq<bv8>, fiveBit: array<bv5>, idx: nat, held: bv16, count: nat)
    returns (currentIdx: nat, buff: bv16, bits: nat)
    requires count <= 12 && 8 * |read| == 5 * idx + count <= 5 * fiveBit.Length + 4
    requires idx <= fiveBit.Length && Carries(read, fiveBit[..idx], held, count)
    modifies fiveBit
    ensures bits < 5 && 8 * |read| == 5 * currentIdx + bits
    ensures currentIdx <= fiveBit.Length && Carries(read, fiveBit[..currentIdx], buff, bits)
  {
    hide Shr, And, Mask, AsSymbol, Carries;
    currentIdx, buff, bits := idx, held, count;
    while bits >= 5
      invariant bits <= 12 && 8 * |read| == 5 * currentIdx + bits
      invariant currentIdx <= fiveBit.Length
      invariant Carries(read, fiveBit[..currentIdx], buff, bits)
    {
      bits := bits - 5;
      ghost var written := fiveBit[..currentIdx];
      CarriesPop(read, written, buff, bits);
      fiveBit[currentIdx] := AsSymbol(Shr(buff, bits));
      assert fiveBit[..currentIdx + 1] == written + [AsSymbol(Shr(buff, bits))];
      buff := And(buff, Mask(bits));
      currentIdx := currentIdx + 1;
    }
  }

  /** The bits still held are written, padded with zeros. */
  method WriteRest(ghost read: seq<bv8>, fiveBit: array<bv5>, currentIdx: nat, buff: bv16, bits: nat)
    requires bits < 5 && 8 * |read| == 5 * currentIdx + bits
    requires 8 * |read| <= 5 * fiveBit.Length <= 8 * |read| + 4
    requires currentIdx <= fiveBit.Length && Carries(read, fiveBit[..currentIdx], buff, bits)
    modifies fiveBit
    ensures fiveBit[..] == To5(read)
  {
    hide Shl, Shr, Low, Mask, AsSymbol, Carries, To5, Zeros, Bits5, Bits8;
    ghost var written := fiveBit[..currentIdx];
    if bits > 0 {
      CarriesPad(read, written, buff, bits);
      fiveBit[currentIdx] := AsSymbol(Shl(buff, 5 - bits));
      assert fiveBit[..] == written + [AsSymbol(Shl(buff, 5 - bits))];
      Whole(read, fiveBit[..], 5 - bits);
    } else {
      assert fiveBit[..] == written;
      CarriesAll(read, written, buff);
    }
  }

  lemma FiveBitLength(n: nat, length: nat)
    requires length == n * 8 / 5 + if n % 5 == 0 then 0 else 1
    ensures 8 * n <= 5 * length <= 8 * n + 4
  {
  }

  /** Bytes to symbols, with right padding. */
  method Conv8To5(payload: seq<bv8>) returns (r: seq<bv5>)
    ensures r == To5(payload)
  {
    hide Push8, Carries, To5;
    var length := |payload| * 8 / 5 + if |payload| % 5 == 0 then 0 else 1;
    FiveBitLength(|payload|, length);
    var fiveBit := new bv5[length](_ => 0);
    var currentIdx: nat, buff: bv16, bits: nat := 0, 0, 0;
    CarriesNothing();
    for i := 0 to |payload|
      invariant bits < 5 && 8 * i == 5 * currentIdx + bits
      invariant currentIdx <= fiveBit.Length
      invariant Carries(payload[..i], fiveBit[..currentIdx], buff, bits)
    {
      CarriesPush(payload[..i], fiveBit[..currentIdx], buff, bits, payload[i]);
      assert payload[..i + 1] == payload[..i] + [payload[i]];
      buff := Push8(buff, payload[i]);
      bits := bits + 8;
      currentIdx, buff, bits := WriteSymbols(payload[..i + 1], fiveBit, currentIdx, buff, bits);
    }
    assert payload[..|payload|] == payload;
    WriteRest(payload, fiveBit, currentIdx, buff, bits);
    r := fiveBit[..];
  }

  lemma CarriesNothing()
    ensures Carries([], [], 0, 0)
  {
  }

  lemma CarriesAll(read: seq<bv8>, written: seq<bv5>, buff: bv16)
    requires Carries(read, written, buff, 0)
    ensures written == To5(read)
  {
    hide Bits5, Bits8, To5;
    assert Bits5(written) == Bits8(read) + Zeros(0);
    Whole(read, written, 0);
  }

  // ---------------------------------------------------------------- and back

  /** What the register and the bytes written so far carry of the symbols read so far. */
  ghost predicate CarriesBack(read: seq<bv5>, written: seq<bv8>, buff: bv16, bits: nat) {
    && Bits5(read) == Bits8(written) + Low(buff, bits)
    && Shr(buff, bits) == 0
  }

  lemma CarriesBackPush(read: seq<bv5>, written: seq<bv8>, buff: bv16, bits: nat, d: bv5)
    requires bits < 8 && CarriesBack(read, written, buff, bits)
    ensures CarriesBack(read + [d], written, Push5(buff, d), bits + 5)
  {
    hide Low, Shr, Bits5, Bits8, Push5;
    Pushed5(buff, bits, d);
    Bits5Snoc(read, d);
  }

  lemma CarriesBackPop(read: seq<bv5>, written: seq<bv8>, buff: bv16, bits: nat)
    requires bits <= 8 && CarriesBack(read, written, buff, 8 + bits)
    ensures Shr(buff, bits) <= Mask(8)
    ensures CarriesBack(read, written + [AsByte(Shr(buff, bits))], And(buff, Mask(bits)), bits)
  {
    hide Low, Shr, Bits5, Bits8, And, Mask, AsByte, Byte;
    Popped(buff, 8, bits);
    TopByte(written, AsByte(Shr(buff, bits)), Shr(buff, bits), Low(And(buff, Mask(bits)), bits));
  }

  lemma CarriesBackNothing()
    ensures CarriesBack([], [], 0, 0)
  {
  }

  lemma CarriesBackAll(read: seq<bv5>, written: seq<bv8>, buff: bv16, bits: nat)
    requires bits < 8 && CarriesBack(read, written, buff, bits)
    ensures written == To8(read)
  {
    hide Low, Shr, Bits5, Bits8, To8;
    assert Leftover(|read|) == bits;
    hide Leftover;
    To8Bits(read);
    assert Bits5(read)[..8 * |written|] == Bits8(written);
    Same8(written, To8(read));
  }

  /** The inner loop: bytes are written while the register holds eight bits. */
  method WriteBytes(ghost read: seq<bv5>, eightBit: array<bv8>, idx: nat, held: bv16, count: nat)
    returns (currentIdx: nat, buff: bv16, bits: nat)
    requires count <= 12 && 5 * |read| == 8 * idx + count <= 8 * eightBit.Length + 7
    requires idx <= eightBit.Length && CarriesBack(read, eightBit[..idx], held, count)
    modifies eightBit
    ensures bits < 8 && 5 * |read| == 8 * currentIdx + bits
    ensures currentIdx <= eightBit.Length && CarriesBack(read, eightBit[..currentIdx], buff, bits)
  {
    hide Shr, And, Mask, AsByte, CarriesBack;
    currentIdx, buff, bits := idx, held, count;
    while bits >= 8
      invariant bits <= 12 && 5 * |read| == 8 * currentIdx + bits
      invariant currentIdx <= eightBit.Length
      invariant CarriesBack(read, eightBit[..currentIdx], buff, bits)
    {
      bits := bits - 8;
      ghost var written := eightBit[..currentIdx];
      CarriesBackPop(read, written, buff, bits);
      eightBit[currentIdx] := AsByte(Shr(buff, bits));
      assert eightBit[..currentIdx + 1] == written + [AsByte(Shr(buff, bits))];
      buff := And(buff, Mask(bits));
      currentIdx := currentIdx + 1;
    }
  }

  /** Symbols to bytes; what is left over on the right is ignored. */
  method Conv5To8(payload: seq<bv5>) returns (r: seq<bv8>)
    ensures r == To8(payload)
  {
    hide Push5, CarriesBack, To8;
    var length := |payload| * 5 / 8;
    assert 8 * length <= 5 * |payload| <= 8 * length + 7;
    var eightBit := new bv8[length](_ => 0);
    var currentIdx: nat, buff: bv16, bits: nat := 0, 0, 0;
    CarriesBackNothing();
    for i := 0 to |payload|
      invariant bits < 8 && 5 * i == 8 * currentIdx + bits
      invariant currentIdx <= eightBit.Length
      invariant CarriesBack(payload[..i], eightBit[..currentIdx], buff, bits)
    {
      CarriesBackPush(payload[..i], eightBit[..currentIdx], buff, bits, payload[i]);
      assert payload[..i + 1] == payload[..i] + [payload[i]];
      buff := Push5(buff, payload[i]);
      bits := bits + 5;
      currentIdx, buff, bits := WriteBytes(payload[..i + 1], eightBit, currentIdx, buff, bits);
    }
    assert payload[..|payload|] == payload;
    assert eightBit[..] == eightBit[..currentIdx];
    CarriesBackAll(payload, eightBit[..], buff, bits);
    r := eightBit[..];
  }
}
