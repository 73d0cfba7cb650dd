// Address strings (crypto/addresses/src/bech32.rs and lib.rs): the version byte and the
// payload regrouped into five-bit symbols, eight checksum symbols, and the character set.
module Bech32 {
  import opened Options
  import opened Regrouping
  import opened Checksums

  datatype Prefix = Mainnet | Testnet | Devnet

  datatype Address = Address(prefix: Prefix, version: bv8, payload: seq<bv8>)

  datatype AddressError = InvalidPrefix(prefix: string) | MissingPrefix | DecodingError(letter: char) | BadChecksum

  /** `Panics` stands for the inputs on which the source stops with an index out of range. */
  datatype Outcome = Ok(address: Address) | Err(error: AddressError) | Panics

  function PrefixString(prefix: Prefix): string {
    match prefix
    case Mainnet => "kaspa"
    case Testnet => "kaspatest"
    case Devnet => "kaspadev"
  }

  function ParsePrefix(s: string): Option<Prefix> {
    if s == "kaspa" then Some(Mainnet)
    else if s == "kaspatest" then Some(Testnet)
    else if s == "kaspadev" then Some(Devnet)
    else None
  }

  lemma PrefixParses(prefix: Prefix)
    ensures ParsePrefix(PrefixString(prefix)) == Some(prefix)
    ensures ':' !in PrefixString(prefix)
  {
  }

  // ---------------------------------------------------------------- the character set

  const CHARSET := "qpzry9x8gf2tvdw0s3jn54khce6mua7l"

  /** Characters from 123 on are outside the reverse table. */
  const TABLE_END := 123

  function Letter(v: bv5): char { CHARSET[v as nat] }

  function Reverse(c: char): Option<bv5> {
    match c
    case '0' => Some(15)
    case '2' => Some(10)
    case '3' => Some(17)
    case '4' => Some(21)
    case '5' => Some(20)
    case '6' => Some(26)
    case '7' => Some(30)
    case '8' => Some(7)
    case '9' => Some(5)
    case 'a' => Some(29)
    case 'c' => Some(24)
    case 'd' => Some(13)
    case 'e' => Some(25)
    case 'f' => Some(9)
    case 'g' => Some(8)
    case 'h' => Some(23)
    case 'j' => Some(18)
    case 'k' => Some(22)
    case 'l' => Some(31)
    case 'm' => Some(27)
    case 'n' => Some(19)
    case 'p' => Some(1)
    case 'q' => Some(0)
    case 'r' => Some(3)
    case 's' => Some(16)
    case 't' => Some(11)
    case 'u' => Some(28)
    case 'v' => Some(12)
    case 'w' => Some(14)
    case 'x' => Some(6)
    case 'y' => Some(4)
    case 'z' => Some(2)
    case _ => None
  }

  lemma LetterReverses(v: bv5)
    ensures Reverse(Letter(v)) == Some(v) && Letter(v) as int < TABLE_END
  {
  }

  lemma ReverseSpells(c: char)
    requires Reverse(c).Some?
    ensures Letter(Reverse(c).value) == c
  {
  }

  function Letters(s: seq<bv5>): (r: string)
    ensures |r| == |s|
  {
    if s == [] then [] else Letters(s[..|s| - 1]) + [Letter(s[|s| - 1])]
  }

  datatype Reading = Symbols(symbols: seq<bv5>) | Stopped(outcome: Outcome)

  /** Reading stops at the first character that is not in the character set. */
  function Read(s: string): (r: Reading)
    ensures r.Symbols? ==> |r.symbols| == |s|
    ensures r.Stopped? ==> !r.outcome.Ok?
  {
    if s == [] then Symbols([]) else
      var (r, c) := (Read(s[..|s| - 1]), s[|s| - 1]);
      if r.Stopped? then r
      else if c as int >= TABLE_END then Stopped(Panics)
      else if Reverse(c).None? then Stopped(Err(DecodingError(c)))
      else Symbols(r.symbols + [Reverse(c).value])
  }

  lemma {:induction false} LettersRead(s: seq<bv5>)
    ensures Read(Letters(s)) == Symbols(s)
  {
    if s != [] {
      hide Reverse, Letter, Letters, Read;
      var u, v := s[..|s| - 1], s[|s| - 1];
      LettersRead(u);
      LetterReverses(v);
      LettersSnoc(s);
      ReadSnoc(Letters(u), Letter(v));
      assert s == u + [v];
    }
  }

  lemma LettersSnoc(s: seq<bv5>)
    requires s != []
    ensures Letters(s) == Letters(s[..|s| - 1]) + [Letter(s[|s| - 1])]
  {
    hide Letter;
  }

  lemma ReadSnoc(s: string, c: char)
    requires Read(s).Symbols? && Reverse(c).Some? && c as int < TABLE_END
    ensures Read(s + [c]) == Symbols(Read(s).symbols + [Reverse(c).value])
  {
    hide Reverse;
    assert (s + [c])[..|s|] == s;
  }

  lemma {:induction false} ReadLetters(s: string)
    requires Read(s).Symbols?
    ensures Letters(Read(s).symbols) == s
  {
    hide Reverse, Letter;
    if s != [] {
      var u, c := s[..|s| - 1], s[|s| - 1];
      ReadLetters(u);
      ReverseSpells(c);
      assert Read(s).symbols[..|s| - 1] == Read(u).symbols;
      assert s == u + [c];
    }
  }

  /** What stops the reading is the first character outside the set. */
  lemma {:induction false} ReadStops(s: string, k: nat)
    requires k < |s| && Read(s[..k]).Symbols? && Reverse(s[k]).None?
    ensures Read(s) == Stopped(if s[k] as int >= TABLE_END then Panics else Err(DecodingError(s[k])))
  {
    hide Reverse;
    var u := s[..|s| - 1];
    if k == |s| - 1 {
      assert u == s[..k];
    } else {
      assert u[..k] == s[..k] && u[k] == s[k];
      ReadStops(u, k);
    }
  }

  // ---------------------------------------------------------------- the checksum of an address

  function FiveBit(c: char): bv5 { (c as int % 32) as bv5 }

  function FiveBitString(s: string): (r: seq<bv5>)
    ensures |r| == |s| && forall i :: 0 <= i < |s| ==> r[i] == FiveBit(s[i])
  {
    seq(|s|, i requires 0 <= i < |s| => FiveBit(s[i]))
  }

  const NOTHING: seq<bv5> := [0, 0, 0, 0, 0, 0, 0, 0]

  function PolymodOf(values: seq<bv5>): bv64 { Xor(Fold(1, values), 1) }

  /** The prefix as the checksum sees it, with its separator. */
  function Head(prefix: Prefix): seq<bv5> { FiveBitString(PrefixString(prefix)) + [0] }

  /** What the checksum covers in front of the eight places of the checksum itself. */
  function Covered(prefix: Prefix, payload: seq<bv5>): seq<bv5> { Head(prefix) + payload }

  function Checksum(payload: seq<bv5>, prefix: Prefix): bv64 {
    PolymodOf(Covered(prefix, payload) + NOTHING)
  }

  /** The last five of the eight big-endian bytes. */
  function ToBytes(c: bv64): seq<bv8> {
    [((c >> 32) & 0xff) as bv8, ((c >> 24) & 0xff) as bv8, ((c >> 16) & 0xff) as bv8,
     ((c >> 8) & 0xff) as bv8, (c & 0xff) as bv8]
  }

  function AppendByte(c: bv64, b: bv8): bv64 { (c << 8) | (b as bv64) }

  /** The big-endian number of a byte string; leading zero bytes add nothing. */
  function FromBytes(s: seq<bv8>): bv64 {
    if s == [] then 0 else AppendByte(FromBytes(s[..|s| - 1]), s[|s| - 1])
  }

  // ---------------------------------------------------------------- bytes, symbols and numbers

  function Double(c: bv64): bv64 { c << 1 }

  function Or(a: bv64, b: bv64): bv64 { a | b }

  function AppendBit(c: bv64, odd: bool): bv64 { Or(Double(c), if odd then 1 else 0) }

  /** The number a bit string spells. */
  function Spell(bits: seq<bool>): bv64 {
    if bits == [] then 0 else AppendBit(Spell(bits[..|bits| - 1]), bits[|bits| - 1])
  }

  /** The low bits of a register appended to a number. */
  function Glue(c: bv64, b: bv16, n: nat): bv64
    decreases n
  {
    if n == 0 then c else AppendBit(Glue(c, Half(b), n - 1), Odd(b))
  }

  lemma {:induction false} SpellLow(bits: seq<bool>, b: bv16, n: nat)
    ensures Spell(bits + Low(b, n)) == Glue(Spell(bits), b, n)
    decreases n
  {
    hide Half, Odd, AppendBit;
    if n == 0 {
      assert bits + Low(b, n) == bits;
    } else {
      SpellLow(bits, Half(b), n - 1);
      var all := bits + Low(b, n);
      assert all[..|all| - 1] == bits + Low(Half(b), n - 1);
    }
  }

  function Tail(b: bv16, n: nat): bv64
    requires n <= 8
  {
    (b & Mask(n)) as bv64
  }

  function ShiftLeft(c: bv64, n: nat): bv64 {
    if n == 0 then c else Double(ShiftLeft(c, n - 1))
  }

  lemma ShiftLeftFive(c: bv64)
    ensures ShiftLeft(c, 5) == c << 5
  {
    hide Double;
    assert ShiftLeft(c, 1) == Double(ShiftLeft(c, 0));
    assert ShiftLeft(c, 2) == Double(ShiftLeft(c, 1));
    assert ShiftLeft(c, 4) == Double(Double(ShiftLeft(c, 2)));
    assert ShiftLeft(c, 5) == Double(ShiftLeft(c, 4));
    DoubleFive(c);
  }

  lemma DoubleFive(c: bv64)
    ensures Double(Double(Double(Double(Double(c))))) == c << 5
  {
    ShiftFive(c);
  }

  lemma ShiftFive(c: bv64)
    ensures c << 1 << 1 << 1 << 1 << 1 == c << 5
  {
  }

  lemma ShiftLeftEight(c: bv64)
    ensures ShiftLeft(c, 8) == c << 8
  {
    ShiftLeftFive(c);
    hide Double;
    assert ShiftLeft(c, 7) == Double(Double(ShiftLeft(c, 5)));
    assert ShiftLeft(c, 8) == Double(ShiftLeft(c, 7));
    DoubleThree(c);
  }

  lemma DoubleThree(c: bv64)
    ensures Double(Double(Double(c << 5))) == c << 8
  {
    ShiftThree(c);
  }

  lemma ShiftThree(c: bv64)
    ensures c << 5 << 1 << 1 << 1 == c << 8
  {
  }

  lemma TailStep(b: bv16, n: nat)
    requires 0 < n <= 8
    ensures Tail(b, n) == AppendBit(Tail(Half(b), n - 1), Odd(b))
  {
  }

  lemma OrAssociates(x: bv64, y: bv64, z: bv64)
    ensures Or(x, Or(y, z)) == Or(Or(x, y), z)
  {
    assert x | (y | z) == (x | y) | z;
  }

  lemma DoubleOr(x: bv64, y: bv64)
    ensures Double(Or(x, y)) == Or(Double(x), Double(y))
  {
    assert (x | y) << 1 == (x << 1) | (y << 1);
  }

  lemma OrBit(x: bv64, y: bv64, odd: bool)
    ensures Or(Double(x), AppendBit(y, odd)) == AppendBit(Or(x, y), odd)
  {
    hide Or, Double;
    OrAssociates(Double(x), Double(y), if odd then 1 else 0);
    DoubleOr(x, y);
  }

  lemma OrNothing(c: bv64, b: bv16)
    ensures Or(ShiftLeft(c, 0), Tail(b, 0)) == c
  {
  }

  lemma {:induction false} GlueShifts(c: bv64, b: bv16, n: nat)
    requires n <= 8
    ensures Glue(c, b, n) == Or(ShiftLeft(c, n), Tail(b, n))
    decreases n
  {
    hide Half, Odd, AppendBit, Double, Or, Tail;
    if n == 0 {
      OrNothing(c, b);
    } else {
      GlueShifts(c, Half(b), n - 1);
      TailStep(b, n);
      OrBit(ShiftLeft(c, n - 1), Tail(Half(b), n - 1), Odd(b));
    }
  }

  lemma GlueSymbol(c: bv64, d: bv5)
    ensures Glue(c, Symbol(d), 5) == Append(c, d)
  {
    hide Glue, ShiftLeft;
    GlueShifts(c, Symbol(d), 5);
    ShiftLeftFive(c);
  }

  lemma GlueByte(c: bv64, d: bv8)
    ensures Glue(c, Byte(d), 8) == AppendByte(c, d)
  {
    hide Glue, ShiftLeft;
    GlueShifts(c, Byte(d), 8);
    ShiftLeftEight(c);
  }

  lemma {:induction false} NumberSpelt(s: seq<bv5>)
    ensures Number(s) == Spell(Bits5(s))
  {
    hide Append, Low, Symbol;
    if s != [] {
      var u := s[..|s| - 1];
      NumberSpelt(u);
      SpellLow(Bits5(u), Symbol(s[|s| - 1]), 5);
      GlueSymbol(Number(u), s[|s| - 1]);
    }
  }

  lemma {:induction false} FromBytesSpelt(s: seq<bv8>)
    ensures FromBytes(s) == Spell(Bits8(s))
  {
    hide AppendByte, Low, Byte;
    if s != [] {
      var u := s[..|s| - 1];
      FromBytesSpelt(u);
      SpellLow(Bits8(u), Byte(s[|s| - 1]), 8);
      GlueByte(FromBytes(u), s[|s| - 1]);
    }
  }

  /** The number read from checksum symbols is the number they spell. */
  lemma ChecksumNumber(s: seq<bv5>)
    requires |s| == 8
    ensures FromBytes(To8(s)) == Number(s)
  {
    hide *;
    To8Bits(s);
    NoLeftover();
    assert Bits5(s)[..40] == Bits5(s);
    FromBytesSpelt(To8(s));
    NumberSpelt(s);
  }

  lemma NoLeftover()
    ensures Leftover(8) == 0 && Padding(5) == 0
  {
  }

  lemma {:induction false} FromToBytes(c: bv64)
    requires Fits(c)
    ensures FromBytes(ToBytes(c)) == c
  {
    var b := ToBytes(c);
    assert b[..4][..3] == b[..3] && b[..3][..2] == b[..2] && b[..2][..1] == b[..1] && b[..1][..0] == [];
    hide AppendByte, Fits;
    assert FromBytes(b) == AppendByte(AppendByte(FromBytes(b[..3]), b[3]), b[4]);
    assert FromBytes(b[..3]) == AppendByte(AppendByte(FromBytes(b[..1]), b[1]), b[2]);
    assert FromBytes(b[..1]) == AppendByte(0, b[0]);
    Joined(c, b[0], b[1], b[2], b[3], b[4]);
  }

  lemma Joined(c: bv64, b0: bv8, b1: bv8, b2: bv8, b3: bv8, b4: bv8)
    requires Fits(c) && ToBytes(c) == [b0, b1, b2, b3, b4]
    ensures AppendByte(AppendByte(AppendByte(AppendByte(AppendByte(0, b0), b1), b2), b3), b4) == c
  {
    var b := ToBytes(c);
    assert b[0] == b0 && b[1] == b1 && b[2] == b2 && b[3] == b3 && b[4] == b4;
  }

  // ---------------------------------------------------------------- encoding and decoding

  function Encode(a: Address): string {
    var fiveBit := To5([a.version] + a.payload);
    Letters(fiveBit + To5(ToBytes(Checksum(fiveBit, a.prefix))))
  }

  function Decode(prefix: Prefix, s: string): Outcome {
    var read := Read(s);
    if read.Stopped? then read.outcome
    else if |s| < 8 then Panics
    else
      var n := |s| - 8;
      var (payload, sum) := (read.symbols[..n], read.symbols[n..]);
      if Checksum(payload, prefix) != FromBytes(To8(sum)) then Err(BadChecksum)
      else
        var bytes := To8(payload);
        if bytes == [] then Panics else Ok(Address(prefix, bytes[0], bytes[1..]))
  }

  lemma ChecksumFits(payload: seq<bv5>, prefix: Prefix)
    ensures Fits(Checksum(payload, prefix))
  {
    var values := Covered(prefix, payload) + NOTHING;
    hide Covered, Fold, NOTHING;
    StartFits();
    FoldFits(1, values);
    XorOneFits(Fold(1, values));
  }

  lemma StartFits()
    ensures Fits(1)
  {
  }

  lemma XorOneFits(c: bv64)
    requires Fits(c)
    ensures Fits(Xor(c, 1))
  {
  }

  /** The checksum written is the checksum read. */
  lemma ChecksumReads(c: bv64)
    requires Fits(c)
    ensures |To5(ToBytes(c))| == 8 && FromBytes(To8(To5(ToBytes(c)))) == c
  {
    FiveBytes(c);
    NoLeftover();
    hide *;
    RoundTrip(ToBytes(c));
    FromToBytes(c);
  }

  lemma FiveBytes(c: bv64)
    ensures |ToBytes(c)| == 5
  {
  }

  /** Decoding an encoded address gives the address back, for every version and payload. */
  lemma EncodeDecodes(a: Address)
    ensures Decode(a.prefix, Encode(a)) == Ok(a)
  {
    var bytes := [a.version] + a.payload;
    var fiveBit := To5(bytes);
    var c := Checksum(fiveBit, a.prefix);
    var sum := To5(ToBytes(c));
    var s := Encode(a);
    hide To5, To8, Checksum, ToBytes, FromBytes, Letters, Read, Fits;
    ChecksumFits(fiveBit, a.prefix);
    ChecksumReads(c);
    LettersRead(fiveBit + sum);
    var n := |s| - 8;
    assert (fiveBit + sum)[..n] == fiveBit && (fiveBit + sum)[n..] == sum;
    RoundTrip(bytes);
    assert bytes[0] == a.version && bytes[1..] == a.payload;
  }

  // ---------------------------------------------------------------- what the checksum detects

  /** Symbols that leave the remainder at one. */
  ghost predicate CodeWord(prefix: Prefix, symbols: seq<bv5>) {
    Fold(1, Head(prefix) + symbols) == 1
  }

  lemma XorChecks(a: bv64, b: bv64, n: bv64)
    requires Xor(a, b) == Xor(n, 0)
    ensures Xor(b, 1) == n <==> a == 1
  {
    hide Xor;
    XorNothing(n);
    XorOne(b);
    if Xor(b, 1) == n {
      XorCancelLeft(a, 1, b);
    }
  }

  lemma XorNothing(n: bv64)
    ensures Xor(n, 0) == n
  {
  }

  lemma XorOne(b: bv64)
    ensures Xor(1, b) == Xor(b, 1)
  {
  }

  /** Comparing the checksum with the one read is asking for a code word. */
  lemma ChecksMeans(prefix: Prefix, symbols: seq<bv5>, n: nat)
    requires |symbols| == n + 8
    ensures Checksum(symbols[..n], prefix) == FromBytes(To8(symbols[n..])) <==> CodeWord(prefix, symbols)
  {
    var h, sum := Covered(prefix, symbols[..n]), symbols[n..];
    ChecksumNumber(sum);
    hide Fold, Xor, FromBytes, To8, Number, Head;
    assert Head(prefix) + symbols == h + sum;
    FoldAppend(1, h, sum);
    FoldAppend(1, h, NOTHING);
    Window(Fold(1, h), sum, NOTHING);
    NothingSpelt();
    XorChecks(Fold(1, h + sum), Fold(1, h + NOTHING), Number(sum));
  }

  lemma NothingSpelt()
    ensures Number(NOTHING) == 0
  {
    hide Append;
    NothingAppended();
    var z := NOTHING;
    assert z[..1] == [0] && z[..1][..0] == [];
    assert z[..7][..6] == z[..6] && z[..6][..5] == z[..5] && z[..5][..4] == z[..4];
    assert z[..4][..3] == z[..3] && z[..3][..2] == z[..2] && z[..2][..1] == z[..1];
    assert Number(z[..1]) == 0;
    assert Number(z[..3]) == Append(Append(Number(z[..1]), z[1]), z[2]);
    assert Number(z[..5]) == Append(Append(Number(z[..3]), z[3]), z[4]);
    assert Number(z[..7]) == Append(Append(Number(z[..5]), z[5]), z[6]);
  }

  lemma NothingAppended()
    ensures Append(0, 0) == 0
  {
  }

  /** A string is accepted exactly when it spells a code word that holds at least a version. */
  lemma DecodeMeans(prefix: Prefix, s: string)
    requires Read(s).Symbols? && |s| >= 8
    ensures Decode(prefix, s) == Err(BadChecksum) <==> !CodeWord(prefix, Read(s).symbols)
    ensures Decode(prefix, s).Ok? <==> CodeWord(prefix, Read(s).symbols) && |s| >= 10
  {
    hide Read, CodeWord, Checksum, FromBytes, To8, Leftover;
    var symbols, n := Read(s).symbols, |s| - 8;
    ChecksMeans(prefix, symbols, n);
    NoBytes(symbols[..n]);
  }

  lemma NoBytes(s: seq<bv5>)
    ensures To8(s) == [] <==> |s| < 2
  {
    hide To8;
    assert |To8(s)| == 0 <==> 5 * |s| < 8;
  }

  /** Strings that agree outside `[lo, hi)`. */
  ghost predicate Alike(s: string, t: string, lo: nat, hi: nat) {
    lo <= hi <= |s| == |t| && s[..lo] == t[..lo] && s[hi..] == t[hi..]
  }

  lemma {:induction false} ReadAt(s: string, k: nat)
    requires Read(s).Symbols? && k < |s|
    ensures Reverse(s[k]) == Some(Read(s).symbols[k])
  {
    hide Reverse;
    if k < |s| - 1 {
      ReadAt(s[..|s| - 1], k);
    }
  }

  lemma ReadAlike(s: string, t: string, lo: nat, hi: nat)
    requires Read(s).Symbols? && Read(t).Symbols? && Alike(s, t, lo, hi)
    ensures Read(s).symbols[..lo] == Read(t).symbols[..lo]
    ensures Read(s).symbols[hi..] == Read(t).symbols[hi..]
    ensures Read(s).symbols == Read(t).symbols ==> s == t
  {
    hide Reverse, Read, Letters;
    forall k | 0 <= k < |s| && (k < lo || hi <= k)
      ensures Read(s).symbols[k] == Read(t).symbols[k]
    {
      assert s[k] == t[k] by {
        if k < lo {
          assert s[..lo][k] == t[..lo][k];
        } else {
          assert s[hi..][k - hi] == t[hi..][k - hi];
        }
      }
      ReadAt(s, k);
      ReadAt(t, k);
    }
    ReadLetters(s);
    ReadLetters(t);
  }

  lemma Cut(symbols: seq<bv5>, head: seq<bv5>, lo: nat, hi: nat)
    requires lo <= hi <= |symbols|
    ensures head + symbols == (head + symbols[..lo]) + symbols[lo..hi] + symbols[hi..]
  {
  }

  lemma Differ(x: seq<bv5>, y: seq<bv5>, lo: nat, hi: nat)
    requires lo <= hi <= |x| == |y| && x != y && x[..lo] == y[..lo] && x[hi..] == y[hi..]
    ensures x[lo..hi] != y[lo..hi]
  {
    assert x == x[..lo] + x[lo..hi] + x[hi..];
    assert y == y[..lo] + y[lo..hi] + y[hi..];
  }

  /** Whatever is changed within eight consecutive characters of a valid address, to other
      characters of the set, is noticed. */
  lemma CorruptionDetected(prefix: Prefix, s: string, t: string, lo: nat, hi: nat)
    requires Decode(prefix, s).Ok? && Read(t).Symbols?
    requires Alike(s, t, lo, hi) && hi <= lo + 8 && s != t
    ensures Decode(prefix, t) == Err(BadChecksum)
  {
    Accepted(prefix, s);
    hide *;
    DecodeMeans(prefix, s);
    DecodeMeans(prefix, t);
    CorruptedWord(prefix, s, t, lo, hi);
  }

  lemma Accepted(prefix: Prefix, s: string)
    requires Decode(prefix, s).Ok?
    ensures Read(s).Symbols? && |s| >= 8
  {
    hide Read, Checksum;
  }

  lemma CorruptedWord(prefix: Prefix, s: string, t: string, lo: nat, hi: nat)
    requires Read(s).Symbols? && Read(t).Symbols? && CodeWord(prefix, Read(s).symbols)
    requires Alike(s, t, lo, hi) && hi <= lo + 8 && s != t
    ensures !CodeWord(prefix, Read(t).symbols)
  {
    var x, y, head := Read(s).symbols, Read(t).symbols, Head(prefix);
    hide Read, Fold, Head, Fits;
    ReadAlike(s, t, lo, hi);
    Cut(x, head, lo, hi);
    Cut(y, head, lo, hi);
    Differ(x, y, lo, hi);
    StartFits();
    BurstDetected(1, head + x[..lo], x[lo..hi], y[lo..hi], x[hi..]);
  }

  // ---------------------------------------------------------------- one network's address on another

  const STEM: seq<bv5> := [11, 1, 19, 16, 1]

  const MAIN: seq<bv5> := [0]

  const TEST: seq<bv5> := [20, 5, 19, 20, 0]

  const DEV: seq<bv5> := [4, 5, 22, 0]

  lemma FoldNone(c: bv64, xs: seq<bv5>)
    ensures Fold(c, xs[..0]) == c
  {
  }

  lemma Next(c: bv64, xs: seq<bv5>, k: nat, a: bv64, n: bv64)
    requires k < |xs| && Fold(c, xs[..k]) == a && Step(a, xs[k]) == n
    ensures Fold(c, xs[..k + 1]) == n
  {
    hide Step;
    assert xs[..k + 1][..k] == xs[..k];
  }

  lemma StemRemainder()
    ensures Fold(1, STEM) == 0x2b0_ce01
  {
    hide Fold;
    FoldNone(1, STEM);
    Next(1, STEM, 0, 1, 0x2b);
    Next(1, STEM, 1, 0x2b, 0x561);
    Next(1, STEM, 2, 0x561, 0xac33);
    Next(1, STEM, 3, 0xac33, 0x15_8670);
    Next(1, STEM, 4, 0x15_8670, 0x2b0_ce01);
    assert STEM[..5] == STEM;
  }

  lemma MainnetRemainder()
    ensures Fold(0x2b0_ce01, MAIN) == 0x5619_c020
  {
    hide Fold;
    FoldNone(0x2b0_ce01, MAIN);
    Next(0x2b0_ce01, MAIN, 0, 0x2b0_ce01, 0x5619_c020);
    assert MAIN[..1] == MAIN;
  }

  lemma TestnetRemainder()
    ensures Fold(0x2b0_ce01, TEST) == 0xb7_bd67_c634
  {
    hide Fold;
    FoldNone(0x2b0_ce01, TEST);
    Next(0x2b0_ce01, TEST, 0, 0x2b0_ce01, 0x5619_c034);
    Next(0x2b0_ce01, TEST, 1, 0x5619_c034, 0xa_c338_0685);
    Next(0x2b0_ce01, TEST, 2, 0xa_c338_0685, 0xc0_95bc_5ed2);
    Next(0x2b0_ce01, TEST, 3, 0xc0_95bc_5ed2, 0xa2_d663_dc8c);
    Next(0x2b0_ce01, TEST, 4, 0xa2_d663_dc8c, 0xb7_bd67_c634);
    assert TEST[..5] == TEST;
  }

  lemma DevnetRemainder()
    ensures Fold(0x2b0_ce01, DEV) == 0xa2_d66b_dc38
  {
    hide Fold;
    FoldNone(0x2b0_ce01, DEV);
    Next(0x2b0_ce01, DEV, 0, 0x2b0_ce01, 0x5619_c024);
    Next(0x2b0_ce01, DEV, 1, 0x5619_c024, 0xa_c338_0485);
    Next(0x2b0_ce01, DEV, 2, 0xa_c338_0485, 0xc0_95bc_1ed7);
    Next(0x2b0_ce01, DEV, 3, 0xc0_95bc_1ed7, 0xa2_d66b_dc38);
    assert DEV[..4] == DEV;
  }

  lemma FiveBits()
    ensures FiveBit('k') == 11 && FiveBit('a') == 1 && FiveBit('s') == 19 && FiveBit('p') == 16
    ensures FiveBit('t') == 20 && FiveBit('e') == 5 && FiveBit('d') == 4 && FiveBit('v') == 22
  {
  }

  lemma Heads()
    ensures Head(Mainnet) == STEM + MAIN && Head(Testnet) == STEM + TEST && Head(Devnet) == STEM + DEV
  {
    FiveBits();
    hide FiveBit, FiveBitString;
    assert Head(Mainnet) == STEM + MAIN;
    assert Head(Testnet) == STEM + TEST;
    assert Head(Devnet) == STEM + DEV;
  }

  /** The three prefixes leave three different remainders. */
  lemma HeadsDiffer(p: Prefix, q: Prefix)
    requires p != q
    ensures Fold(1, Head(p)) != Fold(1, Head(q))
  {
    hide *;
    Heads();
    StemRemainder();
    MainnetRemainder();
    TestnetRemainder();
    DevnetRemainder();
    FoldAppend(1, STEM, MAIN);
    FoldAppend(1, STEM, TEST);
    FoldAppend(1, STEM, DEV);
  }

  /** An address of one network is never accepted as an address of another. */
  lemma OtherNetworkRejected(p: Prefix, q: Prefix, s: string)
    requires Decode(p, s).Ok? && q != p
    ensures Decode(q, s) == Err(BadChecksum)
  {
    Accepted(p, s);
    DecodeMeans(p, s);
    DecodeMeans(q, s);
    var x := Read(s).symbols;
    hide Decode, Read, Fold, Head, Fits;
    FoldAppend(1, Head(p), x);
    FoldAppend(1, Head(q), x);
    HeadsDiffer(p, q);
    StartFits();
    FoldFits(1, Head(p));
    FoldFits(1, Head(q));
    if CodeWord(q, x) {
      FoldState(Fold(1, Head(p)), Fold(1, Head(q)), x);
    }
  }

  // ---------------------------------------------------------------- the converse

  lemma Decoded(prefix: Prefix, s: string, payload: seq<bv5>, sum: seq<bv5>)
    requires Decode(prefix, s).Ok? && Read(s).Symbols? && |s| >= 8
    requires payload == Read(s).symbols[..|s| - 8] && sum == Read(s).symbols[|s| - 8..]
    ensures var a := Decode(prefix, s).address;
      a.prefix == prefix && [a.version] + a.payload == To8(payload)
    ensures Checksum(payload, prefix) == FromBytes(To8(sum))
  {
    hide Read, Checksum, FromBytes, To8;
    var bytes := To8(payload);
    assert bytes != [] ==> [bytes[0]] + bytes[1..] == bytes;
  }

  function Written(fiveBit: seq<bv5>, prefix: Prefix): seq<bv5> {
    fiveBit + To5(ToBytes(Checksum(fiveBit, prefix)))
  }

  lemma Encoded(a: Address, bytes: seq<bv8>)
    requires bytes == [a.version] + a.payload
    ensures Encode(a) == Letters(Written(To5(bytes), a.prefix))
  {
    hide To5, Checksum, ToBytes, Letters;
  }

  /** Encoding a decoded address gives the string back exactly when its payload symbols are
      the padded form of their bytes: leftover bits are dropped without being looked at. */
  lemma DecodeEncodes(prefix: Prefix, s: string)
    requires Decode(prefix, s).Ok?
    ensures Read(s).Symbols? && |s| >= 8
    ensures Encode(Decode(prefix, s).address) == s <==> Canonical(Read(s).symbols[..|s| - 8])
  {
    hide *;
    Accepted(prefix, s);
    var symbols, n, a := Read(s).symbols, |s| - 8, Decode(prefix, s).address;
    var payload, sum := symbols[..n], symbols[n..];
    Decoded(prefix, s, payload, sum);
    var again := Written(To5(To8(payload)), prefix);
    Encoded(a, To8(payload));
    ReadLetters(s);
    LettersRead(again);
    RoundTripBack(payload);
    assert symbols == payload + sum;
    WrittenAgain(payload, sum, prefix);
  }

  lemma WrittenAgain(payload: seq<bv5>, sum: seq<bv5>, prefix: Prefix)
    requires |sum| == 8 && Checksum(payload, prefix) == FromBytes(To8(sum))
    ensures Written(To5(To8(payload)), prefix) == payload + sum <==> To5(To8(payload)) == payload
  {
    var fiveBit := To5(To8(payload));
    hide To5, To8, Checksum, FromBytes, ToBytes;
    SumLength(Checksum(fiveBit, prefix));
    SumRead(Checksum(payload, prefix), sum);
    var t := Written(fiveBit, prefix);
    assert |t| == |fiveBit| + 8 && t[..|fiveBit|] == fiveBit;
    assert (payload + sum)[..|payload|] == payload;
  }

  lemma SumLength(c: bv64)
    ensures |To5(ToBytes(c))| == 8
  {
    FiveBytes(c);
    NoLeftover();
    hide ToBytes, To5;
  }

  /** Eight checksum symbols are determined by their number. */
  lemma SumRead(c: bv64, sum: seq<bv5>)
    requires |sum| == 8 && FromBytes(To8(sum)) == c
    ensures To5(ToBytes(c)) == sum
  {
    hide *;
    ChecksumNumber(sum);
    NumberFits(sum);
    WithinFits(c);
    ChecksumReads(c);
    var t := To5(ToBytes(c));
    ChecksumNumber(t);
    NumberInjective(t, sum);
  }

  lemma WithinFits(c: bv64)
    requires Within(c, 8)
    ensures Fits(c)
  {
  }

  /** Any two or more symbols followed by their checksum are accepted. */
  lemma SealedAccepted(prefix: Prefix, payload: seq<bv5>)
    requires |payload| >= 2
    ensures Decode(prefix, Letters(Written(payload, prefix))).Ok?
    ensures Read(Letters(Written(payload, prefix))) == Symbols(Written(payload, prefix))
  {
    var c := Checksum(payload, prefix);
    var sum, all := To5(ToBytes(c)), Written(payload, prefix);
    hide To5, To8, Checksum, FromBytes, ToBytes, Letters, Read, Fits;
    ChecksumFits(payload, prefix);
    ChecksumReads(c);
    LettersRead(all);
    assert all[..|payload|] == payload && all[|payload|..] == sum;
    NoBytes(payload);
  }

  /** So a string that is accepted need not be the one its address is written as. */
  lemma LeftoverIgnored(prefix: Prefix)
    ensures var s := Letters(Written([0, 1], prefix));
      Decode(prefix, s).Ok? && Encode(Decode(prefix, s).address) != s
  {
    var payload: seq<bv5> := [0, 1];
    OneLeftOver(payload);
    hide *;
    SealedAccepted(prefix, payload);
    var all := Written(payload, prefix);
    DecodeEncodes(prefix, Letters(all));
    SealedPayload(prefix, payload);
  }

  lemma SealedPayload(prefix: Prefix, payload: seq<bv5>)
    ensures var all := Written(payload, prefix); |all| == |payload| + 8 && all[..|payload|] == payload
  {
    SumLength(Checksum(payload, prefix));
  }

  lemma OneLeftOver(payload: seq<bv5>)
    requires payload == [0, 1]
    ensures !Canonical(payload)
  {
    var bits := Bits5(payload);
    assert Leftover(2) == 2;
    assert payload[..1] == [0];
    assert Low(Symbol(1), 5) == Low(Half(Symbol(1)), 4) + [Odd(Symbol(1))];
    assert Odd(Symbol(1));
    assert bits[9];
    assert bits[8..][1] && !Zeros(2)[1];
  }

  // ---------------------------------------------------------------- whole strings

  function ToString(a: Address): string { PrefixString(a.prefix) + ":" + Encode(a) }

  /** The first colon, or the length if there is none. */
  function Colon(s: string): (k: nat)
    ensures k <= |s| && ':' !in s[..k] && (k < |s| ==> s[k] == ':')
  {
    if s == [] then 0
    else if s[0] == ':' then 0
    else
      var k := Colon(s[1..]);
      assert s[..k + 1] == [s[0]] + s[1..][..k];
      k + 1
  }

  function FromString(s: string): Outcome {
    var k := Colon(s);
    if k == |s| then Err(MissingPrefix)
    else
      match ParsePrefix(s[..k])
      case None => Err(InvalidPrefix(s[..k]))
      case Some(prefix) => Decode(prefix, s[k + 1..])
  }

  /** Every address survives being written as a string. */
  lemma StringRoundTrip(a: Address)
    ensures FromString(ToString(a)) == Ok(a)
  {
    PrefixParses(a.prefix);
    EncodeDecodes(a);
    var p, e := PrefixString(a.prefix), Encode(a);
    hide PrefixString, ParsePrefix, Encode, Decode, Colon;
    var s := p + ":" + e;
    ColonFirst(p, e);
    assert s[..|p|] == p && s[|p| + 1..] == e;
  }

  lemma {:induction false} ColonFirst(p: string, e: string)
    requires ':' !in p
    ensures Colon(p + ":" + e) == |p|
  {
    var s := p + ":" + e;
    if p != [] {
      ColonFirst(p[1..], e);
      assert s[1..] == p[1..] + ":" + e;
    }
  }

  /** Different addresses have different strings. */
  lemma StringInjective(a: Address, b: Address)
    requires ToString(a) == ToString(b)
    ensures a == b
  {
    hide ToString, FromString;
    StringRoundTrip(a);
    StringRoundTrip(b);
  }

  // ---------------------------------------------------------------- the source's loops

  lemma Reductions(x: bv64, a: bv64, b: bv64, c: bv64, d: bv64, e: bv64)
    ensures x ^ a ^ b ^ c ^ d ^ e == x ^ (a ^ b ^ c ^ d ^ e)
  {
  }

  /** The five conditional reductions of one step. */
  method Reduce(top: bv64, start: bv64) returns (c: bv64)
    ensures c == Xor(start, Reduction(top))
  {
    c := start;
    var a: bv64 := if top & 0x01 != 0 then 0x98_f2bc_8e61 else 0;
    var b: bv64 := if top & 0x02 != 0 then 0x79_b76d_99e2 else 0;
    var d: bv64 := if top & 0x04 != 0 then 0xf3_3e5f_b3c4 else 0;
    var e: bv64 := if top & 0x08 != 0 then 0xae_2eab_e2a8 else 0;
    var f: bv64 := if top & 0x10 != 0 then 0x1e_4f43_e470 else 0;
    c := c ^ a ^ b ^ d ^ e ^ f;
    Reductions(start, a, b, d, e, f);
  }

  method Polymod(values: seq<bv5>) returns (r: bv64)
    ensures r == PolymodOf(values)
  {
    var c: bv64 := 1;
    for i := 0 to |values|
      invariant c == Fold(1, values[..i])
    {
      assert values[..i + 1][..i] == values[..i];
      c := Reduce(Top(c), Xor(Checksums.Shifted(c), Wide(values[i])));
    }
    assert values[..|values|] == values;
    r := Xor(c, 1);
  }

  method EncodeLetters(s: seq<bv5>) returns (r: string)
    ensures r == Letters(s)
  {
    hide Letter;
    r := "";
    for i := 0 to |s|
      invariant r == Letters(s[..i])
    {
      assert s[..i + 1][..i] == s[..i];
      r := r + [Letter(s[i])];
    }
    assert s[..|s|] == s;
  }

  method EncodePayload(a: Address) returns (r: string)
    ensures r == Encode(a)
  {
    var fiveBit := Conv8To5([a.version] + a.payload);
    var c := Polymod(Covered(a.prefix, fiveBit) + NOTHING);
    var sum := Conv8To5(ToBytes(c));
    r := EncodeLetters(fiveBit + sum);
  }

  method ReadSymbols(s: string) returns (r: Reading)
    ensures r == Read(s)
  {
    hide Reverse;
    var symbols := [];
    for i := 0 to |s|
      invariant Read(s[..i]) == Symbols(symbols)
    {
      assert s[..i + 1][..i] == s[..i];
      if s[i] as int >= TABLE_END {
        ReadPrefixStops(s, i);
        return Stopped(Panics);
      }
      match Reverse(s[i])
      case None =>
        ReadPrefixStops(s, i);
        return Stopped(Err(DecodingError(s[i])));
      case Some(v) =>
        symbols := symbols + [v];
    }
    assert s[..|s|] == s;
    r := Symbols(symbols);
  }

  lemma ReadPrefixStops(s: string, k: nat)
    requires k < |s| && Read(s[..k]).Symbols? && (s[k] as int >= TABLE_END || Reverse(s[k]).None?)
    ensures Read(s) == Stopped(if s[k] as int >= TABLE_END then Panics else Err(DecodingError(s[k])))
  {
    ReadStops(s, k);
  }

  method DecodePayload(prefix: Prefix, s: string) returns (r: Outcome)
    ensures r == Decode(prefix, s)
  {
    hide Read, To8, Fold, FromBytes;
    var read := ReadSymbols(s);
    if read.Stopped? {
      return read.outcome;
    }
    if |s| < 8 {
      return Panics;
    }
    var n := |s| - 8;
    var payload, sum := read.symbols[..n], read.symbols[n..];
    var sumBytes := Conv5To8(sum);
    var c := Polymod(Covered(prefix, payload) + NOTHING);
    if c != FromBytes(sumBytes) {
      return Err(BadChecksum);
    }
    var bytes := Conv5To8(payload);
    r := if bytes == [] then Panics else Ok(Address(prefix, bytes[0], bytes[1..]));
  }
}
