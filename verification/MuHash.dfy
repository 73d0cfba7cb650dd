/** The multiset hash: a fraction of two numbers modulo the modulus. */
module MuHashes {
  import opened Limbs
  import opened U3072s

  type Element = seq<Limb>

  ghost function Product(elements: seq<Element>): nat {
    if elements == [] then 1
    else
      ProductNonnegative(Product(elements[..|elements| - 1]), Val(elements[|elements| - 1]));
      Product(elements[..|elements| - 1]) * Val(elements[|elements| - 1])
  }

  lemma ProductNonnegative(a: nat, b: nat)
    ensures a * b >= 0
  {
  }

  lemma ProductAppend(elements: seq<Element>, x: Element)
    ensures Product(elements + [x]) == Product(elements) * Val(x)
  {
    assert (elements + [x])[..|elements|] == elements;
  }

  lemma {:induction false} ProductConcat(s: seq<Element>, r: seq<Element>)
    ensures Product(s + r) == Product(s) * Product(r)
  {
    if r == [] {
      assert s + r == s;
    } else {
      var n := |r| - 1;
      ProductConcat(s, r[..n]);
      assert s + r == (s + r[..n]) + [r[n]];
      ProductAppend(s + r[..n], r[n]);
      Reassociate(Product(s), Product(r[..n]), Val(r[n]));
    }
  }

  lemma Reassociate(a: int, b: int, c: int)
    ensures (a * b) * c == a * (b * c)
  {
  }

  /** The product does not depend on the order of the elements. */
  lemma {:induction false} ProductOfMultiset(s: seq<Element>, r: seq<Element>)
    requires multiset(s) == multiset(r)
    ensures Product(s) == Product(r)
    decreases |s|
  {
    if s == [] {
      assert |multiset(r)| == 0;
      assert r == [];
    } else {
      var n, x := |s| - 1, s[|s| - 1];
      assert s == s[..n] + [x];
      assert x in multiset(r);
      var i :| 0 <= i < |r| && r[i] == x;
      var rest := r[..i] + r[i + 1..];
      assert r == r[..i] + [x] + r[i + 1..];
      assert multiset(rest) == multiset(r) - multiset{x} == multiset(s[..n]);
      ProductOfMultiset(s[..n], rest);
      ProductConcat(r[..i] + [x], r[i + 1..]);
      ProductConcat(r[..i], r[i + 1..]);
      ProductAppend(r[..i], x);
      Shuffle(Product(r[..i]), Val(x), Product(r[i + 1..]));
    }
  }

  lemma Shuffle(a: int, x: int, b: int)
    ensures (a * x) * b == (a * b) * x
  {
    Reassociate(a, x, b);
    Reassociate(a, b, x);
    assert x * b == b * x;
  }

  // ----- inverses -----

  ghost predicate IsInverse(x: int, y: int, m: int) {
    Congruent(x * y, 1, m)
  }

  ghost predicate Invertible(x: int, m: int) {
    exists y :: IsInverse(x, y, m)
  }

  ghost predicate AllInvertible(elements: seq<Element>, m: int) {
    forall i :: 0 <= i < |elements| ==> Invertible(Val(elements[i]), m)
  }

  lemma InvertibleOne(m: int)
    ensures Invertible(1, m)
  {
    CongruentSame(1, m);
    assert IsInverse(1, 1, m);
  }

  lemma InvertibleTimes(x: int, y: int, m: int)
    requires Invertible(x, m) && Invertible(y, m)
    ensures Invertible(x * y, m)
  {
    var u :| IsInverse(x, u, m);
    var v :| IsInverse(y, v, m);
    CongruentTimes(x * u, 1, y * v, 1, m);
    Interchange(x, u, y, v);
    assert IsInverse(x * y, u * v, m);
  }

  lemma Interchange(x: int, u: int, y: int, v: int)
    ensures (x * u) * (y * v) == (x * y) * (u * v)
  {
    Reassociate(x, u, y * v);
    Reassociate(u, y, v);
    assert u * y == y * u;
    Reassociate(y, u, v);
    Reassociate(x, y, u * v);
  }

  lemma InvertibleCongruent(x: int, y: int, m: int)
    requires Invertible(x, m) && Congruent(x, y, m)
    ensures Invertible(y, m)
  {
    var u :| IsInverse(x, u, m);
    CongruentSame(u, m);
    CongruentTimes(x, y, u, u, m);
    CongruentSym(x * u, y * u, m);
    CongruentTrans(y * u, x * u, 1, m);
    assert IsInverse(y, u, m);
  }

  lemma {:induction false} InvertibleProduct(elements: seq<Element>, m: int)
    requires AllInvertible(elements, m)
    ensures Invertible(Product(elements), m)
  {
    if elements == [] {
      InvertibleOne(m);
    } else {
      InvertibleProduct(elements[..|elements| - 1], m);
      InvertibleTimes(Product(elements[..|elements| - 1]), Val(elements[|elements| - 1]), m);
    }
  }

  /** An invertible factor can be cancelled. */
  lemma Cancel(x: int, y: int, f: int, m: int)
    requires Congruent(x * f, y * f, m) && Invertible(f, m)
    ensures Congruent(x, y, m)
  {
    var u :| IsInverse(f, u, m);
    CongruentSame(u, m);
    CongruentTimes(x * f, y * f, u, u, m);
    Reassociate(x, f, u);
    Reassociate(y, f, u);
    CongruentSame(x, m);
    CongruentSame(y, m);
    CongruentTimes(x, x, f * u, 1, m);
    CongruentTimes(y, y, f * u, 1, m);
    CongruentSym(x * (f * u), x * 1, m);
    CongruentTrans(x, x * (f * u), y * (f * u), m);
    CongruentTrans(x, y * (f * u), y, m);
  }

  /** The foreign modular inverse: right wherever there is one. */
  type ModInverse = Element -> Element

  ghost predicate InvertsRight(f: ModInverse, n: nat) {
    forall s: Element :: |s| == n && Val(s) < Modulus(n) ==>
      |f(s)| == n && (Invertible(Val(s), Modulus(n)) ==> IsInverse(Val(s), Val(f(s)), Modulus(n)))
  }

  /** The limbs of the residue of `s`. */
  method Reduced(s: seq<Limb>) returns (r: seq<Limb>)
    requires |s| >= 2
    ensures |r| == |s| && Val(r) < Modulus(|s|) && Congruent(Val(s), Val(r), Modulus(|s|))
  {
    var a := new Limb[|s|](i requires 0 <= i < |s| => s[i]);
    assert a[..] == s;
    OverflowMeans(s);
    ValBound(s);
    ModulusLarge(|s|);
    CongruentSame(Val(s), Modulus(|s|));
    if IsOverflow(s) {
      FullReduce(a);
      SubtractModulus(Val(s), Val(s), |s|);
    }
    r := a[..];
  }

  /** The inverse of a residue; zero for zero. */
  method Inverse(s: seq<Limb>, f: ModInverse) returns (inverse: seq<Limb>)
    requires |s| >= 2 && InvertsRight(f, |s|)
    ensures |inverse| == |s|
    ensures Invertible(Val(s), Modulus(|s|)) ==> IsInverse(Val(s), Val(inverse), Modulus(|s|))
    ensures Congruent(Val(s), 0, Modulus(|s|)) ==> Val(inverse) == 0
  {
    hide Congruent, Modulus, IsInverse, Invertible, Val;
    ghost var m := Modulus(|s|);
    var reduced := Reduced(s);
    ZeroIs(reduced);
    CongruentZero(Val(s), Val(reduced), m);
    if forall i :: 0 <= i < |reduced| ==> reduced[i] == 0 {
      ZeroNotInvertible(Val(s), |s|);
      return reduced;
    }
    inverse := f(reduced);
    SameInverse(Val(s), Val(reduced), Val(inverse), m);
  }

  lemma {:induction false} ZeroIs(s: seq<Limb>)
    ensures Val(s) == 0 <==> forall i :: 0 <= i < |s| ==> s[i] == 0
  {
    if s != [] {
      var n := |s| - 1;
      ZeroIs(s[..n]);
      ShiftZero(n);
      if s[n] > 0 { ShiftMonotone(0, s[n], n); }
      if forall i :: 0 <= i < n ==> s[..n][i] == 0 {
        forall i | 0 <= i < n ensures s[i] == 0 { assert s[..n][i] == 0; }
      } else {
        var i :| 0 <= i < n && s[..n][i] != 0;
        assert s[i] != 0;
      }
    }
  }

  /** A residue of a multiple of the modulus is zero. */
  lemma CongruentZero(x: int, r: int, m: int)
    requires Congruent(x, r, m) && 0 <= r < m
    ensures Congruent(x, 0, m) <==> r == 0
  {
    if Congruent(x, 0, m) {
      CongruentSym(x, r, m);
      CongruentTrans(r, x, 0, m);
      CongruentUnique(r, 0, m);
    }
  }

  lemma ZeroNotInvertible(x: int, n: nat)
    requires n >= 2 && Congruent(x, 0, Modulus(n))
    ensures !Invertible(x, Modulus(n))
  {
    ModulusLarge(n);
    if Invertible(x, Modulus(n)) {
      var u :| IsInverse(x, u, Modulus(n));
      CongruentSame(u, Modulus(n));
      CongruentTimes(x, 0, u, u, Modulus(n));
      CongruentSym(x * u, 1, Modulus(n));
      CongruentTrans(1, x * u, 0 * u, Modulus(n));
      CongruentUnique(1, 0, Modulus(n));
    }
  }

  lemma SameInverse(x: int, r: int, inverse: int, m: int)
    requires Congruent(x, r, m)
    requires Invertible(r, m) ==> IsInverse(r, inverse, m)
    ensures Invertible(x, m) ==> IsInverse(x, inverse, m)
  {
    if Invertible(x, m) {
      InvertibleCongruent(x, r, m);
      CongruentSame(inverse, m);
      CongruentTimes(x, r, inverse, inverse, m);
      CongruentTrans(x * inverse, r * inverse, 1, m);
    }
  }

  /** Divides `a` by `other`: the quotient if `other` is invertible, zero if it is zero. */
  method Div(a: array<Limb>, other: seq<Limb>, f: ModInverse)
    requires a.Length == |other| && 2 <= a.Length <= MAX_LIMBS && InvertsRight(f, a.Length)
    modifies a
    ensures Val(a[..]) < Modulus(a.Length)
    ensures Invertible(Val(other), Modulus(a.Length)) ==>
              Congruent(Val(a[..]) * Val(other), old(Val(a[..])), Modulus(a.Length))
    ensures Congruent(Val(other), 0, Modulus(a.Length)) ==> Val(a[..]) == 0
  {
    hide Congruent, Modulus, IsInverse, Invertible, Val;
    ghost var n, m, was := a.Length, Modulus(a.Length), Val(a[..]);
    var inverse := Inverse(other, f);
    var numerator := Reduced(a[..]);
    forall i | 0 <= i < a.Length {
      a[i] := numerator[i];
    }
    assert a[..] == numerator;
    Mul(a, inverse);
    if Invertible(Val(other), m) {
      CongruentSame(Val(other), m);
      Quotient(was, Val(numerator), Val(other), Val(other), Val(inverse), Val(a[..]), m);
    }
    if Congruent(Val(other), 0, m) {
      CongruentUnique(Val(numerator) * 0, Val(a[..]), m);
    }
  }

  /** A residue times an inverse is the quotient. */
  lemma Quotient(x: int, x': int, y: int, y': int, inverse: int, q: int, m: int)
    requires Congruent(x, x', m) && Congruent(y, y', m) && IsInverse(y', inverse, m) && Congruent(x' * inverse, q, m)
    ensures Congruent(q * y, x, m)
  {
    CongruentSym(x' * inverse, q, m);
    CongruentTimes(q, x' * inverse, y, y', m);
    Reassociate(x', inverse, y');
    assert inverse * y' == y' * inverse;
    CongruentSame(x', m);
    CongruentTimes(x', x', y' * inverse, 1, m);
    CongruentTrans(q * y, x' * (inverse * y'), x', m);
    CongruentSym(x, x', m);
    CongruentTrans(q * y, x', x, m);
  }

  // ----- the hash as a state machine -----

  /** The fraction stands for the added elements over the removed ones, as long as all removed
      elements are invertible. */
  ghost predicate Fraction(numerator: int, denominator: int, added: seq<Element>, removed: seq<Element>, m: int) {
    AllInvertible(removed, m) ==>
      Congruent(numerator * Product(removed), denominator * Product(added), m) && Invertible(denominator, m)
  }

  lemma AddKeeps(num: int, num': int, den: int, added: seq<Element>, removed: seq<Element>, x: Element, m: int)
    requires Fraction(num, den, added, removed, m) && Congruent(num * Val(x), num', m)
    ensures Fraction(num', den, added + [x], removed, m)
  {
    if AllInvertible(removed, m) {
      hide Congruent, Invertible;
      var e, r := Val(x), Product(removed);
      ProductAppend(added, x);
      CongruentSym(num * e, num', m);
      CongruentSame(r, m);
      CongruentTimes(num', num * e, r, r, m);
      Shuffle(num, e, r);
      CongruentSame(e, m);
      CongruentTimes(num * r, den * Product(added), e, e, m);
      CongruentTrans(num' * r, (num * r) * e, (den * Product(added)) * e, m);
      Reassociate(den, Product(added), e);
    }
  }

  lemma RemoveKeeps(num: int, den: int, den': int, added: seq<Element>, removed: seq<Element>, x: Element, m: int)
    requires Fraction(num, den, added, removed, m) && Congruent(den * Val(x), den', m)
    ensures Fraction(num, den', added, removed + [x], m)
  {
    if AllInvertible(removed + [x], m) {
      FewerInvertible(removed, x, m);
      hide Congruent, Invertible;
      var e, a := Val(x), Product(added);
      ProductAppend(removed, x);
      CongruentSame(e, m);
      CongruentTimes(num * Product(removed), den * a, e, e, m);
      Reassociate(num, Product(removed), e);
      Shuffle(den, a, e);
      CongruentSame(a, m);
      CongruentTimes(den * e, den', a, a, m);
      CongruentTrans(num * (Product(removed) * e), (den * e) * a, den' * a, m);
      InvertibleTimes(den, e, m);
      InvertibleCongruent(den * e, den', m);
    }
  }

  lemma FewerInvertible(removed: seq<Element>, x: Element, m: int)
    requires AllInvertible(removed + [x], m)
    ensures AllInvertible(removed, m) && Invertible(Val(x), m)
  {
    forall i | 0 <= i < |removed| ensures Invertible(Val(removed[i]), m) { assert (removed + [x])[i] == removed[i]; }
    assert (removed + [x])[|removed|] == x;
  }

  lemma CombineKeeps(n1: int, d1: int, a1: seq<Element>, r1: seq<Element>, n2: int, d2: int, a2: seq<Element>,
                     r2: seq<Element>,
                     num: int, den: int, m: int)
    requires Fraction(n1, d1, a1, r1, m) && Fraction(n2, d2, a2, r2, m) && Congruent(n1 * n2, num, m)
             && Congruent(d1 * d2, den, m)
    ensures Fraction(num, den, a1 + a2, r1 + r2, m)
  {
    if AllInvertible(r1 + r2, m) {
      forall i | 0 <= i < |r1| ensures Invertible(Val(r1[i]), m) { assert (r1 + r2)[i] == r1[i]; }
      forall i | 0 <= i < |r2| ensures Invertible(Val(r2[i]), m) { assert (r1 + r2)[|r1| + i] == r2[i]; }
      hide Congruent, Invertible;
      ProductConcat(a1, a2);
      ProductConcat(r1, r2);
      CongruentTimes(n1 * Product(r1), d1 * Product(a1), n2 * Product(r2), d2 * Product(a2), m);
      Interchange(n1, Product(r1), n2, Product(r2));
      Interchange(d1, Product(a1), d2, Product(a2));
      CongruentSym(n1 * n2, num, m);
      CongruentSame(Product(r1 + r2), m);
      CongruentSame(Product(a1 + a2), m);
      CongruentTimes(num, n1 * n2, Product(r1 + r2), Product(r1 + r2), m);
      CongruentTimes(d1 * d2, den, Product(a1 + a2), Product(a1 + a2), m);
      CongruentTrans(num * Product(r1 + r2), (n1 * n2) * Product(r1 + r2), (d1 * d2) * Product(a1 + a2), m);
      CongruentTrans(num * Product(r1 + r2), (d1 * d2) * Product(a1 + a2), den * Product(a1 + a2), m);
      InvertibleTimes(d1, d2, m);
      InvertibleCongruent(d1 * d2, den, m);
    }
  }

  lemma NormalizeKeeps(num: int, num': int, den: int, added: seq<Element>, removed: seq<Element>, m: int)
    requires Fraction(num, den, added, removed, m) && AllInvertible(removed, m) && Congruent(num' * den, num, m)
    ensures Fraction(num', 1, added, removed, m)
  {
    hide Congruent, Invertible;
    var r, a := Product(removed), Product(added);
    CongruentSame(r, m);
    CongruentTimes(num' * den, num, r, r, m);
    Shuffle(num', den, r);
    CongruentTrans((num' * r) * den, num * r, den * a, m);
    assert den * a == a * den;
    Cancel(num' * r, a, den, m);
    InvertibleOne(m);
  }

  class MuHash {
    const n: nat
    const numerator: array<Limb>
    const denominator: array<Limb>
    ghost var added: seq<Element>
    ghost var removed: seq<Element>

    ghost predicate Valid()
      reads this, numerator, denominator
    {
      && 2 <= n <= MAX_LIMBS && numerator != denominator && numerator.Length == n && denominator.Length == n
      && Fraction(Val(numerator[..]), Val(denominator[..]), added, removed, Modulus(n))
    }

    constructor (n: nat)
      requires 2 <= n <= MAX_LIMBS
      ensures Valid() && this.n == n && added == [] && removed == [] && fresh(numerator) && fresh(denominator)
    {
      this.n := n;
      var one: seq<Limb> := seq(n, i requires 0 <= i < n => if i == 0 then 1 else 0);
      numerator := new Limb[n](i requires 0 <= i < n => if i == 0 then 1 else 0);
      denominator := new Limb[n](i requires 0 <= i < n => if i == 0 then 1 else 0);
      added, removed := [], [];
      new;
      assert numerator[..] == one && denominator[..] == one;
      OneIs(one);
      CongruentSame(1, Modulus(n));
      InvertibleOne(Modulus(n));
    }

    /** A hash read back from its limbs, which stand for the given elements. */
    constructor Load(limbs: seq<Limb>, ghost elements: seq<Element>)
      requires 2 <= |limbs| <= MAX_LIMBS && Congruent(Val(limbs), Product(elements), Modulus(|limbs|))
      ensures Valid() && n == |limbs| && added == elements && removed == [] && fresh(numerator) && fresh(denominator)
    {
      hide Congruent, Modulus, Product, Invertible;
      n := |limbs|;
      var one: seq<Limb> := seq(|limbs|, i requires 0 <= i < |limbs| => if i == 0 then 1 else 0);
      numerator := new Limb[|limbs|](i requires 0 <= i < |limbs| => limbs[i]);
      denominator := new Limb[|limbs|](i requires 0 <= i < |limbs| => if i == 0 then 1 else 0);
      added, removed := elements, [];
      new;
      assert numerator[..] == limbs && denominator[..] == one;
      OneIs(one);
      NothingRemoved(Val(limbs), elements, Modulus(n));
    }

    /** Multiplies an element into the numerator. */
    method AddElement(x: Element)
      requires Valid() && |x| == n
      modifies numerator, this`added
      ensures Valid() && added == old(added) + [x]
    {
      hide Congruent, Modulus, Fraction;
      Mul(numerator, x);
      AddKeeps(old(Val(numerator[..])), Val(numerator[..]), Val(denominator[..]), added, removed, x, Modulus(n));
      added := added + [x];
    }

    /** Multiplies an element into the denominator. */
    method RemoveElement(x: Element)
      requires Valid() && |x| == n
      modifies denominator, this`removed
      ensures Valid() && removed == old(removed) + [x]
    {
      hide Congruent, Modulus, Fraction;
      Mul(denominator, x);
      RemoveKeeps(Val(numerator[..]), old(Val(denominator[..])), Val(denominator[..]), added, removed, x, Modulus(n));
      removed := removed + [x];
    }

    /** Adds what another hash added and removes what it removed. */
    method Combine(other: MuHash)
      requires Valid() && other.Valid() && other.n == n && other.numerator != numerator
               && other.denominator != denominator
      requires other.numerator != denominator && other.denominator != numerator && other != this
      modifies numerator, denominator, this
      ensures Valid() && added == old(added) + other.added && removed == old(removed) + other.removed
    {
      hide Congruent, Modulus, Fraction;
      Mul(numerator, other.numerator[..]);
      Mul(denominator, other.denominator[..]);
      CombineKeeps(old(Val(numerator[..])), old(Val(denominator[..])), added, removed,
                   Val(other.numerator[..]), Val(other.denominator[..]), other.added, other.removed,
                   Val(numerator[..]), Val(denominator[..]), Modulus(n));
      added, removed := added + other.added, removed + other.removed;
    }

    /** Carries out the division. */
    method Normalize(f: ModInverse)
      requires Valid() && InvertsRight(f, n)
      modifies numerator, denominator
      ensures Valid() && Val(numerator[..]) < Modulus(n) && Val(denominator[..]) == 1
    {
      hide Congruent, Modulus, InvertsRight, AllInvertible;
      Div(numerator, denominator[..], f);
      ghost var m, was, quotient := Modulus(n), old(Val(numerator[..])), numerator[..];
      var one: seq<Limb> := seq(n, i requires 0 <= i < n => if i == 0 then 1 else 0);
      forall i | 0 <= i < n {
        denominator[i] := if i == 0 then 1 else 0;
      }
      assert denominator[..] == one && numerator[..] == quotient;
      OneIs(one);
      if AllInvertible(removed, m) {
        NormalizeKeeps(was, Val(numerator[..]), old(Val(denominator[..])), added, removed, m);
      }
    }

    /** The limbs of the normalised hash: the added elements over the removed ones. */
    method Serialize(f: ModInverse) returns (r: seq<Limb>)
      requires Valid() && InvertsRight(f, n)
      modifies numerator, denominator
      ensures Valid() && |r| == n && Val(r) < Modulus(n)
      ensures AllInvertible(removed, Modulus(n)) ==> Congruent(Val(r) * Product(removed), Product(added), Modulus(n))
    {
      Normalize(f);
      r := numerator[..];
    }
  }

  lemma NothingRemoved(x: int, elements: seq<Element>, m: int)
    requires Congruent(x, Product(elements), m)
    ensures Fraction(x, 1, elements, [], m)
  {
    hide Congruent, Invertible;
    assert Product([]) == 1;
    InvertibleOne(m);
  }

  lemma {:induction false} OneIs(s: seq<Limb>)
    requires s != [] && forall i :: 0 <= i < |s| ==> s[i] == if i == 0 then 1 else 0
    ensures Val(s) == 1
  {
    var n := |s| - 1;
    if n == 0 {
      assert s[..0] == [];
    } else {
      OneIs(s[..n]);
      ShiftZero(n);
    }
  }

  lemma {:induction false} ValInjective(s: seq<Limb>, r: seq<Limb>)
    requires |s| == |r| && Val(s) == Val(r)
    ensures s == r
  {
    if s != [] {
      var n := |s| - 1;
      var x: int, y: int := s[n], r[n];
      ValBound(s[..n]);
      ValBound(r[..n]);
      ShiftAdd(x, 1, n);
      ShiftAdd(y, 1, n);
      if x < y { ShiftMonotone(x + 1, y, n); } else if y < x { ShiftMonotone(y + 1, x, n); }
      ValInjective(s[..n], r[..n]);
      assert s == s[..n] + [s[n]] && r == r[..n] + [r[n]];
    }
  }

  /** Removed elements leave the hash as if they had never been added: what is left decides it. */
  lemma OnlyTheRest(r: int, added: seq<Element>, removed: seq<Element>, left: seq<Element>, m: int)
    requires Congruent(r * Product(removed), Product(added), m) && AllInvertible(removed, m)
    requires multiset(added) == multiset(removed) + multiset(left)
    ensures Congruent(r, Product(left), m)
  {
    hide Congruent, Invertible, AllInvertible, Product;
    ProductOfMultiset(added, left + removed);
    ProductConcat(left, removed);
    InvertibleProduct(removed, m);
    Cancel(r, Product(left), Product(removed), m);
  }

  /** Two hashes with the same surplus of added over removed elements, the removed ones invertible,
      serialize to the same limbs, whatever was added and removed on the way, and in which order. */
  lemma SerializedAlike(n: nat, r: seq<Limb>, added: seq<Element>, removed: seq<Element>,
                        r': seq<Limb>, added': seq<Element>, removed': seq<Element>)
    requires n >= 2 && |r| == n && |r'| == n && Val(r) < Modulus(n) && Val(r') < Modulus(n)
    requires multiset(added) + multiset(removed') == multiset(added') + multiset(removed)
    requires AllInvertible(removed, Modulus(n)) && AllInvertible(removed', Modulus(n))
    requires Congruent(Val(r) * Product(removed), Product(added), Modulus(n))
    requires Congruent(Val(r') * Product(removed'), Product(added'), Modulus(n))
    ensures r == r'
  {
    hide *;
    var m := Modulus(n);
    SameProducts(added, removed, added', removed');
    InvertibleProduct(removed, m);
    InvertibleProduct(removed', m);
    CrossCancel(Val(r), Product(removed), Product(added), Val(r'), Product(removed'), Product(added'), m);
    CongruentUnique(Val(r), Val(r'), m);
    ValInjective(r, r');
  }

  lemma SameProducts(added: seq<Element>, removed: seq<Element>, added': seq<Element>, removed': seq<Element>)
    requires multiset(added) + multiset(removed') == multiset(added') + multiset(removed)
    ensures Product(added) * Product(removed') == Product(added') * Product(removed)
  {
    hide Product;
    ProductOfMultiset(added + removed', added' + removed);
    ProductConcat(added, removed');
    ProductConcat(added', removed);
  }

  /** Equal fractions over invertible denominators. */
  lemma CrossCancel(x: int, b: int, a: int, x': int, b': int, a': int, m: int)
    requires Congruent(x * b, a, m) && Congruent(x' * b', a', m) && a * b' == a' * b
    requires Invertible(b, m) && Invertible(b', m)
    ensures Congruent(x, x', m)
  {
    hide Congruent, Invertible;
    CongruentSame(b, m);
    CongruentSame(b', m);
    CongruentTimes(x * b, a, b', b', m);
    CongruentTimes(x' * b', a', b, b, m);
    CongruentSym((x' * b') * b, a' * b, m);
    Shuffle(x', b', b);
    CongruentTrans((x * b) * b', a * b', (x' * b) * b', m);
    Cancel(x * b, x' * b, b', m);
    Cancel(x, x', b, m);
  }
}
