/** UTXO entries, diffs over a base UTXO set, and the algebra of diffs. */
module UtxoDiffs {
  import opened Options

  datatype Outpoint = Outpoint(transactionId: nat, index: nat)

  datatype Entry = Entry(amount: nat, script: nat, daaScore: nat, isCoinbase: bool)

  type Collection = map<Outpoint, Entry>

  datatype Diff = Diff(add: Collection, remove: Collection)

  /** The entry of an outpoint, if there is one. */
  function Get(c: Collection, o: Outpoint): Option<Entry> {
    if o in c then Some(c[o]) else None
  }

  predicate HasDaa(c: Collection, o: Outpoint, daaScore: nat) {
    o in c && c[o].daaScore == daaScore
  }

  /** What the composed view of a base and a diff shows: added entries first, then nothing for
      removed ones, then the base. */
  function ComposedGet(base: Collection, d: Diff, o: Outpoint): Option<Entry> {
    if o in d.add then Some(d.add[o])
    else if o in d.remove then None
    else Get(base, o)
  }

  /** The UTXO set after a diff. */
  function Applied(base: Collection, d: Diff): Collection {
    base - d.remove.Keys + d.add
  }

  lemma AppliedGet(base: Collection, d: Diff, o: Outpoint)
    ensures Get(Applied(base, d), o) == ComposedGet(base, d, o)
  {
  }

  function Reversed(d: Diff): Diff {
    Diff(d.remove, d.add)
  }

  lemma SameGets(a: Collection, b: Collection)
    requires forall o :: Get(a, o) == Get(b, o)
    ensures a == b
  {
    forall o ensures o in a <==> o in b {
      assert Get(a, o) == Get(b, o);
    }
    forall o | o in a ensures a[o] == b[o] {
      assert Get(a, o) == Get(b, o);
    }
  }

  // ----- validity -----

  /** Removed entries are those of the base; an added outpoint is free in the base, or freed. */
  ghost predicate ValidOver(base: Collection, d: Diff) {
    && (forall o :: o in d.remove ==> o in base && base[o] == d.remove[o])
    && (forall o :: o in d.add && o in base ==> o in d.remove)
  }

  /** Entries of one outpoint with one DAA score are equal. */
  ghost predicate Consistent(a: Collection, b: Collection) {
    forall o :: o in a && o in b && a[o].daaScore == b[o].daaScore ==> a[o] == b[o]
  }

  /** An outpoint both added and removed has different DAA scores there. */
  ghost predicate Normalised(d: Diff) {
    forall o :: o in d.add && o in d.remove ==> d.add[o].daaScore != d.remove[o].daaScore
  }

  // ----- set algebra with the DAA score dimension -----

  /** Entries of `a` that `b` has with the same DAA score. */
  function Common(a: Collection, b: Collection): Collection {
    map o | o in a && HasDaa(b, o, a[o].daaScore) :: a[o]
  }

  /** Entries of `a` that `b` does not have with the same DAA score. */
  function Minus(a: Collection, b: Collection): Collection {
    map o | o in a && !HasDaa(b, o, a[o].daaScore) :: a[o]
  }

  /** `this`, then `other`, as one diff. */
  function Composed(self: Diff, other: Diff): Diff {
    var remove := self.remove + Minus(other.remove, self.add);
    Diff(self.add - Common(other.remove, self.add).Keys + Minus(other.add, remove),
         remove - Common(other.add, remove).Keys)
  }

  /** Removed twice, without having been added in between. */
  ghost predicate DuplicateRemove(self: Diff, other: Diff, o: Outpoint) {
    o in other.remove && o in self.remove && !HasDaa(self.add, o, other.remove[o].daaScore)
  }

  /** Added twice, without having been removed in between. */
  ghost predicate DuplicateAdd(self: Diff, other: Diff, o: Outpoint) {
    o in other.add && o in self.add && !HasDaa(other.remove, o, self.add[o].daaScore)
  }

  /** The difference between two diffs over the same base. */
  function Difference(self: Diff, other: Diff): Diff {
    Diff(Minus(self.remove, other.remove) + Minus(other.add, self.add),
         Minus(self.add, other.add) + Minus(other.remove, self.remove))
  }

  // ----- laws of composition -----

  /** What two diffs in succession mean at one outpoint. */
  lemma ComposedAt(base: Collection, self: Diff, other: Diff, o: Outpoint)
    requires ValidOver(base, self) && ValidOver(Applied(base, self), other)
    requires Consistent(self.remove, other.add) && Consistent(other.remove, other.add)
    ensures !DuplicateRemove(self, other, o) && !DuplicateAdd(self, other, o)
    ensures ComposedGet(base, Composed(self, other), o) == ComposedGet(Applied(base, self), other, o)
    ensures o in Composed(self, other).remove ==> Get(base, o) == Some(Composed(self, other).remove[o])
    ensures o in Composed(self, other).add && o in base ==> o in Composed(self, other).remove
  {
    AppliedGet(base, self, o);
  }

  /** Composition succeeds, is valid over the base, and shows what the two diffs show in succession. */
  lemma ComposedLaw(base: Collection, self: Diff, other: Diff)
    requires ValidOver(base, self) && ValidOver(Applied(base, self), other)
    requires Consistent(self.remove, other.add) && Consistent(other.remove, other.add)
    ensures forall o :: !DuplicateRemove(self, other, o) && !DuplicateAdd(self, other, o)
    ensures ValidOver(base, Composed(self, other))
    ensures Applied(base, Composed(self, other)) == Applied(Applied(base, self), other)
  {
    hide Composed, DuplicateRemove, DuplicateAdd;
    forall o ensures !DuplicateRemove(self, other, o) && !DuplicateAdd(self, other, o) {
      ComposedAt(base, self, other, o);
    }
    var c := Composed(self, other);
    forall o ensures Get(Applied(base, c), o) == Get(Applied(Applied(base, self), other), o) {
      ComposedAt(base, self, other, o);
      AppliedGet(base, c, o);
      AppliedGet(Applied(base, self), other, o);
    }
    forall o | o in c.remove ensures o in base && base[o] == c.remove[o] { ComposedAt(base, self, other, o); }
    forall o | o in c.add && o in base ensures o in c.remove { ComposedAt(base, self, other, o); }
    SameGets(Applied(base, c), Applied(Applied(base, self), other));
  }

  /** Composition keeps diffs normalised. */
  lemma ComposedNormalised(self: Diff, other: Diff)
    requires Normalised(self) && Normalised(other)
    ensures Normalised(Composed(self, other))
  {
  }

  /** The reversed diff leads back. */
  lemma ReversedLaw(base: Collection, d: Diff)
    requires ValidOver(base, d)
    ensures ValidOver(Applied(base, d), Reversed(d)) && Applied(Applied(base, d), Reversed(d)) == base
  {
    forall o ensures Get(Applied(Applied(base, d), Reversed(d)), o) == Get(base, o) {
      AppliedGet(base, d, o);
      AppliedGet(Applied(base, d), Reversed(d), o);
    }
    SameGets(Applied(Applied(base, d), Reversed(d)), base);
  }

  // ----- laws of difference -----

  /** The conditions that the difference reports as errors. */
  ghost predicate RemovedAdded(self: Diff, other: Diff, o: Outpoint) {
    o in self.remove && o in other.add &&
    !(other.add[o].daaScore != self.remove[o].daaScore
      && (HasDaa(self.add, o, other.add[o].daaScore) || HasDaa(other.remove, o, self.remove[o].daaScore)))
  }

  ghost predicate AddedRemoved(self: Diff, other: Diff, o: Outpoint) {
    o in self.add && o in other.remove &&
    !(other.remove[o].daaScore != self.add[o].daaScore
      && (HasDaa(self.remove, o, other.remove[o].daaScore) || HasDaa(other.add, o, self.add[o].daaScore)))
  }

  ghost predicate RemovedDifferently(self: Diff, other: Diff, o: Outpoint) {
    o in self.remove && o in other.remove && other.remove[o].daaScore != self.remove[o].daaScore
  }

  ghost predicate Intersects(a: Collection, b: Collection) {
    exists o :: o in a && o in b
  }

  /** Added by both, but removed by only one of them somewhere. */
  ghost predicate BasesDiffer(self: Diff, other: Diff) {
    Intersects(Common(self.add, other.add), self.remove) != Intersects(Common(self.add, other.add), other.remove)
  }

  /** An outpoint at which two diffs cannot be over the same base. */
  ghost predicate Conflict(self: Diff, other: Diff, o: Outpoint) {
    RemovedAdded(self, other, o) || AddedRemoved(self, other, o) || RemovedDifferently(self, other, o)
  }

  ghost predicate DifferenceFails(self: Diff, other: Diff) {
    (exists o :: Conflict(self, other, o)) || BasesDiffer(self, other)
  }

  lemma DifferenceGets(self: Diff, other: Diff, o: Outpoint)
    ensures Get(Difference(self, other).add, o)
            == if o in other.add && !HasDaa(self.add, o, other.add[o].daaScore) then Some(other.add[o])
               else if o in self.remove && !HasDaa(other.remove, o, self.remove[o].daaScore) then Some(self.remove[o])
               else None
    ensures Get(Difference(self, other).remove, o)
            == if o in other.remove && !HasDaa(self.remove, o, other.remove[o].daaScore) then Some(other.remove[o])
               else if o in self.add && !HasDaa(other.add, o, self.add[o].daaScore) then Some(self.add[o])
               else None
  {
  }

  /** Composition at one outpoint: first the removal, then the addition. */
  function RemoveStep(add: Option<Entry>, remove: Option<Entry>, other: Option<Entry>): (Option<Entry>, Option<Entry>) {
    if other.None? then (add, remove)
    else if add.Some? && add.value.daaScore == other.value.daaScore then (None, remove)
    else (add, other)
  }

  lemma ComposedGets(self: Diff, other: Diff, o: Outpoint)
    ensures var (add, remove) := RemoveStep(Get(self.add, o), Get(self.remove, o), Get(other.remove, o));
            var (remove', add') := RemoveStep(remove, add, Get(other.add, o));
            Get(Composed(self, other).add, o) == add' && Get(Composed(self, other).remove, o) == remove'
  {
  }

  lemma SameBase(base: Collection, self: Diff, other: Diff, o: Outpoint)
    requires ValidOver(base, self) && ValidOver(base, other) && Normalised(self) && Normalised(other)
    requires Consistent(self.add, other.add) && Consistent(self.remove, other.add) && Consistent(self.add, other.remove)
    ensures !Conflict(self, other, o)
    ensures o in self.add && o in other.add ==> (o in self.remove <==> o in other.remove)
  {
  }

  lemma DifferenceAt(base: Collection, self: Diff, other: Diff, o: Outpoint)
    requires ValidOver(base, self) && ValidOver(base, other) && Normalised(self) && Normalised(other)
    requires Consistent(self.add, other.add) && Consistent(self.remove, other.add) && Consistent(self.add, other.remove)
    ensures Get(Composed(self, Difference(self, other)).add, o) == Get(other.add, o)
    ensures Get(Composed(self, Difference(self, other)).remove, o) == Get(other.remove, o)
  {
    hide Composed, Difference;
    DifferenceGets(self, other, o);
    ComposedGets(self, Difference(self, other), o);
  }

  /** For diffs over one base the difference exists, and composing with it gives the other diff. */
  lemma DifferenceLaw(base: Collection, self: Diff, other: Diff)
    requires ValidOver(base, self) && ValidOver(base, other) && Normalised(self) && Normalised(other)
    requires Consistent(self.add, other.add) && Consistent(self.remove, other.add) && Consistent(self.add, other.remove)
    ensures !DifferenceFails(self, other)
    ensures Composed(self, Difference(self, other)) == other
  {
    hide Composed, Difference, Conflict;
    var c := Composed(self, Difference(self, other));
    forall o
      ensures !Conflict(self, other, o)
      ensures o in self.add && o in other.add ==> (o in self.remove <==> o in other.remove)
      ensures Get(c.add, o) == Get(other.add, o) && Get(c.remove, o) == Get(other.remove, o)
    {
      SameBase(base, self, other, o);
      DifferenceAt(base, self, other, o);
    }
    SameGets(c.add, other.add);
    SameGets(c.remove, other.remove);
  }

  lemma DifferenceOfComposedAt(base: Collection, self: Diff, other: Diff, o: Outpoint)
    requires ValidOver(base, self) && ValidOver(Applied(base, self), other) && Normalised(self) && Normalised(other)
    requires Consistent(self.remove, other.add) && Consistent(other.remove, other.add)
             && Consistent(self.add, other.add)
    ensures Get(Difference(self, Composed(self, other)).add, o) == Get(other.add, o)
    ensures Get(Difference(self, Composed(self, other)).remove, o) == Get(other.remove, o)
  {
    hide Composed, Difference, Applied;
    AppliedGet(base, self, o);
    ComposedGets(self, other, o);
    DifferenceGets(self, Composed(self, other), o);
  }

  /** The difference to a composition exists, and is what was composed. */
  lemma DifferenceOfComposed(base: Collection, self: Diff, other: Diff)
    requires ValidOver(base, self) && ValidOver(Applied(base, self), other) && Normalised(self) && Normalised(other)
    requires Consistent(self.remove, other.add) && Consistent(other.remove, other.add)
             && Consistent(self.add, other.add)
    ensures !DifferenceFails(self, Composed(self, other))
    ensures Difference(self, Composed(self, other)) == other
  {
    hide Composed, Difference, DifferenceFails;
    var c := Composed(self, other);
    ComposedLaw(base, self, other);
    ComposedNormalised(self, other);
    ComposedConsistent(base, self, other);
    DifferenceLaw(base, self, c);
    var r := Difference(self, c);
    forall o ensures Get(r.add, o) == Get(other.add, o) && Get(r.remove, o) == Get(other.remove, o) {
      DifferenceOfComposedAt(base, self, other, o);
    }
    SameGets(r.add, other.add);
    SameGets(r.remove, other.remove);
  }

  lemma ComposedConsistent(base: Collection, self: Diff, other: Diff)
    requires ValidOver(base, self) && ValidOver(Applied(base, self), other) && Normalised(self)
    requires Consistent(self.remove, other.add) && Consistent(self.add, other.add)
    ensures var c := Composed(self, other);
            Consistent(self.add, c.add) && Consistent(self.remove, c.add) && Consistent(self.add, c.remove)
  {
    hide Composed;
    var c := Composed(self, other);
    forall o | o in c.add
      ensures (o in self.add && c.add[o] == self.add[o]) || (o in other.add && c.add[o] == other.add[o]) {
      ComposedGets(self, other, o);
    }
    forall o | o in c.remove && o in self.add
      ensures (o in self.remove && c.remove[o] == self.remove[o]) || c.remove[o] == self.add[o]
    {
      ComposedGets(self, other, o);
      AppliedGet(base, self, o);
    }
  }
}
