/** UTXO diffs as they are updated in place. */
module UtxoDiffState {
  import opened Options
  import opened UtxoDiffs

  datatype Error =
    | DuplicateRemovePoint(o: Outpoint) | DuplicateAddPoint(o: Outpoint) | DiffIntersectionPoint(o: Outpoint)
    | General | DoubleRemoveCall(o: Outpoint) | DoubleAddCall(o: Outpoint)

  datatype Result<T> = Ok(value: T) | Err(error: Error)

  /** `r` is `c` with those entries of `more` whose outpoint is in `done`. */
  ghost predicate Inserted(c: Collection, more: Collection, done: set<Outpoint>, r: Collection) {
    forall o :: Get(r, o) == if o in done && o in more then Some(more[o]) else Get(c, o)
  }

  lemma InsertedNone(c: Collection, more: Collection)
    ensures Inserted(c, more, {}, c)
  {
  }

  lemma InsertStep(c: Collection, more: Collection, done: set<Outpoint>, r: Collection, o: Outpoint)
    requires Inserted(c, more, done, r) && o !in done
    ensures Inserted(c, more, done + {o}, if o in more then r[o := more[o]] else r)
  {
  }

  lemma InsertedAll(c: Collection, more: Collection, done: set<Outpoint>, r: Collection)
    requires Inserted(c, more, done, r) && more.Keys <= done
    ensures r == c + more
  {
    forall o ensures Get(r, o) == Get(c + more, o) {}
    SameGets(r, c + more);
  }

  /** Adds to `result` the entries of `a` that `b` has with the same DAA score, and to `remainder`
      the other entries of `a`. */
  method IntersectionWithRemainder(a: Collection, b: Collection, result: Collection, remainder: Collection)
    returns (result': Collection, remainder': Collection)
    ensures result' == result + Common(a, b) && remainder' == remainder + Minus(a, b)
  {
    hide Inserted;
    InsertedNone(result, Common(a, b));
    InsertedNone(remainder, Minus(a, b));
    result', remainder' := result, remainder;
    assert a.Keys - a.Keys == {};
    var rest := a.Keys;
    while rest != {}
      invariant rest <= a.Keys
      invariant Inserted(result, Common(a, b), a.Keys - rest, result')
                && Inserted(remainder, Minus(a, b), a.Keys - rest, remainder')
      decreases |rest|
    {
      var o :| o in rest;
      InsertStep(result, Common(a, b), a.Keys - rest, result', o);
      InsertStep(remainder, Minus(a, b), a.Keys - rest, remainder', o);
      if HasDaa(b, o, a[o].daaScore) {
        result' := result'[o := a[o]];
      } else {
        remainder' := remainder'[o := a[o]];
      }
      assert a.Keys - rest + {o} == a.Keys - (rest - {o});
      rest := rest - {o};
    }
    assert a.Keys - rest == a.Keys;
    InsertedAll(result, Common(a, b), a.Keys, result');
    InsertedAll(remainder, Minus(a, b), a.Keys, remainder');
  }

  /** Adds to `result` the entries of `a` that `b` does not have with the same DAA score. */
  method Subtraction(a: Collection, b: Collection, result: Collection) returns (result': Collection)
    ensures result' == result + Minus(a, b)
  {
    result' := result;
    var rest := a.Keys;
    while rest != {}
      invariant rest <= a.Keys && Inserted(result, Minus(a, b), a.Keys - rest, result')
      decreases |rest|
    {
      var o :| o in rest;
      if !HasDaa(b, o, a[o].daaScore) {
        result' := result'[o := a[o]];
      }
      rest := rest - {o};
    }
    InsertedAll(result, Minus(a, b), a.Keys, result');
  }

  /** An outpoint of both collections that satisfies the rule, if there is one. The smaller
      collection is searched. */
  method IntersectsWithRule(a: Collection, b: Collection, rule: (Outpoint, Entry, Entry) -> bool)
    returns (r: Option<Outpoint>)
    ensures r.Some? ==> r.value in a && r.value in b && rule(r.value, a[r.value], b[r.value])
    ensures r.None? ==> forall o :: o in a && o in b ==> !rule(o, a[o], b[o])
  {
    var keys, other := a.Keys, b;
    if |a| > |b| {
      keys, other := b.Keys, a;
    }
    var rest := keys;
    while rest != {}
      invariant rest <= keys
      invariant forall o :: o in keys - rest && o in a && o in b ==> !rule(o, a[o], b[o])
      decreases |rest|
    {
      var o :| o in rest;
      if o in other && rule(o, a[o], b[o]) {
        return Some(o);
      }
      rest := rest - {o};
    }
    r := None;
  }

  method IntersectsAny(a: Collection, b: Collection) returns (r: bool)
    ensures r <==> Intersects(a, b)
  {
    var found := IntersectsWithRule(a, b, (o: Outpoint, x: Entry, y: Entry) => true);
    r := found.Some?;
  }

  method FindConflict(self: Diff, other: Diff) returns (r: Option<Outpoint>)
    ensures r.Some? ==> Conflict(self, other, r.value)
    ensures r.None? ==> forall o :: !Conflict(self, other, o)
  {
    r := IntersectsWithRule(self.remove, other.add, (o: Outpoint, x: Entry, y: Entry) =>
      !(y.daaScore != x.daaScore && (HasDaa(self.add, o, y.daaScore) || HasDaa(other.remove, o, x.daaScore))));
    if r.Some? {
      return;
    }
    r := IntersectsWithRule(self.add, other.remove, (o: Outpoint, x: Entry, y: Entry) =>
      !(y.daaScore != x.daaScore && (HasDaa(self.remove, o, y.daaScore) || HasDaa(other.add, o, x.daaScore))));
    if r.Some? {
      return;
    }
    r := IntersectsWithRule(self.remove, other.remove, (o: Outpoint, x: Entry, y: Entry) => y.daaScore != x.daaScore);
  }

  /** The difference between two diffs over the same base, or an error if they cannot be that. */
  method DiffFrom(self: Diff, other: Diff) returns (r: Result<Diff>)
    ensures r.Err? <==> DifferenceFails(self, other)
    ensures r.Ok? ==> r.value == Difference(self, other)
  {
    hide Common, Minus, Conflict, Intersects;
    var conflict := FindConflict(self, other);
    if conflict.Some? {
      return Err(DiffIntersectionPoint(conflict.value));
    }
    var inBoth, remove := IntersectionWithRemainder(self.add, other.add, map[], map[]);
    Nothing(Common(self.add, other.add));
    Nothing(Minus(self.add, other.add));
    var one := IntersectsAny(inBoth, self.remove);
    var two := IntersectsAny(inBoth, other.remove);
    if one != two {
      return Err(General);
    }
    remove := Subtraction(other.remove, self.remove, remove);
    var add := Subtraction(self.remove, other.remove, map[]);
    Nothing(Minus(self.remove, other.remove));
    add := Subtraction(other.add, self.add, add);
    r := Ok(Diff(add, remove));
  }

  lemma Nothing(c: Collection)
    ensures map[] + c == c
  {
  }

  class UtxoDiff {
    var add: Collection
    var remove: Collection

    constructor (d: Diff)
      ensures Value() == d
    {
      add, remove := d.add, d.remove;
    }

    function Value(): Diff
      reads this
    {
      Diff(add, remove)
    }

    /** Applies `other` after this diff. An outpoint removed or added twice in a row is an error. */
    method WithDiffInPlace(other: Diff) returns (r: Result<()>)
      modifies this
      ensures r.Err? <==> exists o :: DuplicateRemove(old(Value()), other, o) || DuplicateAdd(old(Value()), other, o)
      ensures r.Err? ==> Value() == old(Value())
      ensures r.Ok? ==> Value() == Composed(old(Value()), other)
    {
      hide Common, Minus;
      var add0, remove0 := add, remove;
      var bad := IntersectsWithRule(other.remove, remove,
                                    (o: Outpoint, x: Entry, y: Entry) => !HasDaa(add0, o, x.daaScore));
      if bad.Some? {
        assert DuplicateRemove(Value(), other, bad.value);
        return Err(DuplicateRemovePoint(bad.value));
      }
      bad := IntersectsWithRule(other.add, add,
                                (o: Outpoint, x: Entry, y: Entry) => !HasDaa(other.remove, o, y.daaScore));
      if bad.Some? {
        assert DuplicateAdd(Value(), other, bad.value);
        return Err(DuplicateAddPoint(bad.value));
      }
      var intersection;
      intersection, remove := IntersectionWithRemainder(other.remove, add, map[], remove);
      Nothing(Common(other.remove, add));
      add := add - intersection.Keys;
      var remove1 := remove;
      intersection, add := IntersectionWithRemainder(other.add, remove, map[], add);
      Nothing(Common(other.add, remove1));
      remove := remove - intersection.Keys;
      r := Ok(());
    }

    /** Removes one entry: from the added ones if it is there, else by recording its removal. */
    method RemoveEntry(o: Outpoint, entry: Entry) returns (r: Result<()>)
      modifies this
      ensures r.Err? <==> DuplicateRemove(old(Value()), Diff(map[], map[o := entry]), o)
      ensures r.Err? ==> r.error == DoubleRemoveCall(o) && Value() == old(Value())
      ensures r.Ok? ==> Value() == Composed(old(Value()), Diff(map[], map[o := entry]))
    {
      ghost var before, single := Value(), Diff(map[], map[o := entry]);
      if HasDaa(add, o, entry.daaScore) {
        add := add - {o};
      } else if o !in remove {
        remove := remove[o := entry];
      } else {
        return Err(DoubleRemoveCall(o));
      }
      RemovedOne(before, o, entry);
      r := Ok(());
    }

    /** Adds one entry: by undoing its removal, or as an added one. */
    method AddEntry(o: Outpoint, entry: Entry) returns (r: Result<()>)
      modifies this
      ensures r.Err? <==> o in old(add) && !HasDaa(old(remove), o, entry.daaScore)
      ensures r.Err? ==> r.error == DoubleAddCall(o) && Value() == old(Value())
      ensures r.Ok? ==> Value() == Composed(old(Value()), Diff(map[o := entry], map[]))
    {
      ghost var before := Value();
      if HasDaa(remove, o, entry.daaScore) {
        remove := remove - {o};
      } else if o !in add {
        add := add[o := entry];
      } else {
        return Err(DoubleAddCall(o));
      }
      AddedOne(before, o, entry);
      r := Ok(());
    }
  }

  lemma RemovedOne(d: Diff, o: Outpoint, entry: Entry)
    ensures Composed(d, Diff(map[], map[o := entry]))
            == if HasDaa(d.add, o, entry.daaScore) then Diff(d.add - {o}, d.remove)
              else Diff(d.add, d.remove[o := entry])
  {
    var c := Composed(d, Diff(map[], map[o := entry]));
    var e := if HasDaa(d.add, o, entry.daaScore) then Diff(d.add - {o}, d.remove)
      else Diff(d.add, d.remove[o := entry]);
    hide Composed;
    forall x ensures Get(c.add, x) == Get(e.add, x) && Get(c.remove, x) == Get(e.remove, x) {
      ComposedGets(d, Diff(map[], map[o := entry]), x);
    }
    SameGets(c.add, e.add);
    SameGets(c.remove, e.remove);
  }

  lemma AddedOne(d: Diff, o: Outpoint, entry: Entry)
    ensures Composed(d, Diff(map[o := entry], map[]))
            == if HasDaa(d.remove, o, entry.daaScore) then Diff(d.add, d.remove - {o})
              else Diff(d.add[o := entry], d.remove)
  {
    var c := Composed(d, Diff(map[o := entry], map[]));
    var e := if HasDaa(d.remove, o, entry.daaScore) then Diff(d.add, d.remove - {o})
      else Diff(d.add[o := entry], d.remove);
    hide Composed;
    forall x ensures Get(c.add, x) == Get(e.add, x) && Get(c.remove, x) == Get(e.remove, x) {
      ComposedGets(d, Diff(map[o := entry], map[]), x);
    }
    SameGets(c.add, e.add);
    SameGets(c.remove, e.remove);
  }
}
