/** The UTXO state of a block: which merged transactions it accepts, and what they change. */
module UtxoStates {
  import opened Options
  import opened Limbs
  import opened U3072s
  import opened MuHashes
  import opened UtxoDiffs
  import opened UtxoDiffState
  import opened Transactions

  // ----- one transaction, entry by entry -----

  /** `view` without the first `n` inputs. */
  ghost function SpentFirst(view: Collection, inputs: seq<Outpoint>, n: nat): Collection
    requires n <= |inputs|
  {
    view - (set o | o in inputs[..n])
  }

  /** `view` with the first `n` outputs. */
  ghost function CreatedFirst(view: Collection, tx: Transaction, daaScore: nat, n: nat): Collection
    requires n <= |tx.outputs|
  {
    view + map i | 0 <= i < n :: Outpoint(tx.id, i) := OutputEntry(tx, daaScore, i)
  }

  lemma SpentNext(view: Collection, inputs: seq<Outpoint>, n: nat)
    requires n < |inputs|
    ensures SpentFirst(view, inputs, n + 1) == SpentFirst(view, inputs, n) - {inputs[n]}
  {
    assert inputs[..n + 1] == inputs[..n] + [inputs[n]];
  }

  lemma CreatedNext(view: Collection, tx: Transaction, daaScore: nat, n: nat)
    requires n < |tx.outputs|
    ensures CreatedFirst(view, tx, daaScore, n + 1)
            == CreatedFirst(view, tx, daaScore, n)[Outpoint(tx.id, n) := OutputEntry(tx, daaScore, n)]
  {
  }

  lemma SpendIs(view: Collection, tx: Transaction, daaScore: nat)
    ensures SpentFirst(view, tx.inputs, 0) == view
    ensures CreatedFirst(SpentFirst(view, tx.inputs, |tx.inputs|), tx, daaScore, 0)
            == SpentFirst(view, tx.inputs, |tx.inputs|)
    ensures CreatedFirst(SpentFirst(view, tx.inputs, |tx.inputs|), tx, daaScore, |tx.outputs|)
            == Spend(view, tx, daaScore)
  {
    assert tx.inputs[..|tx.inputs|] == tx.inputs;
  }

  /** Distinct inputs that are all there, and outputs that are not there yet. */
  ghost predicate Spendable(view: Collection, v: Validated) {
    && AllIn(v.tx.inputs, view) && v.entries == Entries(v.tx.inputs, view)
    && (forall m, n :: 0 <= m < n < |v.tx.inputs| ==> v.tx.inputs[m] != v.tx.inputs[n])
    && (forall i :: 0 <= i < |v.tx.outputs| ==> Outpoint(v.tx.id, i) !in view)
  }

  ghost predicate FreshOver(base: Collection, tx: Transaction) {
    forall i :: 0 <= i < |tx.outputs| ==> Outpoint(tx.id, i) !in base
  }

  lemma StillThere(view: Collection, v: Validated, n: nat)
    requires Spendable(view, v) && n < |v.tx.inputs|
    ensures v.tx.inputs[n] in SpentFirst(view, v.tx.inputs, n)
    ensures |v.entries| == |v.tx.inputs| && SpentFirst(view, v.tx.inputs, n)[v.tx.inputs[n]] == v.entries[n]
  {
  }

  lemma StillFree(view: Collection, v: Validated, daaScore: nat, n: nat)
    requires Spendable(view, v) && n < |v.tx.outputs|
    ensures Outpoint(v.tx.id, n) !in CreatedFirst(SpentFirst(view, v.tx.inputs, |v.tx.inputs|), v.tx, daaScore, n)
  {
  }

  lemma RemoveOne(base: Collection, d: Diff, o: Outpoint)
    requires ValidOver(base, d) && o in Applied(base, d)
    ensures var single := Diff(map[], map[o := Applied(base, d)[o]]);
            && !DuplicateRemove(d, single, o) && ValidOver(base, Composed(d, single))
            && Applied(base, Composed(d, single)) == Applied(base, d) - {o}
  {
    hide Composed, DuplicateRemove, DuplicateAdd;
    var single := Diff(map[], map[o := Applied(base, d)[o]]);
    ComposedLaw(base, d, single);
    assert Applied(Applied(base, d), single) == Applied(base, d) - {o};
  }

  lemma AddOne(base: Collection, d: Diff, o: Outpoint, e: Entry)
    requires ValidOver(base, d) && o !in Applied(base, d) && o !in base
    ensures o !in d.add && ValidOver(base, Composed(d, Diff(map[o := e], map[])))
    ensures Applied(base, Composed(d, Diff(map[o := e], map[]))) == Applied(base, d)[o := e]
  {
    hide Composed, DuplicateRemove, DuplicateAdd;
    var single := Diff(map[o := e], map[]);
    AppliedGet(base, d, o);
    ComposedLaw(base, d, single);
    assert Applied(Applied(base, d), single) == Applied(base, d)[o := e];
  }

  /** Adds a validated transaction to a diff over `base`. It succeeds, and the diff shows the
      transaction's effect, if the transaction is spendable in the view that the diff shows. */
  method AddTransaction(d: UtxoDiff, v: Validated, daaScore: nat, ghost base: Collection)
    returns (r: UtxoDiffState.Result<()>)
    requires |v.entries| == |v.tx.inputs|
    modifies d
    ensures old(ValidOver(base, d.Value()) && Spendable(Applied(base, d.Value()), v) && FreshOver(base, v.tx)) ==>
              r.Ok? && ValidOver(base, d.Value())
                && Applied(base, d.Value()) == Spend(old(Applied(base, d.Value())), v.tx, daaScore)
  {
    hide ValidOver, Composed, DuplicateRemove, Spendable, Applied, SpentFirst, CreatedFirst, Spend, HasDaa;
    ghost var ok := ValidOver(base, d.Value()) && Spendable(Applied(base, d.Value()), v) && FreshOver(base, v.tx);
    ghost var view := Applied(base, d.Value());
    SpendIs(view, v.tx, daaScore);
    for n := 0 to |v.tx.inputs|
      invariant ok ==> ValidOver(base, d.Value()) && Applied(base, d.Value()) == SpentFirst(view, v.tx.inputs, n)
    {
      if ok {
        StillThere(view, v, n);
        RemoveOne(base, d.Value(), v.tx.inputs[n]);
        SpentNext(view, v.tx.inputs, n);
      }
      var removed := d.RemoveEntry(v.tx.inputs[n], v.entries[n]);
      if removed.Err? {
        return removed;
      }
    }
    ghost var spent := SpentFirst(view, v.tx.inputs, |v.tx.inputs|);
    for i := 0 to |v.tx.outputs|
      invariant ok ==> ValidOver(base, d.Value()) && Applied(base, d.Value()) == CreatedFirst(spent, v.tx, daaScore, i)
    {
      if ok {
        StillFree(view, v, daaScore, i);
        AddOne(base, d.Value(), Outpoint(v.tx.id, i), OutputEntry(v.tx, daaScore, i));
        CreatedNext(spent, v.tx, daaScore, i);
      }
      var added := d.AddEntry(Outpoint(v.tx.id, i), OutputEntry(v.tx, daaScore, i));
      if added.Err? {
        return added;
      }
    }
    r := Ok(());
  }

  // ----- the multiset of UTXOs -----

  type Utxo = (Outpoint, Entry)

  /** How often the view holds a UTXO: once or never. */
  function Count(view: Collection, u: Utxo): nat {
    if u.0 in view && view[u.0] == u.1 then 1 else 0
  }

  /** What was added and not removed is exactly the view. */
  ghost predicate Balanced(added: multiset<Utxo>, removed: multiset<Utxo>, view: Collection) {
    forall u: Utxo :: added[u] == removed[u] + Count(view, u)
  }

  lemma BalancedAdded(added: multiset<Utxo>, removed: multiset<Utxo>, view: Collection, o: Outpoint, e: Entry)
    requires Balanced(added, removed, view) && o !in view
    ensures Balanced(added + multiset{(o, e)}, removed, view[o := e])
  {
    forall u: Utxo ensures (added + multiset{(o, e)})[u] == removed[u] + Count(view[o := e], u) {
      assert added[u] == removed[u] + Count(view, u) && u == (u.0, u.1);
    }
  }

  lemma BalancedRemoved(added: multiset<Utxo>, removed: multiset<Utxo>, view: Collection, o: Outpoint)
    requires Balanced(added, removed, view) && o in view
    ensures Balanced(added, removed + multiset{(o, view[o])}, view - {o})
  {
    forall u: Utxo ensures added[u] == (removed + multiset{(o, view[o])})[u] + Count(view - {o}, u) {
      assert added[u] == removed[u] + Count(view, u) && u == (u.0, u.1);
    }
  }

  lemma InputBalanced(added: multiset<Utxo>, removed: multiset<Utxo>, view: Collection, v: Validated, n: nat)
    requires Spendable(view, v) && n < |v.tx.inputs| && |v.entries| == |v.tx.inputs|
    requires Balanced(added, removed, SpentFirst(view, v.tx.inputs, n))
    ensures Balanced(added, removed + multiset{(v.tx.inputs[n], v.entries[n])}, SpentFirst(view, v.tx.inputs, n + 1))
  {
    hide *;
    StillThere(view, v, n);
    SpentNext(view, v.tx.inputs, n);
    BalancedRemoved(added, removed, SpentFirst(view, v.tx.inputs, n), v.tx.inputs[n]);
  }

  lemma OutputBalanced(added: multiset<Utxo>, removed: multiset<Utxo>, view: Collection, v: Validated, daaScore: nat,
                       i: nat)
    requires Spendable(view, v) && i < |v.tx.outputs|
    requires Balanced(added, removed, CreatedFirst(SpentFirst(view, v.tx.inputs, |v.tx.inputs|), v.tx, daaScore, i))
    ensures Balanced(added + multiset{(Outpoint(v.tx.id, i), OutputEntry(v.tx, daaScore, i))}, removed,
                     CreatedFirst(SpentFirst(view, v.tx.inputs, |v.tx.inputs|), v.tx, daaScore, i + 1))
  {
    hide *;
    var spent := SpentFirst(view, v.tx.inputs, |v.tx.inputs|);
    StillFree(view, v, daaScore, i);
    CreatedNext(spent, v.tx, daaScore, i);
    BalancedAdded(added, removed, CreatedFirst(spent, v.tx, daaScore, i), Outpoint(v.tx.id, i),
                  OutputEntry(v.tx, daaScore, i));
  }

  // ----- the multiset hash of a UTXO set -----

  /** The element that a UTXO is hashed to. */
  type ElementOf = Utxo -> Element

  ghost predicate Hashable(el: ElementOf, n: nat) {
    2 <= n <= MAX_LIMBS && forall u: Utxo :: |el(u)| == n && Invertible(Val(el(u)), Modulus(n))
  }

  ghost function ElementsOf(us: seq<Utxo>, el: ElementOf): seq<Element> {
    seq(|us|, i requires 0 <= i < |us| => el(us[i]))
  }

  lemma ElementsAppend(us: seq<Utxo>, u: Utxo, el: ElementOf)
    ensures ElementsOf(us + [u], el) == ElementsOf(us, el) + [el(u)]
  {
  }

  lemma ElementsConcat(us: seq<Utxo>, vs: seq<Utxo>, el: ElementOf)
    ensures ElementsOf(us + vs, el) == ElementsOf(us, el) + ElementsOf(vs, el)
  {
  }

  lemma ElementsInvertible(us: seq<Utxo>, el: ElementOf, n: nat)
    requires Hashable(el, n)
    ensures AllInvertible(ElementsOf(us, el), Modulus(n))
  {
    hide Invertible, Modulus;
  }

  /** The same UTXOs in another order are hashed to the same elements in another order. */
  lemma {:induction false} SameElements(us: seq<Utxo>, vs: seq<Utxo>, el: ElementOf)
    requires multiset(us) == multiset(vs)
    ensures multiset(ElementsOf(us, el)) == multiset(ElementsOf(vs, el))
    decreases |us|
  {
    if us == [] {
      assert |multiset(vs)| == 0;
      assert vs == [];
    } else {
      var n, u := |us| - 1, us[|us| - 1];
      assert us == us[..n] + [u];
      assert u in multiset(vs);
      var i :| 0 <= i < |vs| && vs[i] == u;
      var rest := vs[..i] + vs[i + 1..];
      assert vs == vs[..i] + [u] + vs[i + 1..];
      assert multiset(rest) == multiset(vs) - multiset{u} == multiset(us[..n]);
      SameElements(us[..n], rest, el);
      MovedToEnd(us[..n], vs[..i], u, vs[i + 1..], el);
    }
  }

  lemma MovedToEnd(us: seq<Utxo>, before: seq<Utxo>, u: Utxo, after: seq<Utxo>, el: ElementOf)
    requires multiset(ElementsOf(us, el)) == multiset(ElementsOf(before + after, el))
    ensures multiset(ElementsOf(us + [u], el)) == multiset(ElementsOf(before + [u] + after, el))
  {
    hide ElementsOf;
    ElementsAppend(us, u, el);
    ElementsAppend(before, u, el);
    ElementsConcat(before, after, el);
    ElementsConcat(before + [u], after, el);
  }

  ghost function Pick(view: Collection): (o: Outpoint)
    requires view != map[]
    ensures o in view
  {
    assert view.Keys != {};
    var o :| o in view;
    o
  }

  /** The UTXOs of a view, each once, in some order. */
  ghost function Listing(view: Collection): seq<Utxo> {
    if view == map[] then []
    else
      var o := Pick(view);
      Smaller(view, o);
      Listing(view - {o}) + [(o, view[o])]
  }

  lemma Smaller(view: Collection, o: Outpoint)
    requires o in view
    ensures |view - {o}| < |view|
  {
    assert (view - {o}).Keys == view.Keys - {o};
    assert |view - {o}| == |(view - {o}).Keys| && |view| == |view.Keys|;
  }

  lemma {:induction false} ListingCounts(view: Collection, u: Utxo)
    ensures multiset(Listing(view))[u] == Count(view, u)
    decreases |view|
  {
    if view != map[] {
      var o := Pick(view);
      Smaller(view, o);
      ListingCounts(view - {o}, u);
      assert u == (u.0, u.1);
    }
  }

  /** The product over exactly the entries of a view. */
  ghost function ViewProduct(view: Collection, el: ElementOf): nat {
    Product(ElementsOf(Listing(view), el))
  }

  /** `r` holds the limbs of the product over the entries of the view. */
  ghost predicate HashesTo(r: Element, view: Collection, el: ElementOf, n: nat) {
    n >= 2 && |r| == n && Val(r) < Modulus(n) && Congruent(Val(r), ViewProduct(view, el), Modulus(n))
  }

  /** A view has one hash. */
  lemma HashUnique(r: Element, r': Element, view: Collection, el: ElementOf, n: nat)
    requires HashesTo(r, view, el, n) && HashesTo(r', view, el, n)
    ensures r == r'
  {
    hide Congruent, Modulus, ViewProduct, Val;
    var m := Modulus(n);
    CongruentSym(Val(r'), ViewProduct(view, el), m);
    CongruentTrans(Val(r), ViewProduct(view, el), Val(r'), m);
    CongruentUnique(Val(r), Val(r'), m);
    ValInjective(r, r');
  }

  lemma BalancedIs(added: seq<Utxo>, removed: seq<Utxo>, view: Collection)
    requires Balanced(multiset(added), multiset(removed), view)
    ensures multiset(added) == multiset(removed + Listing(view))
  {
    hide Listing;
    forall u: Utxo ensures multiset(added)[u] == multiset(removed + Listing(view))[u] {
      ListingCounts(view, u);
    }
  }

  /** What was added and removed comes down to the entries of the view. */
  lemma BalancedHash(r: int, added: seq<Utxo>, removed: seq<Utxo>, view: Collection, el: ElementOf, n: nat)
    requires Hashable(el, n) && Balanced(multiset(added), multiset(removed), view)
    requires Congruent(r * Product(ElementsOf(removed, el)), Product(ElementsOf(added, el)), Modulus(n))
    ensures Congruent(r, ViewProduct(view, el), Modulus(n))
  {
    hide Congruent, Modulus, Product, ElementsOf, Listing, AllInvertible, Balanced, Hashable;
    BalancedIs(added, removed, view);
    SameElements(added, removed + Listing(view), el);
    ElementsConcat(removed, Listing(view), el);
    ElementsInvertible(removed, el, n);
    OnlyTheRest(r, ElementsOf(added, el), ElementsOf(removed, el), ElementsOf(Listing(view), el), Modulus(n));
  }

  lemma EmptyProduct(el: ElementOf)
    ensures ViewProduct(map[], el) == 1
  {
  }

  /** The hash has multiplied in and divided out exactly these UTXOs. */
  ghost predicate Tracks(mu: MuHash, el: ElementOf, added: seq<Utxo>, removed: seq<Utxo>)
    reads mu, mu.numerator, mu.denominator
  {
    mu.Valid() && mu.added == ElementsOf(added, el) && mu.removed == ElementsOf(removed, el)
  }

  /** Divides out the inputs and multiplies in the outputs of a transaction. */
  method AddTransactionToMultiset(mu: MuHash, el: ElementOf, v: Validated, daaScore: nat,
                                  ghost added0: seq<Utxo>, ghost removed0: seq<Utxo>, ghost view: Collection)
    returns (ghost added: seq<Utxo>, ghost removed: seq<Utxo>)
    requires |v.entries| == |v.tx.inputs| && Hashable(el, mu.n) && Tracks(mu, el, added0, removed0)
    modifies mu, mu.numerator, mu.denominator
    ensures Tracks(mu, el, added, removed)
    ensures Balanced(multiset(added0), multiset(removed0), view) && Spendable(view, v) ==>
              Balanced(multiset(added), multiset(removed), Spend(view, v.tx, daaScore))
  {
    hide Spendable, SpentFirst, CreatedFirst, Spend, Balanced, OutputEntry, ElementsOf, MuHash.Valid;
    added, removed := added0, removed0;
    ghost var ok := Balanced(multiset(added0), multiset(removed0), view) && Spendable(view, v);
    SpendIs(view, v.tx, daaScore);
    for n := 0 to |v.tx.inputs|
      invariant Tracks(mu, el, added, removed) && added == added0
      invariant ok ==> Balanced(multiset(added), multiset(removed), SpentFirst(view, v.tx.inputs, n))
    {
      var u := (v.tx.inputs[n], v.entries[n]);
      if ok { InputBalanced(multiset(added), multiset(removed), view, v, n); }
      ElementsAppend(removed, u, el);
      mu.RemoveElement(el(u));
      removed := removed + [u];
    }
    ghost var spent := SpentFirst(view, v.tx.inputs, |v.tx.inputs|);
    for i := 0 to |v.tx.outputs|
      invariant Tracks(mu, el, added, removed)
      invariant ok ==> Balanced(multiset(added), multiset(removed), CreatedFirst(spent, v.tx, daaScore, i))
    {
      var u := (Outpoint(v.tx.id, i), OutputEntry(v.tx, daaScore, i));
      if ok { OutputBalanced(multiset(added), multiset(removed), view, v, daaScore, i); }
      ElementsAppend(added, u, el);
      mu.AddElement(el(u));
      added := added + [u];
    }
  }

  // ----- why nothing is created twice -----

  /** The transaction that an id stands for: ids are hashes without collisions. */
  type Ids = nat -> Transaction

  /** Every entry is the output, at some DAA score, that its outpoint names. */
  ghost predicate Coherent(c: Collection, ids: Ids) {
    forall o :: o in c ==>
      && o.index < |ids(o.transactionId).outputs|
      && c[o] == OutputEntry(ids(o.transactionId), c[o].daaScore, o.index)
  }

  ghost predicate CoherentDiff(d: Diff, ids: Ids) {
    Coherent(d.add, ids) && Coherent(d.remove, ids)
  }

  /** A diff between coherent sets is coherent. */
  lemma DiffCoherent(base: Collection, d: Diff, ids: Ids)
    requires ValidOver(base, d) && Coherent(base, ids) && Coherent(Applied(base, d), ids)
    ensures CoherentDiff(d, ids)
  {
    forall o | o in d.add ensures o in Applied(base, d) && Applied(base, d)[o] == d.add[o] {}
  }

  /** Every UTXO is an output of an accepted transaction, and what accepted transactions spent were
      outputs of accepted transactions, which are gone. */
  ghost predicate Ledger(view: Collection, accepted: set<nat>, ids: Ids) {
    && Coherent(view, ids)
    && (forall o :: o in view ==> o.transactionId in accepted)
    && (forall t, m :: t in accepted && 0 <= m < |ids(t).inputs| ==>
          ids(t).inputs[m] !in view && ids(t).inputs[m].transactionId in accepted)
  }

  /** A transaction whose inputs are all unspent was not accepted before. */
  lemma LedgerFresh(view: Collection, accepted: set<nat>, ids: Ids, tx: Transaction)
    requires Ledger(view, accepted, ids) && AllIn(tx.inputs, view) && tx.inputs != [] && ids(tx.id) == tx
    ensures tx.id !in accepted
  {
    assert tx.inputs[0] in view;
  }

  lemma SpendCoherent(view: Collection, ids: Ids, tx: Transaction, daaScore: nat)
    requires Coherent(view, ids) && ids(tx.id) == tx
    ensures Coherent(Spend(view, tx, daaScore), ids)
  {
  }

  lemma LedgerSpend(view: Collection, accepted: set<nat>, ids: Ids, tx: Transaction, daaScore: nat)
    requires Ledger(view, accepted, ids) && AllIn(tx.inputs, view) && tx.id !in accepted && ids(tx.id) == tx
    ensures Ledger(Spend(view, tx, daaScore), accepted + {tx.id}, ids)
  {
    SpendCoherent(view, ids, tx, daaScore);
    var view', accepted' := Spend(view, tx, daaScore), accepted + {tx.id};
    forall o | o in view' ensures o.transactionId in accepted' {
      SpendGet(view, tx, daaScore, o);
      if !CreatedBy(tx, o) { assert o in view; }
    }
    hide Spend, Coherent;
    forall t, m | t in accepted' && 0 <= m < |ids(t).inputs|
      ensures ids(t).inputs[m] !in view' && ids(t).inputs[m].transactionId in accepted'
    {
      var o := ids(t).inputs[m];
      assert o.transactionId in accepted;
      SpendGet(view, tx, daaScore, o);
      assert o !in tx.inputs ==> Get(view, o) == None;
    }
  }

  // ----- accepting the transactions of merged blocks -----

  /** Each accepted transaction is valid in the view that the accepted ones before it left. */
  lemma {:induction false} SequentialStep(check: Check, view: Collection, txs: seq<Transaction>, daaScore: nat, n: nat,
                                          a: nat)
    requires n <= |txs| && a < |Sequential(check, view, txs[..n], daaScore)|
    ensures var s := Sequential(check, view, txs[..n], daaScore);
            Validate(check, SpendAll(view, s[..a], daaScore), s[a].tx, daaScore) == Some(s[a])
  {
    assert txs[..n][..n - 1] == txs[..n - 1];
    var elder := Sequential(check, view, txs[..n - 1], daaScore);
    var s := Sequential(check, view, txs[..n], daaScore);
    if a < |elder| {
      SequentialStep(check, view, txs, daaScore, n - 1, a);
      assert s[..a] == elder[..a];
    } else {
      assert s[..a] == elder;
    }
  }

  ghost function AfterBlock(check: Check, view: Collection, txs: seq<Transaction>, daaScore: nat): Collection
    requires txs != []
  {
    SpendAll(view, Sequential(check, view, txs[1..], daaScore), daaScore)
  }

  /** The UTXO set after the blocks, each transaction validated in turn. */
  ghost function AfterBlocks(check: Check, view: Collection, blocks: seq<seq<Transaction>>, daaScore: nat): Collection
    requires forall b :: 0 <= b < |blocks| ==> blocks[b] != []
  {
    if blocks == [] then view
    else AfterBlock(check, AfterBlocks(check, view, blocks[..|blocks| - 1], daaScore), blocks[|blocks| - 1], daaScore)
  }

  /** The ids of accepted transactions, in order. */
  ghost function IdsOf(vs: seq<Validated>): seq<nat> {
    seq(|vs|, i requires 0 <= i < |vs| => vs[i].tx.id)
  }

  /** What is accepted from each of the blocks, validated one transaction after the other. */
  ghost function AcceptedFrom(check: Check, view: Collection, blocks: seq<seq<Transaction>>,
                              daaScore: nat): seq<Validated>
    requires forall b :: 0 <= b < |blocks| ==> blocks[b] != []
  {
    if blocks == [] then []
    else
      var elder, last := blocks[..|blocks| - 1], blocks[|blocks| - 1];
      AcceptedFrom(check, view, elder, daaScore)
        + Sequential(check, AfterBlocks(check, view, elder, daaScore), last[1..], daaScore)
  }

  /** The fees of each of the blocks. */
  ghost function FeesOf(check: Check, view: Collection, blocks: seq<seq<Transaction>>, daaScore: nat): seq<nat>
    requires forall b :: 0 <= b < |blocks| ==> blocks[b] != []
  {
    if blocks == [] then []
    else
      var elder, last := blocks[..|blocks| - 1], blocks[|blocks| - 1];
      FeesOf(check, view, elder, daaScore)
      + [SumFees(Sequential(check, AfterBlocks(check, view, elder, daaScore), last[1..], daaScore))]
  }

  /** A body that passed the checks in isolation: a coinbase without inputs first, then independent
      transactions that have inputs. */
  ghost predicate SoundBody(txs: seq<Transaction>, ids: Ids) {
    && txs != [] && NoDoubleSpends(txs) && NoChaining(txs) && txs[0].inputs == []
    && (forall i :: 0 <= i < |txs| ==> ids(txs[i].id) == txs[i])
    && (forall i :: 1 <= i < |txs| ==> txs[i].inputs != [])
  }

  lemma SubBody(txs: seq<Transaction>)
    requires txs != [] && NoDoubleSpends(txs) && NoChaining(txs)
    ensures NoDoubleSpends(txs[1..]) && NoChaining(txs[1..])
  {
    var rest := txs[1..];
    forall i, j, m, n | 0 <= i < |rest| && 0 <= j < |rest| && 0 <= m < |rest[i].inputs| && 0 <= n < |rest[j].inputs|
      && rest[i].inputs[m] == rest[j].inputs[n]
      ensures i == j && m == n
    {
      assert rest[i] == txs[i + 1] && rest[j] == txs[j + 1];
    }
    forall i, j, m | 0 <= i < |rest| && 0 <= j < |rest| && 0 <= m < |rest[i].inputs|
      ensures !CreatedBy(rest[j], rest[i].inputs[m]) {
      assert rest[i] == txs[i + 1] && rest[j] == txs[j + 1];
    }
  }

  /** An accepted transaction is spendable and new. */
  lemma AcceptedSpendable(check: Check, base: Collection, view: Collection, txs: seq<Transaction>, daaScore: nat,
                          ids: Ids, accepted0: set<nat>, accepted: set<nat>, a: nat)
    requires SoundBody(txs, ids) && Ledger(base, accepted0, ids) && accepted0 <= accepted
    requires var s := Sequential(check, view, txs[1..], daaScore);
             a < |s| && Ledger(SpendAll(view, s[..a], daaScore), accepted, ids)
    ensures var s := Sequential(check, view, txs[1..], daaScore);
            && |s[a].entries| == |s[a].tx.inputs| && s[a].tx.id !in accepted && ids(s[a].tx.id) == s[a].tx
            && Spendable(SpendAll(view, s[..a], daaScore), s[a]) && FreshOver(base, s[a].tx)
            && AllIn(s[a].tx.inputs, SpendAll(view, s[..a], daaScore)) && s[a].tx.inputs != []
  {
    hide Coherent;
    var body := txs[1..];
    var s := Sequential(check, view, body, daaScore);
    assert body[..|body|] == body;
    SequentialStep(check, view, body, daaScore, |body|, a);
    SequentialAmong(check, view, body, daaScore, |body|);
    assert exists i :: 0 <= i < |body| && body[i] == s[a].tx;
    var i :| 0 <= i < |body| && body[i] == s[a].tx;
    assert body[i] == txs[i + 1];
    LedgerFresh(SpendAll(view, s[..a], daaScore), accepted, ids, s[a].tx);
    FromLedger(SpendAll(view, s[..a], daaScore), accepted, ids, s[a].tx);
    FromLedger(base, accepted0, ids, s[a].tx);
  }

  lemma FromLedger(view: Collection, accepted: set<nat>, ids: Ids, tx: Transaction)
    requires Ledger(view, accepted, ids) && tx.id !in accepted
    ensures FreshOver(view, tx)
  {
    hide Coherent;
  }

  /** What is fixed while a block's UTXO state is calculated: the view of its selected parent, the
      transactions accepted up to there, and which transaction an id stands for. */
  datatype Known = Known(base: Collection, accepted: set<nat>, ids: Ids)

  /** Diff, multiset and accepted transactions all describe `view`. */
  ghost predicate Describes(known: Known, d: Diff, added: seq<Utxo>, removed: seq<Utxo>, view: Collection,
                            accepted: set<nat>)
  {
    && ValidOver(known.base, d) && Applied(known.base, d) == view
    && Balanced(multiset(added), multiset(removed), view)
    && Ledger(view, accepted, known.ids) && Ledger(known.base, known.accepted, known.ids) && known.accepted <= accepted
  }

  /** Beside what was accepted before, only this transaction has no inputs. */
  ghost predicate NoOtherCoinbase(accepted0: set<nat>, accepted: set<nat>, coinbase: nat, ids: Ids) {
    forall t :: t in accepted ==> t in accepted0 || t == coinbase || ids(t).inputs != []
  }

  /** The context of calculating a block's UTXO state. */
  class UtxoProcessingContext {
    const mergesetDiff: UtxoDiff
    const multisetHash: MuHash
    const element: ElementOf
    var acceptedTxIds: seq<nat>
    /** The fees of the merged blocks so far. */
    var blockFees: seq<nat>
    /** The UTXOs multiplied into and divided out of the multiset hash. */
    ghost var added: seq<Utxo>
    ghost var removed: seq<Utxo>

    /** Starts from the stored multiset hash of the selected parent. */
    constructor (element: ElementOf, selectedParentMultiset: Element, ghost known: Known)
      requires Hashable(element, |selectedParentMultiset|)
      requires HashesTo(selectedParentMultiset, known.base, element, |selectedParentMultiset|)
      requires Ledger(known.base, known.accepted, known.ids)
      ensures fresh(mergesetDiff) && fresh(multisetHash) && fresh(multisetHash.numerator)
              && fresh(multisetHash.denominator)
      ensures this.element == element && multisetHash.n == |selectedParentMultiset|
      ensures acceptedTxIds == [] && blockFees == [] && Shows(known, known.base, known.accepted)
    {
      mergesetDiff := new UtxoDiff(Diff(map[], map[]));
      multisetHash := new MuHash.Load(selectedParentMultiset, ElementsOf(Listing(known.base), element));
      this.element := element;
      acceptedTxIds, blockFees := [], [];
      added, removed := Listing(known.base), [];
      new;
      NothingChanged(known);
      hide Listing, Hashable, Ledger, Describes, MuHash.Valid;
      assert ElementsOf([], element) == [];
    }

    ghost predicate Shows(known: Known, view: Collection, accepted: set<nat>)
      reads this`acceptedTxIds, this`added, this`removed
      reads mergesetDiff, multisetHash, multisetHash.numerator, multisetHash.denominator
    {
      && Describes(known, mergesetDiff.Value(), added, removed, view, accepted)
      && Hashable(element, multisetHash.n) && Tracks(multisetHash, element, added, removed)
      && accepted == known.accepted + (set t | t in acceptedTxIds)
    }

    /** Adds one accepted transaction to diff, multiset and list. Adding to the diff cannot fail. */
    method Accept(v: Validated, daaScore: nat, ghost known: Known, ghost view: Collection, ghost accepted: set<nat>)
      requires Shows(known, view, accepted) && Acceptable(known, view, accepted, v)
      modifies this`acceptedTxIds, this`added, this`removed
      modifies mergesetDiff, multisetHash, multisetHash.numerator, multisetHash.denominator
      ensures Shows(known, Spend(view, v.tx, daaScore), accepted + {v.tx.id})
      ensures acceptedTxIds == old(acceptedTxIds) + [v.tx.id]
    {
      hide Spendable, FreshOver, Spend, ValidOver, Applied, Balanced, Ledger, Tracks, Hashable;
      var applied := AddTransaction(mergesetDiff, v, daaScore, known.base);
      assert applied.Ok?;
      added, removed := AddTransactionToMultiset(multisetHash, element, v, daaScore, added, removed, view);
      LedgerSpend(view, accepted, known.ids, v.tx, daaScore);
      acceptedTxIds := acceptedTxIds + [v.tx.id];
      assert (set t | t in acceptedTxIds) == (set t | t in old(acceptedTxIds)) + {v.tx.id};
    }

    /** Validates the transactions of a merged block against one view and accepts the valid ones. */
    method AcceptBlock(check: Check, base: Collection, txs: seq<Transaction>, daaScore: nat, ghost known: Known,
                       ghost view: Collection,
                       ghost accepted: set<nat>)
      returns (ghost accepted': set<nat>)
      requires Shows(known, view, accepted) && known.base == base && SoundBody(txs, known.ids) && txs != []
      modifies this`acceptedTxIds, this`blockFees, this`added, this`removed
      modifies mergesetDiff, multisetHash, multisetHash.numerator, multisetHash.denominator
      ensures Shows(known, AfterBlock(check, view, txs, daaScore), accepted')
      ensures forall t :: t in accepted' ==> t in accepted || known.ids(t).inputs != []
      ensures blockFees == old(blockFees) + [SumFees(Sequential(check, view, txs[1..], daaScore))]
      ensures acceptedTxIds == old(acceptedTxIds) + IdsOf(Sequential(check, view, txs[1..], daaScore))
    {
      hide *;
      BodyParallel(check, view, txs, daaScore, known.ids);
      ShowsView(this, known, view, accepted);
      var validated := ValidateTransactionsInParallel(check, base, mergesetDiff.Value(), txs, daaScore);
      accepted' := accepted;
      var blockFee := 0;
      NothingAccepted(view, validated, daaScore);
      assert old(acceptedTxIds) + [] == old(acceptedTxIds);
      for a := 0 to |validated|
        invariant Shows(known, SpendAll(view, validated[..a], daaScore), accepted')
        invariant forall t :: t in accepted' ==> t in accepted || known.ids(t).inputs != []
        invariant blockFee == SumFees(validated[..a]) && blockFees == old(blockFees)
        invariant acceptedTxIds == old(acceptedTxIds) + IdsOf(validated[..a])
      {
        NextAcceptable(check, this, known, view, txs, daaScore, accepted', a);
        SpendNext(view, validated, daaScore, a);
        IdsNext(validated, a);
        Accept(validated[a], daaScore, known, SpendAll(view, validated[..a], daaScore), accepted');
        accepted' := accepted' + {validated[a].tx.id};
        blockFee := blockFee + validated[a].fee;
      }
      assert validated[..|validated|] == validated;
      AfterBlockIs(check, view, txs, daaScore);
      blockFees := blockFees + [blockFee];
    }

    /** Accepts the selected parent's coinbase, then the transactions of the merged blocks, the
        selected parent first. Nothing fails; the diff is valid over the selected parent's view
        and shows what validating one transaction after the other leads to; the multiset hash
        stays the product over exactly the UTXOs of the view. */
    method CalculateUtxoState(check: Check, base: Collection, blocks: seq<seq<Transaction>>, daaScore: nat,
                              ghost known: Known)
      returns (ghost accepted: set<nat>)
      requires known.base == base && Shows(known, base, known.accepted) && blocks != []
      requires forall b :: 0 <= b < |blocks| ==> SoundBody(blocks[b], known.ids) && blocks[b] != []
      requires blocks[0][0].id !in known.accepted
      modifies this`acceptedTxIds, this`blockFees, this`added, this`removed
      modifies mergesetDiff, multisetHash, multisetHash.numerator, multisetHash.denominator
      ensures Shows(known, AfterBlocks(check, Spend(base, blocks[0][0], daaScore), blocks, daaScore), accepted)
      ensures CoherentDiff(mergesetDiff.Value(), known.ids)
      ensures NoOtherCoinbase(known.accepted, accepted, blocks[0][0].id, known.ids)
      ensures var start := Spend(base, blocks[0][0], daaScore);
              && blockFees == old(blockFees) + FeesOf(check, start, blocks, daaScore)
              && acceptedTxIds
              == old(acceptedTxIds) + [blocks[0][0].id] + IdsOf(AcceptedFrom(check, start, blocks, daaScore))
    {
      hide *;
      var coinbase := blocks[0][0];
      CoinbaseAcceptable(this, known, blocks[0]);
      Accept(Validated(coinbase, [], 0), daaScore, known, base, known.accepted);
      accepted := known.accepted + {coinbase.id};
      ghost var start := Spend(base, coinbase, daaScore);
      NoBlocks(check, start, blocks, daaScore);
      ghost var ids, fees := acceptedTxIds, blockFees;
      assert ids + [] == ids && fees + [] == fees;
      for b := 0 to |blocks|
        invariant Shows(known, AfterBlocks(check, start, blocks[..b], daaScore), accepted)
        invariant forall t :: t in accepted ==> t in known.accepted || t == coinbase.id || known.ids(t).inputs != []
        invariant blockFees == fees + FeesOf(check, start, blocks[..b], daaScore)
        invariant acceptedTxIds == ids + IdsOf(AcceptedFrom(check, start, blocks[..b], daaScore))
      {
        ghost var view := AfterBlocks(check, start, blocks[..b], daaScore);
        accepted := AcceptBlock(check, base, blocks[b], daaScore, known, view, accepted);
        NextBlock(check, start, blocks, daaScore, b);
        NextFees(check, start, blocks, daaScore, b, fees);
        NextIds(check, start, blocks, daaScore, b, ids);
      }
      assert blocks[..|blocks|] == blocks;
      ShowsCoherent(this, known, AfterBlocks(check, start, blocks, daaScore), accepted);
      NoOther(known.accepted, accepted, coinbase.id, known.ids);
    }

    /** The limbs of the multiset hash: the product over exactly the entries of the view. */
    method UtxoCommitment(inverse: ModInverse, ghost known: Known, ghost view: Collection, ghost accepted: set<nat>)
      returns (r: Element)
      requires Shows(known, view, accepted) && InvertsRight(inverse, multisetHash.n)
      modifies multisetHash.numerator, multisetHash.denominator
      ensures HashesTo(r, view, element, multisetHash.n) && Shows(known, view, accepted)
    {
      hide Congruent, Modulus, Product, ElementsOf, Listing, Balanced, Hashable, InvertsRight, ViewProduct,
           AllInvertible, MuHash.Valid,
           ValidOver, Applied, Ledger;
      ElementsInvertible(removed, element, multisetHash.n);
      HashableSize(element, multisetHash.n);
      r := multisetHash.Serialize(inverse);
      BalancedHash(Val(r), added, removed, view, element, multisetHash.n);
    }
  }

  lemma HashableSize(el: ElementOf, n: nat)
    requires Hashable(el, n)
    ensures 2 <= n <= MAX_LIMBS
  {
  }

  lemma NothingChanged(known: Known)
    requires Ledger(known.base, known.accepted, known.ids)
    ensures Describes(known, Diff(map[], map[]), Listing(known.base), [], known.base, known.accepted)
  {
    hide Ledger, Listing;
    assert Applied(known.base, Diff(map[], map[])) == known.base;
    forall u: Utxo ensures multiset(Listing(known.base))[u] == multiset([])[u] + Count(known.base, u) {
      ListingCounts(known.base, u);
    }
  }

  lemma ShowsCoherent(ctx: UtxoProcessingContext, known: Known, view: Collection, accepted: set<nat>)
    requires ctx.Shows(known, view, accepted)
    ensures CoherentDiff(ctx.mergesetDiff.Value(), known.ids)
  {
    hide Coherent, ValidOver, Applied, Balanced, Tracks;
    DiffCoherent(known.base, ctx.mergesetDiff.Value(), known.ids);
  }

  lemma NoOther(accepted0: set<nat>, accepted: set<nat>, coinbase: nat, ids: Ids)
    requires forall t :: t in accepted ==> t in accepted0 || t == coinbase || ids(t).inputs != []
    ensures NoOtherCoinbase(accepted0, accepted, coinbase, ids)
  {
  }

  lemma CoinbaseAcceptable(ctx: UtxoProcessingContext, known: Known, txs: seq<Transaction>)
    requires ctx.Shows(known, known.base, known.accepted) && SoundBody(txs, known.ids) && txs != []
             && txs[0].id !in known.accepted
    ensures Acceptable(known, known.base, known.accepted, Validated(txs[0], [], 0))
  {
    hide Ledger, Balanced, Tracks, ValidOver, Applied;
    FromLedger(known.base, known.accepted, known.ids, txs[0]);
  }

  lemma NoBlocks(check: Check, view: Collection, blocks: seq<seq<Transaction>>, daaScore: nat)
    requires forall b :: 0 <= b < |blocks| ==> blocks[b] != []
    ensures AfterBlocks(check, view, blocks[..0], daaScore) == view
    ensures FeesOf(check, view, blocks[..0], daaScore) == []
            && IdsOf(AcceptedFrom(check, view, blocks[..0], daaScore)) == []
  {
  }

  lemma NextBlock(check: Check, view: Collection, blocks: seq<seq<Transaction>>, daaScore: nat, b: nat)
    requires b < |blocks| && forall c :: 0 <= c < |blocks| ==> blocks[c] != []
    ensures AfterBlocks(check, view, blocks[..b + 1], daaScore)
            == AfterBlock(check, AfterBlocks(check, view, blocks[..b], daaScore), blocks[b], daaScore)
  {
    assert blocks[..b + 1][..b] == blocks[..b];
  }

  lemma NextFees(check: Check, view: Collection, blocks: seq<seq<Transaction>>, daaScore: nat, b: nat, fees: seq<nat>)
    requires b < |blocks| && forall c :: 0 <= c < |blocks| ==> blocks[c] != []
    ensures var s := Sequential(check, AfterBlocks(check, view, blocks[..b], daaScore), blocks[b][1..], daaScore);
            fees + FeesOf(check, view, blocks[..b + 1], daaScore)
              == fees + FeesOf(check, view, blocks[..b], daaScore) + [SumFees(s)]
  {
    hide Sequential, AfterBlocks, SumFees;
    assert blocks[..b + 1][..b] == blocks[..b];
  }

  lemma NextIds(check: Check, view: Collection, blocks: seq<seq<Transaction>>, daaScore: nat, b: nat, ids: seq<nat>)
    requires b < |blocks| && forall c :: 0 <= c < |blocks| ==> blocks[c] != []
    ensures var s := Sequential(check, AfterBlocks(check, view, blocks[..b], daaScore), blocks[b][1..], daaScore);
            ids + IdsOf(AcceptedFrom(check, view, blocks[..b + 1], daaScore))
            == ids + IdsOf(AcceptedFrom(check, view, blocks[..b], daaScore)) + IdsOf(s)
  {
    hide Sequential, AfterBlocks, IdsOf;
    assert blocks[..b + 1][..b] == blocks[..b];
    IdsAppend(AcceptedFrom(check, view, blocks[..b], daaScore),
              Sequential(check, AfterBlocks(check, view, blocks[..b], daaScore), blocks[b][1..], daaScore));
  }

  lemma IdsAppend(a: seq<Validated>, b: seq<Validated>)
    ensures IdsOf(a + b) == IdsOf(a) + IdsOf(b)
  {
  }

  /** Parallel validation of a sound body is sequential validation. */
  lemma BodyParallel(check: Check, view: Collection, txs: seq<Transaction>, daaScore: nat, ids: Ids)
    requires SoundBody(txs, ids) && txs != []
    ensures Parallel(check, view, txs[1..], daaScore) == Sequential(check, view, txs[1..], daaScore)
  {
    var body := txs[1..];
    SubBody(txs);
    ParallelIsSequential(check, view, body, daaScore, |body|);
    assert body[..|body|] == body;
  }

  lemma ShowsView(ctx: UtxoProcessingContext, known: Known, view: Collection, accepted: set<nat>)
    requires ctx.Shows(known, view, accepted)
    ensures Applied(known.base, ctx.mergesetDiff.Value()) == view
  {
  }

  lemma NothingAccepted(view: Collection, vs: seq<Validated>, daaScore: nat)
    ensures SpendAll(view, vs[..0], daaScore) == view && SumFees(vs[..0]) == 0 && IdsOf(vs[..0]) == []
  {
  }

  lemma IdsNext(vs: seq<Validated>, a: nat)
    requires a < |vs|
    ensures IdsOf(vs[..a + 1]) == IdsOf(vs[..a]) + [vs[a].tx.id]
  {
  }

  lemma SpendNext(view: Collection, vs: seq<Validated>, daaScore: nat, a: nat)
    requires a < |vs|
    ensures SpendAll(view, vs[..a + 1], daaScore) == Spend(SpendAll(view, vs[..a], daaScore), vs[a].tx, daaScore)
    ensures SumFees(vs[..a + 1]) == SumFees(vs[..a]) + vs[a].fee
  {
    assert vs[..a + 1][..a] == vs[..a];
  }

  lemma NextAcceptable(check: Check, ctx: UtxoProcessingContext, known: Known, view: Collection, txs: seq<Transaction>,
                       daaScore: nat,
                       accepted: set<nat>, a: nat)
    requires SoundBody(txs, known.ids) && txs != [] && a < |Sequential(check, view, txs[1..], daaScore)|
    requires ctx.Shows(known, SpendAll(view, Sequential(check, view, txs[1..], daaScore)[..a], daaScore), accepted)
    ensures var s := Sequential(check, view, txs[1..], daaScore);
            Acceptable(known, SpendAll(view, s[..a], daaScore), accepted, s[a]) && known.ids(s[a].tx.id).inputs != []
  {
    hide Balanced, ValidOver, Applied, Ledger, Sequential, SpendAll;
    AcceptedSpendable(check, known.base, view, txs, daaScore, known.ids, known.accepted, accepted, a);
  }

  lemma AfterBlockIs(check: Check, view: Collection, txs: seq<Transaction>, daaScore: nat)
    requires txs != []
    ensures AfterBlock(check, view, txs, daaScore)
            == SpendAll(view, Sequential(check, view, txs[1..], daaScore), daaScore)
  {
  }

  function SumFees(vs: seq<Validated>): nat {
    if vs == [] then 0 else SumFees(vs[..|vs| - 1]) + vs[|vs| - 1].fee
  }

  /** A transaction that can be added to a context that shows `view`. */
  ghost predicate Acceptable(known: Known, view: Collection, accepted: set<nat>, v: Validated) {
    && |v.entries| == |v.tx.inputs| && Spendable(view, v) && FreshOver(known.base, v.tx) && AllIn(v.tx.inputs, view)
    && v.tx.id !in accepted && known.ids(v.tx.id) == v.tx
  }
}
