/** Accepting the transactions of merged blocks into a UTXO set. */
module Transactions {
  import opened Options
  import opened UtxoDiffs

  datatype Output = Output(value: nat, script: nat)

  /** A transaction; `blueScore` is what the payload of a coinbase says about its block. */
  datatype Transaction = Transaction(id: nat, inputs: seq<Outpoint>, outputs: seq<Output>, isCoinbase: bool,
                                     blueScore: nat)

  /** All checks of a transaction whose input entries are known, at a given DAA score; the fee if
      they pass. */
  type Check = (Transaction, seq<Entry>, nat) -> Option<nat>

  datatype Validated = Validated(tx: Transaction, entries: seq<Entry>, fee: nat)

  // ----- validation of one transaction -----

  predicate AllIn(inputs: seq<Outpoint>, view: Collection) {
    forall i :: 0 <= i < |inputs| ==> inputs[i] in view
  }

  function Entries(inputs: seq<Outpoint>, view: Collection): seq<Entry>
    requires AllIn(inputs, view)
  {
    seq(|inputs|, i requires 0 <= i < |inputs| => view[inputs[i]])
  }

  function Validate(check: Check, view: Collection, tx: Transaction, daaScore: nat): Option<Validated> {
    if !AllIn(tx.inputs, view) then None
    else
      match check(tx, Entries(tx.inputs, view), daaScore)
      case Some(fee) => Some(Validated(tx, Entries(tx.inputs, view), fee))
      case None => None
  }

  /** Looks up the entries of all inputs in the view of `base` and `d`, and validates. */
  method ValidateTransactionInUtxoContext(check: Check, base: Collection, d: Diff, tx: Transaction, daaScore: nat)
    returns (r: Option<Validated>)
    ensures r == Validate(check, Applied(base, d), tx, daaScore)
  {
    var entries := [];
    for i := 0 to |tx.inputs|
      invariant |entries| == i
      invariant forall j :: 0 <= j < i ==>
                              tx.inputs[j] in Applied(base, d) && entries[j] == Applied(base, d)[tx.inputs[j]]
    {
      AppliedGet(base, d, tx.inputs[i]);
      var entry := ComposedGet(base, d, tx.inputs[i]);
      if entry.None? {
        return None;
      }
      entries := entries + [entry.value];
    }
    assert entries == Entries(tx.inputs, Applied(base, d));
    var fee := check(tx, entries, daaScore);
    if fee.None? {
      return None;
    }
    r := Some(Validated(tx, entries, fee.value));
  }

  // ----- validation of many -----

  function OutputEntry(tx: Transaction, daaScore: nat, i: nat): Entry
    requires i < |tx.outputs|
  {
    Entry(tx.outputs[i].value, tx.outputs[i].script, daaScore, tx.isCoinbase)
  }

  /** What a transaction creates. */
  function Created(tx: Transaction, daaScore: nat): Collection {
    map i | 0 <= i < |tx.outputs| :: Outpoint(tx.id, i) := OutputEntry(tx, daaScore, i)
  }

  /** The UTXO set after a transaction. */
  function Spend(view: Collection, tx: Transaction, daaScore: nat): Collection {
    view - (set o | o in tx.inputs) + Created(tx, daaScore)
  }

  /** Every transaction against the same view. */
  function Parallel(check: Check, view: Collection, txs: seq<Transaction>, daaScore: nat): seq<Validated> {
    if txs == [] then []
    else
      var elder, last :=
        Parallel(check, view, txs[..|txs| - 1], daaScore), Validate(check, view, txs[|txs| - 1], daaScore);
      if last.Some? then elder + [last.value] else elder
  }

  /** The UTXO set after accepted transactions. */
  function SpendAll(view: Collection, accepted: seq<Validated>, daaScore: nat): Collection {
    if accepted == [] then view
    else Spend(SpendAll(view, accepted[..|accepted| - 1], daaScore), accepted[|accepted| - 1].tx, daaScore)
  }

  /** Every transaction against the view that the accepted ones before it left. */
  function Sequential(check: Check, view: Collection, txs: seq<Transaction>, daaScore: nat): seq<Validated> {
    if txs == [] then []
    else
      var elder := Sequential(check, view, txs[..|txs| - 1], daaScore);
      var last := Validate(check, SpendAll(view, elder, daaScore), txs[|txs| - 1], daaScore);
      if last.Some? then elder + [last.value] else elder
  }

  /** No outpoint is spent twice in the block. */
  ghost predicate NoDoubleSpends(txs: seq<Transaction>) {
    forall i, j, m, n ::
      0 <= i < |txs| && 0 <= j < |txs| && 0 <= m < |txs[i].inputs| && 0 <= n < |txs[j].inputs|
        && txs[i].inputs[m] == txs[j].inputs[n] ==>
        i == j && m == n
  }

  ghost predicate CreatedBy(tx: Transaction, o: Outpoint) {
    o.transactionId == tx.id && o.index < |tx.outputs|
  }

  /** No transaction spends what the block creates. */
  ghost predicate NoChaining(txs: seq<Transaction>) {
    forall i, j, m :: 0 <= i < |txs| && 0 <= j < |txs| && 0 <= m < |txs[i].inputs| ==>
                        !CreatedBy(txs[j], txs[i].inputs[m])
  }

  ghost predicate DistinctIds(txs: seq<Transaction>) {
    forall i, j :: 0 <= i < j < |txs| ==> txs[i].id != txs[j].id
  }

  /** Accepted transactions come from the list, each once. */
  ghost predicate Among(accepted: seq<Validated>, txs: seq<Transaction>, n: nat)
    requires n <= |txs|
  {
    forall a :: 0 <= a < |accepted| ==> exists i :: 0 <= i < n && txs[i] == accepted[a].tx
  }

  lemma {:induction false} SequentialAmong(check: Check, view: Collection, txs: seq<Transaction>, daaScore: nat, n: nat)
    requires n <= |txs|
    ensures Among(Sequential(check, view, txs[..n], daaScore), txs, n)
  {
    if n > 0 {
      SequentialAmong(check, view, txs, daaScore, n - 1);
      assert txs[..n][..n - 1] == txs[..n - 1];
    }
  }

  /** What others of the block spend and create does not touch the inputs of a transaction. */
  lemma {:induction false} Untouched(view: Collection, accepted: seq<Validated>, txs: seq<Transaction>, n: nat,
                                     daaScore: nat, o: Outpoint, m: nat)
    requires n < |txs| && Among(accepted, txs, n) && NoDoubleSpends(txs) && NoChaining(txs)
    requires m < |txs[n].inputs| && txs[n].inputs[m] == o
    ensures Get(SpendAll(view, accepted, daaScore), o) == Get(view, o)
  {
    if accepted != [] {
      var last := |accepted| - 1;
      assert Among(accepted[..last], txs, n) by {
        forall a | 0 <= a < last ensures exists i :: 0 <= i < n && txs[i] == accepted[..last][a].tx {
          assert accepted[..last][a] == accepted[a];
        }
      }
      Untouched(view, accepted[..last], txs, n, daaScore, o, m);
      var i :| 0 <= i < n && txs[i] == accepted[last].tx;
      assert o !in txs[i].inputs;
      assert !CreatedBy(txs[i], o);
      SpendGet(SpendAll(view, accepted[..last], daaScore), txs[i], daaScore, o);
    }
  }

  lemma SpendGet(view: Collection, tx: Transaction, daaScore: nat, o: Outpoint)
    ensures o !in tx.inputs && !CreatedBy(tx, o) ==> Get(Spend(view, tx, daaScore), o) == Get(view, o)
    ensures CreatedBy(tx, o) <==> o in Created(tx, daaScore)
    ensures o in tx.inputs && !CreatedBy(tx, o) ==> o !in Spend(view, tx, daaScore)
    ensures CreatedBy(tx, o) ==> o in Spend(view, tx, daaScore)
  {
    if CreatedBy(tx, o) { assert o == Outpoint(tx.id, o.index); }
  }

  lemma ValidateSame(check: Check, view: Collection, view': Collection, tx: Transaction, daaScore: nat)
    requires forall m :: 0 <= m < |tx.inputs| ==> Get(view, tx.inputs[m]) == Get(view', tx.inputs[m])
    ensures Validate(check, view, tx, daaScore) == Validate(check, view', tx, daaScore)
  {
    forall m | 0 <= m < |tx.inputs|
      ensures (tx.inputs[m] in view <==> tx.inputs[m] in view')
              && (tx.inputs[m] in view ==> view[tx.inputs[m]] == view'[tx.inputs[m]])
    {
      assert Get(view, tx.inputs[m]) == Get(view', tx.inputs[m]);
    }
    if AllIn(tx.inputs, view) {
      assert Entries(tx.inputs, view) == Entries(tx.inputs, view');
    }
  }

  /** For a block without double spends and chained transactions, validating in parallel accepts
      the same transactions, with the same entries and fees, as validating one after the other. */
  lemma {:induction false} ParallelIsSequential(check: Check, view: Collection, txs: seq<Transaction>, daaScore: nat,
                                                n: nat)
    requires n <= |txs| && NoDoubleSpends(txs) && NoChaining(txs)
    ensures Parallel(check, view, txs[..n], daaScore) == Sequential(check, view, txs[..n], daaScore)
  {
    if n > 0 {
      ParallelIsSequential(check, view, txs, daaScore, n - 1);
      assert txs[..n][..n - 1] == txs[..n - 1];
      var elder, tx := Sequential(check, view, txs[..n - 1], daaScore), txs[n - 1];
      SequentialAmong(check, view, txs, daaScore, n - 1);
      forall m | 0 <= m < |tx.inputs|
        ensures Get(SpendAll(view, elder, daaScore), tx.inputs[m]) == Get(view, tx.inputs[m]) {
        Untouched(view, elder, txs, n - 1, daaScore, tx.inputs[m], m);
      }
      ValidateSame(check, view, SpendAll(view, elder, daaScore), tx, daaScore);
    }
  }

  // ----- checks of a block body -----

  /** The outpoint of input `n` of transaction `j`, if it is spent before. */
  ghost predicate SpentBefore(txs: seq<Transaction>, j: nat, n: nat)
    requires j < |txs| && n < |txs[j].inputs|
  {
    exists i, m :: 0 <= i <= j && 0 <= m < |txs[i].inputs| && (i < j || m < n) && txs[i].inputs[m] == txs[j].inputs[n]
  }

  method CheckBlockDoubleSpends(txs: seq<Transaction>) returns (offending: Option<Outpoint>)
    ensures offending.None? <==> NoDoubleSpends(txs)
    ensures offending.Some? ==>
              exists j, n :: 0 <= j < |txs| && 0 <= n < |txs[j].inputs| && txs[j].inputs[n] == offending.value
                             && SpentBefore(txs, j, n)
  {
    var existing: set<Outpoint> := {};
    for j := 0 to |txs|
      invariant forall o :: o in existing <==>
                              exists i, m :: 0 <= i < j && 0 <= m < |txs[i].inputs| && txs[i].inputs[m] == o
      invariant NoDoubleSpends(txs[..j])
    {
      for n := 0 to |txs[j].inputs|
        invariant forall o :: o in existing <==>
                    || (exists i, m :: 0 <= i < j && 0 <= m < |txs[i].inputs| && txs[i].inputs[m] == o)
                    || (exists m :: 0 <= m < n && txs[j].inputs[m] == o)
        invariant forall m, q :: 0 <= m < q < n ==> txs[j].inputs[m] != txs[j].inputs[q]
        invariant forall i, m, q :: 0 <= i < j && 0 <= m < |txs[i].inputs| && 0 <= q < n ==>
                                      txs[i].inputs[m] != txs[j].inputs[q]
      {
        var o := txs[j].inputs[n];
        if o in existing {
          assert SpentBefore(txs, j, n);
          return Some(o);
        }
        existing := existing + {o};
      }
      OneMoreBody(txs, j);
    }
    assert txs[..|txs|] == txs;
    offending := None;
  }

  lemma OneMoreBody(txs: seq<Transaction>, j: nat)
    requires j < |txs| && NoDoubleSpends(txs[..j])
    requires forall m, q :: 0 <= m < q < |txs[j].inputs| ==> txs[j].inputs[m] != txs[j].inputs[q]
    requires forall i, m, q :: 0 <= i < j && 0 <= m < |txs[i].inputs| && 0 <= q < |txs[j].inputs| ==>
                                 txs[i].inputs[m] != txs[j].inputs[q]
    ensures NoDoubleSpends(txs[..j + 1])
  {
    var all := txs[..j + 1];
    forall i, h, m, n | 0 <= i < |all| && 0 <= h < |all| && 0 <= m < |all[i].inputs| && 0 <= n < |all[h].inputs|
      && all[i].inputs[m] == all[h].inputs[n]
      ensures i == h && m == n
    {
      if i < j && h < j { assert txs[..j][i] == all[i] && txs[..j][h] == all[h]; }
    }
  }

  method CheckNoChainedTransactions(txs: seq<Transaction>) returns (offending: Option<Outpoint>)
    ensures offending.None? <==> NoChaining(txs)
    ensures offending.Some? ==> exists i, j, m ::
              0 <= i < |txs| && 0 <= j < |txs| && 0 <= m < |txs[i].inputs| && txs[i].inputs[m] == offending.value
                && CreatedBy(txs[j], offending.value)
  {
    var created: set<Outpoint> := {};
    for j := 0 to |txs|
      invariant forall o :: o in created <==> exists i :: 0 <= i < j && CreatedBy(txs[i], o)
    {
      for index := 0 to |txs[j].outputs|
        invariant forall o :: o in created <==>
                                (exists i :: 0 <= i < j && CreatedBy(txs[i], o))
                                  || (o.transactionId == txs[j].id && o.index < index)
      {
        created := created + {Outpoint(txs[j].id, index)};
      }
    }
    for i := 0 to |txs|
      invariant forall h, m :: 0 <= h < i && 0 <= m < |txs[h].inputs| ==> txs[h].inputs[m] !in created
    {
      for m := 0 to |txs[i].inputs|
        invariant forall q :: 0 <= q < m ==> txs[i].inputs[q] !in created
      {
        if txs[i].inputs[m] in created {
          return Some(txs[i].inputs[m]);
        }
      }
    }
    offending := None;
  }

  method CheckDuplicateTransactions(txs: seq<Transaction>) returns (offending: Option<nat>)
    ensures offending.None? <==> DistinctIds(txs)
    ensures offending.Some? ==> exists i, j :: 0 <= i < j < |txs| && txs[i].id == txs[j].id == offending.value
  {
    var ids: set<nat> := {};
    for j := 0 to |txs|
      invariant forall id :: id in ids <==> exists i :: 0 <= i < j && txs[i].id == id
      invariant forall i, h :: 0 <= i < h < j ==> txs[i].id != txs[h].id
    {
      if txs[j].id in ids {
        return Some(txs[j].id);
      }
      ids := ids + {txs[j].id};
    }
    offending := None;
  }

  /** Validates all transactions but the coinbase against one view. */
  method ValidateTransactionsInParallel(check: Check, base: Collection, d: Diff, txs: seq<Transaction>, daaScore: nat)
    returns (validated: seq<Validated>)
    requires txs != []
    ensures validated == Parallel(check, Applied(base, d), txs[1..], daaScore)
  {
    validated := [];
    var body := txs[1..];
    for i := 0 to |body|
      invariant validated == Parallel(check, Applied(base, d), body[..i], daaScore)
    {
      assert body[..i + 1][..i] == body[..i];
      var v := ValidateTransactionInUtxoContext(check, base, d, body[i], daaScore);
      if v.Some? {
        validated := validated + [v.value];
      }
    }
    assert body[..|body|] == body;
  }
}
