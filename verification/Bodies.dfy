/** Block bodies: which are accepted, and which blocks with a body are tips. */
module BlockBodies {
  import opened Options
  import opened Hashes
  import Intervals
  import opened BlockDag
  import opened Ghostdag
  import opened BlockWindows
  import opened Transactions
  import opened UtxoDiffs

  // ----- blocks with a body -----

  /** The blocks with a body are closed under parents. */
  ghost predicate Closed(d: Dag, bodies: set<Hash>) {
    d.Valid() && d.Root() in bodies && bodies <= d.Blocks() && forall b :: b in bodies ==> d.Parents(b) <= bodies
  }

  ghost predicate IsParent(d: Dag, bodies: set<Hash>, b: Hash) {
    exists c :: c in bodies && b in d.Parents(c)
  }

  /** The tips are the blocks with a body that are no parent of another one. */
  ghost predicate TipsRight(d: Dag, bodies: set<Hash>, tips: set<Hash>) {
    tips != {} && tips <= bodies && forall b :: b in bodies ==> (b in tips <==> !IsParent(d, bodies, b))
  }

  lemma {:induction false} PastHasBodies(d: Dag, bodies: set<Hash>, b: Hash)
    requires Closed(d, bodies) && b in bodies
    ensures d.Past(b) <= bodies
    decreases d.Rank(b)
  {
    PastUnfold(d, b);
    forall x | x in d.Past(b) && x !in d.Parents(b) ensures x in bodies {
      var p :| p in d.Parents(b) && x in d.Past(p);
      RankPast(d, p, b);
      PastHasBodies(d, bodies, p);
    }
  }

  lemma BelowHasBodies(d: Dag, bodies: set<Hash>, s: set<Hash>)
    requires Closed(d, bodies) && s <= bodies
    ensures PastBelow(d, s) <= bodies
  {
    forall x | x in PastBelow(d, s) && x !in s ensures x in bodies {
      var p :| p in s && x in d.Past(p);
      PastHasBodies(d, bodies, p);
    }
  }

  /** What is in the past of a block with a body is a parent of one. */
  lemma {:induction false} ParentInPast(d: Dag, bodies: set<Hash>, b: Hash, x: Hash)
    requires Closed(d, bodies) && b in bodies && x in d.Past(b)
    ensures IsParent(d, bodies, x)
    decreases d.Rank(b)
  {
    PastUnfold(d, b);
    if x !in d.Parents(b) {
      var p :| p in d.Parents(b) && x in d.Past(p);
      RankPast(d, p, b);
      ParentInPast(d, bodies, p, x);
    }
  }

  lemma TipsAntichain(d: Dag, bodies: set<Hash>, tips: set<Hash>)
    requires Closed(d, bodies) && TipsRight(d, bodies, tips)
    ensures Antichain(d, tips) && tips <= d.Blocks()
  {
    hide IsParent;
    forall x, y | x in tips && y in tips ensures x !in d.Past(y) {
      if x in d.Past(y) { ParentInPast(d, bodies, y, x); }
    }
  }

  /** A block with a body for every parent merges only blocks with a body. */
  lemma MergedHaveBodies(d: Dag, g: Colours, parents: set<Hash>, data: Data, bodies: set<Hash>)
    requires Closed(d, bodies) && PastBelow(d, parents) <= bodies && Merges(d, g, parents, data)
    ensures data.blues != [] && data.selectedParent in bodies && MergesetOf(data) <= bodies
  {
    forall x | x in MergesetOf(data) ensures x in bodies {
      assert x in MergeSet(d, parents, data.selectedParent);
      MergeSetMember(d, parents, data.selectedParent, x);
    }
  }

  /** The parents of a new tip are tips no longer. */
  lemma TipAdded(d: Dag, bodies: set<Hash>, tips: set<Hash>, h: Hash)
    requires Closed(d, bodies) && TipsRight(d, bodies, tips) && h in d.Blocks() && h !in bodies
             && d.Parents(h) <= bodies
    ensures Closed(d, bodies + {h}) && TipsRight(d, bodies + {h}, tips - d.Parents(h) + {h})
  {
    var bodies', tips' := bodies + {h}, tips - d.Parents(h) + {h};
    assert h in tips';
    forall b | b in bodies' ensures b in tips' <==> !IsParent(d, bodies', b) {
      if b == h {
        forall c | c in bodies' ensures h !in d.Parents(c) {}
      } else {
        assert b in tips <==> !IsParent(d, bodies, b);
        assert IsParent(d, bodies', b) <==> IsParent(d, bodies, b) || b in d.Parents(h);
      }
    }
  }

  /** A new header changes nothing for bodies. */
  lemma HeaderOnTop(d: Dag, bodies: set<Hash>, tips: set<Hash>, h: Hash, parents: set<Hash>)
    requires Closed(d, bodies) && TipsRight(d, bodies, tips) && Block(d, h, parents).Valid()
    ensures Closed(Block(d, h, parents), bodies) && TipsRight(Block(d, h, parents), bodies, tips)
  {
    var d' := Block(d, h, parents);
    assert h !in bodies;
    forall b | b in bodies ensures d'.Parents(b) == d.Parents(b) {}
    forall b | b in bodies ensures IsParent(d', bodies, b) <==> IsParent(d, bodies, b) {}
  }

  method UpdateTips(tips: set<Hash>, newTipParents: seq<Hash>, newTip: Hash) returns (r: set<Hash>)
    ensures r == tips - Elems(newTipParents) + {newTip}
  {
    r := tips;
    for i := 0 to |newTipParents|
      invariant r == tips - Elems(newTipParents[..i])
    {
      ElemsPrefix(newTipParents, i);
      r := r - {newTipParents[i]};
    }
    assert newTipParents[..|newTipParents|] == newTipParents;
    r := r + {newTip};
  }

  // ----- validation of a body -----

  datatype TxRuleError =
    | NoTxInputs | TooManyInputs | TooManyOutputs | CoinbaseHasInputs | CoinbaseTooManyOutputs | TxOutZero(index: nat)
    | TxOutTooHigh(index: nat) | OutputsValueOverflow | TotalTxOutTooHigh | TxDuplicateInputs

  datatype RuleError =
    | NoTransactions | BadMerkleRoot | FirstTxNotCoinbase | MultipleCoinbases(position: nat)
    | TxInIsolationValidationFailed(id: nat, error: TxRuleError) | DuplicateTransactions(id: nat)
    | DoubleSpendInSameBlock(outpoint: Outpoint) | ChainedTransaction(outpoint: Outpoint)
    | MissingParents(parents: seq<Hash>) | BadCoinbasePayloadBlueScore | OtherRule | KnownInvalid

  /** The limits of the network on single transactions. */
  datatype TxLimits = TxLimits(maxInputs: nat, maxOutputs: nat, ghostdagK: nat)

  /** What a body is checked against: the limits, and the outcome of the checks that look at what is not
      modelled: the Merkle root; mass, versions, gas, payloads and scripts; lock times and subsidy. */
  datatype Checks = Checks(limits: TxLimits, merkleRoot: bool, isolated: bool, inContext: bool)

  ghost predicate OneCoinbase(txs: seq<Transaction>)
    requires txs != []
  {
    txs[0].isCoinbase && forall i :: 1 <= i < |txs| ==> !txs[i].isCoinbase
  }

  method CheckOnlyOneCoinbase(txs: seq<Transaction>) returns (e: Option<RuleError>)
    requires txs != []
    ensures e.None? <==> OneCoinbase(txs)
    ensures e.Some? ==> e.value == FirstTxNotCoinbase || e.value.MultipleCoinbases?
  {
    if !txs[0].isCoinbase {
      return Some(FirstTxNotCoinbase);
    }
    for i := 1 to |txs|
      invariant forall j :: 1 <= j < i ==> !txs[j].isCoinbase
    {
      if txs[i].isCoinbase {
        return Some(MultipleCoinbases(i - 1));
      }
    }
    e := None;
  }

  // ----- validation of a transaction -----

  const MAX_SOMPI: nat := 29_000_000_000 * 100_000_000

  function SumValues(outputs: seq<Output>): nat {
    if outputs == [] then 0 else SumValues(outputs[..|outputs| - 1]) + outputs[|outputs| - 1].value
  }

  lemma {:induction false} SumPrefix(outputs: seq<Output>, n: nat)
    requires n <= |outputs|
    ensures SumValues(outputs[..n]) <= SumValues(outputs)
    decreases |outputs|
  {
    if n == |outputs| {
      assert outputs[..n] == outputs;
    } else {
      SumPrefix(outputs[..|outputs| - 1], n);
      assert outputs[..|outputs| - 1][..n] == outputs[..n];
    }
  }

  /** No output is zero or too high, and neither is their sum. */
  ghost predicate ValuesRight(outputs: seq<Output>) {
    (forall i :: 0 <= i < |outputs| ==> 0 < outputs[i].value <= MAX_SOMPI) && SumValues(outputs) <= MAX_SOMPI
  }

  /** Why the values are wrong: the first output that is, or with which the sum is. The addition itself
      never overflows. */
  method CheckTransactionOutputValueRanges(tx: Transaction) returns (e: Option<TxRuleError>)
    ensures e.None? <==> ValuesRight(tx.outputs)
    ensures e.Some? ==>
              match e.value
              case TxOutZero(i) => i < |tx.outputs| && tx.outputs[i].value == 0 && ValuesRight(tx.outputs[..i])
              case TxOutTooHigh(i) =>
                i < |tx.outputs| && tx.outputs[i].value > MAX_SOMPI && ValuesRight(tx.outputs[..i])
              case other => other == TotalTxOutTooHigh && SumValues(tx.outputs) > MAX_SOMPI
  {
    var total := 0;
    for i := 0 to |tx.outputs|
      invariant total == SumValues(tx.outputs[..i]) && ValuesRight(tx.outputs[..i])
    {
      assert tx.outputs[..i + 1][..i] == tx.outputs[..i];
      SumPrefix(tx.outputs, i + 1);
      var value := tx.outputs[i].value;
      if value == 0 {
        return Some(TxOutZero(i));
      }
      if value > MAX_SOMPI {
        return Some(TxOutTooHigh(i));
      }
      if total + value > Intervals.U64_MAX {
        return Some(OutputsValueOverflow);
      }
      total := total + value;
      if total > MAX_SOMPI {
        return Some(TotalTxOutTooHigh);
      }
    }
    assert tx.outputs[..|tx.outputs|] == tx.outputs;
    e := None;
  }

  ghost predicate DistinctInputs(tx: Transaction) {
    forall i, j :: 0 <= i < j < |tx.inputs| ==> tx.inputs[i] != tx.inputs[j]
  }

  method CheckDuplicateTransactionInputs(tx: Transaction) returns (e: Option<TxRuleError>)
    ensures e == if DistinctInputs(tx) then None else Some(TxDuplicateInputs)
  {
    var existing: set<Outpoint> := {};
    for j := 0 to |tx.inputs|
      invariant forall o :: o in existing <==> exists i :: 0 <= i < j && tx.inputs[i] == o
      invariant forall i, h :: 0 <= i < h < j ==> tx.inputs[i] != tx.inputs[h]
    {
      if tx.inputs[j] in existing {
        return Some(TxDuplicateInputs);
      }
      existing := existing + {tx.inputs[j]};
    }
    e := None;
  }

  /** A transaction that passes every modelled check: a coinbase has no inputs and few outputs, every other
      transaction has inputs, numbers and values are within their limits, and nothing is spent twice. */
  ghost predicate TxIsolated(tx: Transaction, limits: TxLimits) {
    && (tx.isCoinbase <==> tx.inputs == []) && |tx.inputs| <= limits.maxInputs && |tx.outputs| <= limits.maxOutputs
    && (tx.isCoinbase ==> |tx.outputs| <= limits.ghostdagK + 2)
    && ValuesRight(tx.outputs) && DistinctInputs(tx)
  }

  method ValidateTxInIsolation(tx: Transaction, limits: TxLimits) returns (e: Option<TxRuleError>)
    ensures e.None? <==> TxIsolated(tx, limits)
    ensures e == Some(NoTxInputs) <==> !tx.isCoinbase && tx.inputs == []
    ensures e != Some(OutputsValueOverflow)
  {
    hide ValuesRight, DistinctInputs;
    if !tx.isCoinbase && tx.inputs == [] {
      return Some(NoTxInputs);
    }
    if |tx.inputs| > limits.maxInputs {
      return Some(TooManyInputs);
    }
    if |tx.outputs| > limits.maxOutputs {
      return Some(TooManyOutputs);
    }
    if tx.isCoinbase {
      if tx.inputs != [] {
        return Some(CoinbaseHasInputs);
      }
      if |tx.outputs| > limits.ghostdagK + 2 {
        return Some(CoinbaseTooManyOutputs);
      }
    }
    e := CheckTransactionOutputValueRanges(tx);
    if e.Some? {
      return;
    }
    e := CheckDuplicateTransactionInputs(tx);
  }

  /** The first transaction that fails, and why. */
  method CheckTransactionsInIsolation(txs: seq<Transaction>, limits: TxLimits) returns (e: Option<RuleError>)
    ensures e.None? <==> forall i :: 0 <= i < |txs| ==> TxIsolated(txs[i], limits)
    ensures e.Some? ==> e.value.TxInIsolationValidationFailed? && exists i ::
              0 <= i < |txs| && e.value.id == txs[i].id && !TxIsolated(txs[i], limits)
              && forall j :: 0 <= j < i ==> TxIsolated(txs[j], limits)
  {
    hide TxIsolated;
    for i := 0 to |txs|
      invariant forall j :: 0 <= j < i ==> TxIsolated(txs[j], limits)
    {
      var error := ValidateTxInIsolation(txs[i], limits);
      if error.Some? {
        return Some(TxInIsolationValidationFailed(txs[i].id, error.value));
      }
    }
    e := None;
  }

  /** A body that passes every check in isolation but the Merkle root. */
  ghost predicate Isolated(txs: seq<Transaction>, checks: Checks) {
    && txs != [] && OneCoinbase(txs) && checks.isolated
    && (forall i :: 0 <= i < |txs| ==> TxIsolated(txs[i], checks.limits))
    && DistinctIds(txs) && NoDoubleSpends(txs) && NoChaining(txs)
  }

  method ValidateBodyInIsolation(txs: seq<Transaction>, checks: Checks) returns (e: Option<RuleError>)
    ensures e.None? <==> Isolated(txs, checks) && checks.merkleRoot
    ensures e == Some(BadMerkleRoot) <==> txs != [] && !checks.merkleRoot
    ensures e.Some? ==> !e.value.MissingParents?
  {
    hide DistinctIds, NoDoubleSpends, NoChaining, SpentBefore, TxIsolated;
    if txs == [] {
      return Some(NoTransactions);
    }
    if !checks.merkleRoot {
      return Some(BadMerkleRoot);
    }
    e := CheckOnlyOneCoinbase(txs);
    if e.Some? {
      return;
    }
    e := CheckTransactionsInIsolation(txs, checks.limits);
    if e.Some? {
      return;
    }
    if !checks.isolated {
      return Some(OtherRule);
    }
    var duplicate := CheckDuplicateTransactions(txs);
    if duplicate.Some? {
      return Some(DuplicateTransactions(duplicate.value));
    }
    var doubleSpend := CheckBlockDoubleSpends(txs);
    if doubleSpend.Some? {
      return Some(DoubleSpendInSameBlock(doubleSpend.value));
    }
    var chained := CheckNoChainedTransactions(txs);
    if chained.Some? {
      return Some(ChainedTransaction(chained.value));
    }
  }

  /** The parents without a body, in the order of the header. */
  function Missing(parents: seq<Hash>, bodies: set<Hash>): (r: seq<Hash>)
    ensures r == [] <==> Elems(parents) <= bodies
  {
    if parents == [] then [] else
      var n := |parents| - 1;
      ElemsPrefix(parents, n);
      assert parents[..n + 1] == parents;
      Missing(parents[..n], bodies) + if parents[n] in bodies then [] else [parents[n]]
  }

  /** Genesis always has a body; all other parents are looked up. */
  method CheckParentBodiesExist(parents: seq<Hash>, bodies: set<Hash>, genesis: Hash) returns (e: Option<RuleError>)
    requires genesis in bodies
    ensures e == if Elems(parents) <= bodies then None else Some(MissingParents(Missing(parents, bodies)))
  {
    if |parents| == 1 && parents[0] == genesis {
      return None;
    }
    var missing := [];
    for i := 0 to |parents|
      invariant missing == Missing(parents[..i], bodies)
    {
      assert parents[..i + 1][..i] == parents[..i];
      if parents[i] !in bodies {
        missing := missing + [parents[i]];
      }
    }
    assert parents[..|parents|] == parents;
    e := if missing == [] then None else Some(MissingParents(missing));
  }

  /** All checks of a body: why it is rejected, if it is. Two reasons are no fault of the block: a
      Merkle root that does not match, and parents without a body. */
  method ValidateBody(txs: seq<Transaction>, blueScore: nat, parents: seq<Hash>, bodies: set<Hash>, genesis: Hash,
                      checks: Checks)
    returns (e: Option<RuleError>)
    requires genesis in bodies
    ensures e.None? <==>
              && Isolated(txs, checks) && checks.merkleRoot && Elems(parents) <= bodies
              && txs[0].blueScore == blueScore && checks.inContext
    ensures e == Some(BadMerkleRoot) <==> txs != [] && !checks.merkleRoot
    ensures e.Some? && e.value.MissingParents? <==>
              Isolated(txs, checks) && checks.merkleRoot && !(Elems(parents) <= bodies)
    ensures e.Some? && e.value.MissingParents? ==> e.value.parents == Missing(parents, bodies)
  {
    hide Elems;
    e := ValidateBodyInIsolation(txs, checks);
    if e.Some? {
      return;
    }
    e := CheckParentBodiesExist(parents, bodies, genesis);
    if e.Some? {
      return;
    }
    if txs[0].blueScore != blueScore {
      return Some(BadCoinbasePayloadBlueScore);
    }
    if !checks.inContext {
      return Some(OtherRule);
    }
  }
}
