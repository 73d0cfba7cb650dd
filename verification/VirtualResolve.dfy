/** Receiving blocks, and moving the virtual block along with them. */
module VirtualResolution {
  import opened Hashes
  import opened Intervals
  import opened BlockDag
  import opened ReachabilityTree
  import opened ReachabilityStore
  import RootMovement
  import opened Capacity
  import opened Inquirer
  import opened Ghostdag
  import opened Colouring
  import opened GreedyColouring
  import opened ReachabilityServices
  import opened GhostdagProtocol
  import HeaderCommit
  import BlockWindows
  import Sorting
  import opened VirtualParents
  import opened UtxoDiffs
  import opened UtxoDiffState
  import opened Transactions
  import opened MuHashes
  import opened UtxoStates
  import opened UtxoChains
  import opened BlockBodies

  /** What came of a received body. */
  datatype Reception = Now(status: Status) | Refused(error: RuleError)

  /** What is stored about bodies. */
  datatype BodyStores = BodyStores(transactions: Bodies, tips: set<Hash>, statuses: map<Hash, Status>)

  /** What receiving a body leads to. A decided status is returned. The body of a block that has a
      header only is stored exactly if it passes all checks; otherwise the block becomes invalid,
      unless the Merkle root does not match or parents have no body. */
  ghost predicate Received(d: Dag, g: Colours, hash: Hash, txs: seq<Transaction>, checks: Checks, before: BodyStores,
                           after: BodyStores,
                           outcome: Reception)
  {
    && hash in g && hash in before.statuses
    && match before.statuses[hash]
       case HeaderOnly =>
         var parentsKnown := d.Parents(hash) <= before.transactions.Keys;
         if Isolated(txs, checks) && checks.merkleRoot && parentsKnown && txs[0].blueScore == g[hash].blueScore
           && checks.inContext then
           && outcome == Now(UtxoPending)
           && after == BodyStores(before.transactions[hash := txs], before.tips - d.Parents(hash) + {hash},
                                  before.statuses[hash := UtxoPending])
         else
           && outcome.Refused?
           && (outcome.error == BadMerkleRoot <==> txs != [] && !checks.merkleRoot)
           && (outcome.error.MissingParents? <==> Isolated(txs, checks) && checks.merkleRoot && !parentsKnown)
           && after == if outcome.error == BadMerkleRoot || outcome.error.MissingParents? then before
                       else before.(statuses := before.statuses[hash := Invalid])
       case Invalid => outcome == Refused(KnownInvalid) && after == before
       case status => outcome == Now(status) && after == before
  }

  /** The data of the virtual block are what the definition gives for its parents. */
  ghost predicate VirtualData(m: GhostdagManager, v: VirtualState, d: Dag)
    reads m
  {
    Naive(d, m.ghostdag, m.works, m.k, Elems(v.parents), v.data)
  }

  class VirtualProcessor {
    const manager: GhostdagManager
    const rules: Rules
    ghost const ids: Ids
    const maxBlockParents: nat
    const mergesetSizeLimit: nat
    var headersSelectedTip: Hash
    var daaScores: map<Hash, nat>
    var transactions: Bodies
    var bodyTips: set<Hash>
    var statuses: map<Hash, Status>
    var diffs: Diffs
    var multisets: map<Hash, Element>
    var utxoSet: Collection
    var state: VirtualState
    /** The transactions accepted up to each block whose state is stored. */
    ghost var accepted: map<Hash, set<nat>>

    /** A node that knows genesis only. */
    constructor (manager: GhostdagManager, rules: Rules, genesisBody: seq<Transaction>, genesisDaaScore: nat,
                 maxBlockParents: nat, mergesetSizeLimit: nat, ghost ids: Ids)
      requires manager.Valid(Origin(manager.genesis)) && maxBlockParents >= 1 && mergesetSizeLimit >= 1
      requires Hashable(rules.element, rules.limbs) && InvertsRight(rules.inverse, rules.limbs)
               && GenesisBody(genesisBody, ids)
      ensures Valid(Origin(manager.genesis)) && this.manager == manager && this.ids == ids && this.rules == rules
      ensures utxoSet == map[] && daaScores == map[manager.genesis := genesisDaaScore]
      ensures transactions == map[manager.genesis := genesisBody]
    {
      hide *;
      var genesis := manager.genesis;
      ghost var d := Origin(genesis);
      GenesisReady(manager, genesisBody, ids);
      var data := manager.Ghostdag([genesis], d);
      this.manager, this.rules, this.ids := manager, rules, ids;
      this.maxBlockParents, this.mergesetSizeLimit := maxBlockParents, mergesetSizeLimit;
      headersSelectedTip := genesis;
      daaScores := map[genesis := genesisDaaScore];
      transactions := map[genesis := genesisBody];
      bodyTips := {genesis};
      statuses := map[genesis := UtxoValid];
      diffs := map[];
      multisets := map[genesis := EmptyHash(rules.limbs)];
      utxoSet := map[];
      state := VirtualState([genesis], data, 0, EmptyHash(rules.limbs), Diff(map[], map[]), [genesisBody[0].id]);
      accepted := map[genesis := {}];
      new;
      VirtualDataNow(manager, state, d);
      GenesisValid(this, data, d);
    }

    ghost function Chain(): Chain
      reads this`daaScores, this`transactions, manager, manager.reachability.store
    {
      UtxoChains.Chain(manager.reachability.store.tree, manager.ghostdag, transactions, daaScores, rules, ids)
    }

    ghost function Records(): Records
      reads this`diffs, this`multisets, this`accepted, this`statuses
    {
      UtxoChains.Records(diffs, multisets, accepted, statuses)
    }

    ghost function Stored(): BodyStores
      reads this`transactions, this`bodyTips, this`statuses
    {
      BodyStores(transactions, bodyTips, statuses)
    }

    /** Everything stored belongs to the DAG `d`: colours and reachability, bodies and tips, the UTXO
        states and verdicts, and the virtual state with the stored UTXO set. */
    ghost predicate Valid(d: Dag)
      reads this, manager, manager.reachability.store
    {
      && manager.Valid(d) && headersSelectedTip in d.Blocks() && maxBlockParents >= 1 && mergesetSizeLimit >= 1
      && Closed(d, transactions.Keys) && TipsRight(d, transactions.Keys, bodyTips)
      && StatesRecorded(Chain(), Records()) && VirtualRight(Chain(), diffs, utxoSet, state)
      && VirtualData(manager, state, d)
    }

    // ----- blocks come in -----

    /** Commits a header; its body is still to come. */
    method ReceiveHeader(h: HeaderCommit.Header, daaScore: nat, depth: nat, slack: nat, ghost blocks: nat,
                         ghost space: nat, ghost d: Dag)
      requires Valid(d) && HeaderCommit.Acceptable(d, h) && depth > 0 && slack == manager.reachability.slack
      requires Holds(manager.reachability.store, blocks, space) && Roomy(blocks + 1, slack, space)
      modifies this`headersSelectedTip, this`daaScores, this`statuses
      modifies manager`relations, manager`works, manager`ghostdag, manager.reachability.store
      ensures Valid(Block(d, h.hash, Elems(h.parents)))
      ensures Advanced(old(Chain()), old(Records()), Chain(), Records())
      ensures statuses == old(statuses)[h.hash := HeaderOnly] && daaScores == old(daaScores)[h.hash := daaScore]
      ensures manager.works == old(manager.works)[h.hash := h.work]
      ensures Holds(manager.reachability.store, blocks + 1, space)
    {
      hide *;
      ghost var c, r := Chain(), Records();
      ProcessorFacts(this, d);
      HeaderCommit.AcceptableFacts(d, h);
      var data := EnterHeader(h, depth, slack, blocks, space, d);
      daaScores := daaScores[h.hash := daaScore];
      statuses := statuses[h.hash := HeaderOnly];
      HeaderKeeps(this, c, r, d, h, data, daaScore);
    }

    /** Colours, relations and reachability of a header; the heaviest header is remembered. */
    method EnterHeader(h: HeaderCommit.Header, depth: nat, slack: nat, ghost blocks: nat, ghost space: nat,
                       ghost d: Dag)
      returns (data: Data)
      requires manager.Valid(d) && headersSelectedTip in d.Blocks() && VirtualData(manager, state, d)
      requires HeaderCommit.Acceptable(d, h) && depth > 0 && slack == manager.reachability.slack
      requires Holds(manager.reachability.store, blocks, space) && Roomy(blocks + 1, slack, space)
      modifies this`headersSelectedTip
      modifies manager`relations, manager`works, manager`ghostdag, manager.reachability.store
      ensures var d' := Block(d, h.hash, Elems(h.parents));
              manager.Valid(d') && VirtualData(manager, state, d') && headersSelectedTip in d'.Blocks()
      ensures manager.ghostdag == old(manager.ghostdag)[h.hash := data]
      ensures manager.works == old(manager.works)[h.hash := h.work]
      ensures var t := old(manager.reachability.store.tree);
              && data.selectedParent in t.nodes
              && manager.reachability.store.tree == t.Insert(h.hash, data.selectedParent)
      ensures Holds(manager.reachability.store, blocks + 1, space)
    {
      hide *;
      HeaderCommit.AcceptableFacts(d, h);
      HoldsMeans(manager.reachability.store, blocks, space);
      ghost var g, works := manager.ghostdag, manager.works;
      ManagerFacts(manager, d);
      ManagerWorks(manager, d);
      VirtualDataMeans(manager, state, d);
      var added, hinted;
      data, added, hinted :=
        HeaderCommit.CommitHeader(manager, h.hash, h.parents, h.work, headersSelectedTip, depth, slack, d);
      assert added.Ok? && hinted.Ok?;
      VirtualDataGrows(d, g, works, manager.k, h, data, state);
      VirtualDataNow(manager, state, Block(d, h.hash, Elems(h.parents)));
      HoldsNow(manager.reachability.store, blocks + 1, space);
      HeaderCommit.KnownColours(manager, d, h, headersSelectedTip);
      if Less(manager.ghostdag, headersSelectedTip, h.hash) {
        headersSelectedTip := h.hash;
      }
    }

    /** Validates the body of a block whose header is known, and stores it. */
    method ReceiveBody(hash: Hash, txs: seq<Transaction>, checks: Checks, ghost d: Dag) returns (outcome: Reception)
      requires Valid(d) && hash in d.Blocks() && forall i :: 0 <= i < |txs| ==> ids(txs[i].id) == txs[i]
      modifies this`transactions, this`bodyTips, this`statuses
      ensures Valid(d) && Advanced(old(Chain()), old(Records()), Chain(), Records())
      ensures Received(d, manager.ghostdag, hash, txs, checks, old(Stored()), Stored(), outcome)
    {
      hide *;
      ghost var c, r := Chain(), Records();
      ProcessorFacts(this, d);
      ParentsOnRecord(manager, d, hash);
      ghost var before := Stored();
      StoredIs(this);
      if statuses[hash] == Invalid {
        outcome := Refused(KnownInvalid);
        ReceivedKnown(d, manager.ghostdag, hash, txs, checks, before, outcome);
        AdvancedNot(c, r);
        return;
      }
      if statuses[hash] != HeaderOnly {
        outcome := Now(statuses[hash]);
        ReceivedKnown(d, manager.ghostdag, hash, txs, checks, before, outcome);
        AdvancedNot(c, r);
        return;
      }
      NoBodyYet(c, r, hash);
      var parents := manager.relations[hash];
      var error := ValidateBody(txs, manager.ghostdag[hash].blueScore, parents, transactions.Keys, manager.genesis,
                                checks);
      if error.Some? {
        outcome := Refused(error.value);
        ReceivedBad(d, manager.ghostdag, hash, txs, checks, before, error.value);
        AdvancedNot(c, r);
        if error.value != BadMerkleRoot && !error.value.MissingParents? {
          MarkInvalid(hash, d);
        }
        StoredIs(this);
        return;
      }
      CommitBody(hash, parents, txs, checks, d);
      outcome := Now(UtxoPending);
      StoredIs(this);
      ReceivedGood(d, manager.ghostdag, hash, txs, checks, before, Stored());
    }

    method MarkInvalid(hash: Hash, ghost d: Dag)
      requires Valid(d) && hash in d.Blocks() && hash !in transactions
      modifies this`statuses
      ensures Valid(d) && Advanced(old(Chain()), old(Records()), Chain(), Records())
              && statuses == old(statuses)[hash := Invalid]
    {
      hide *;
      ghost var c, r := Chain(), Records();
      ProcessorFacts(this, d);
      statuses := statuses[hash := Invalid];
      InvalidKeeps(this, c, r, d, hash);
    }

    /** Stores a body; the block becomes a tip in place of its parents. */
    method CommitBody(hash: Hash, parents: seq<Hash>, txs: seq<Transaction>, ghost checks: Checks, ghost d: Dag)
      requires Valid(d) && hash in d.Blocks() && hash !in transactions && hash in manager.ghostdag
      requires Elems(parents) == d.Parents(hash) <= transactions.Keys && Isolated(txs, checks)
      requires txs[0].blueScore == manager.ghostdag[hash].blueScore
               && forall i :: 0 <= i < |txs| ==> ids(txs[i].id) == txs[i]
      modifies this`transactions, this`bodyTips, this`statuses
      ensures Valid(d) && Advanced(old(Chain()), old(Records()), Chain(), Records())
      ensures transactions == old(transactions)[hash := txs] && statuses == old(statuses)[hash := UtxoPending]
      ensures bodyTips == old(bodyTips) - Elems(parents) + {hash}
    {
      hide *;
      ghost var c, r := Chain(), Records();
      ProcessorFacts(this, d);
      bodyTips := UpdateTips(bodyTips, parents, hash);
      transactions := transactions[hash := txs];
      statuses := statuses[hash := UtxoPending];
      BodyKeeps(this, c, r, d, hash, txs, checks, old(bodyTips));
    }

    // ----- UTXO states -----

    /** The UTXO state of a block, or of the virtual block, over the state of its selected parent. */
    method CalculateState(data: Data, base: Collection, daaScore: nat, ghost parents: set<Hash>, ghost d: Dag)
      returns (diff: Diff, multisetHash: Element, acceptedTxIds: seq<nat>, fees: seq<nat>, ghost newAccepted: set<nat>)
      requires Calculable(Chain(), Records(), base, data, parents, d)
      ensures Calculated(Chain(), base, data, daaScore, diff, multisetHash, acceptedTxIds, fees, newAccepted)
    {
      hide *;
      ghost var c, r := Chain(), Records();
      ChainFields(this);
      CalculableFacts(c, r, base, data, parents, d);
      var sp := data.selectedParent;
      ghost var known := KnownAt(c, r, data);
      CalculationReady(c, r, data);
      var order := BlockWindows.ConsensusOrderedMergeset(manager.ghostdag, data, d, parents);
      var blocks := BodiesAt(transactions, order);
      var ctx := new UtxoProcessingContext(rules.element, multisets[sp], known);
      newAccepted := ctx.CalculateUtxoState(rules.check, base, blocks, daaScore, known);
      diff, acceptedTxIds, fees := ctx.mergesetDiff.Value(), ctx.acceptedTxIds, ctx.blockFees;
      ghost var view := AfterBlocks(rules.check, Spend(base, blocks[0][0], daaScore), blocks, daaScore);
      multisetHash := ctx.UtxoCommitment(rules.inverse, known, view, newAccepted);
      CalculationDone(c, r, data, daaScore, ctx, diff, multisetHash, acceptedTxIds, fees, newAccepted);
    }

    /** Whether commitments, coinbase and transactions of a block agree with its UTXO state. */
    method VerifyExpectedUtxoState(block: Hash, base: Collection, diff: Diff, multisetHash: Element,
                                   acceptedTxIds: seq<nat>,
                                   fees: seq<nat>, ghost newAccepted: set<nat>)
      returns (ok: bool)
      requires Whole(Chain()) && block in transactions && block != Chain().t.origin && block in manager.ghostdag
               && block in daaScores
      requires Calculated(Chain(), base, manager.ghostdag[block], daaScores[block], diff, multisetHash, acceptedTxIds,
                          fees, newAccepted)
      ensures ok <==> Verifies(Chain(), block, base)
    {
      hide *;
      ghost var c := Chain();
      CalculatedFacts(c, base, manager.ghostdag[block], daaScores[block], diff, multisetHash, acceptedTxIds, fees,
                      newAccepted);
      ChainFields(this);
      BodyFacts(c, block);
      VerifiesBy(c, block, base, multisetHash);
      var txs := transactions[block];
      AllValid(rules.check, Applied(base, diff), txs, daaScores[block]);
      if !rules.matches(block, multisetHash, acceptedTxIds, fees) {
        return false;
      }
      var validated := ValidateTransactionsInParallel(rules.check, base, diff, txs, daaScores[block]);
      ok := |validated| >= |txs| - 1;
    }

    /** Marks a block that fails, or whose selected parent did. */
    method Disqualify(ghost acc: Diff, block: Hash, ghost d: Dag)
      requires Valid(d) && Whole(Chain()) && block in transactions && !Committed(Chain().t, diffs, block)
               && !Verdict(Chain(), block)
      modifies this`statuses
      ensures Valid(d) && Decided(Chain(), Records(), utxoSet, acc, block)
    {
      hide *;
      ghost var c, r := Chain(), Records();
      ProcessorFacts(this, d);
      DisqualifyKeeps(c, r, block);
      statuses := statuses[block := DisqualifiedFromChain];
      ChainFields(this);
      assert Records() == r.(statuses := r.statuses[block := DisqualifiedFromChain]);
      ProcessorKeeps(this, d, c, Records());
      DecidedAgainst(c, Records(), utxoSet, acc, block);
    }

    /** Stores the state of a verified block. */
    method CommitUtxoState(block: Hash, diff: Diff, multisetHash: Element, ghost newAccepted: set<nat>,
                           ghost acc: Diff, ghost d: Dag)
      requires Valid(d) && Whole(Chain()) && block in transactions && block in manager.ghostdag
               && block != Chain().t.origin && block !in diffs
      requires DiffRight(Chain(), diffs[block := diff], block)
      requires StateRight(Chain(), StateOf(Chain(), block), newAccepted, multisetHash,
                          manager.ghostdag[block].blueScore)
      requires Leads(utxoSet, acc, StateOf(Chain(), block), ids)
      modifies this`diffs, this`multisets, this`statuses, this`accepted
      ensures Valid(d) && Decided(Chain(), Records(), utxoSet, acc, block) && diffs == old(diffs)[block := diff]
    {
      hide *;
      ghost var c, r := Chain(), Records();
      ProcessorFacts(this, d);
      ChainFields(this);
      CommitKeeps(c, r, block, diff, multisetHash, newAccepted);
      diffs := diffs[block := diff];
      multisets := multisets[block := multisetHash];
      statuses := statuses[block := UtxoValid];
      accepted := accepted[block := newAccepted];
      RecordsAre(this, r, block, diff, multisetHash, newAccepted);
      VirtualStays(c, r.diffs, block, diff, utxoSet, state);
      ProcessorKeeps(this, d, c, Records());
      IsCommitted(c.t, diffs, block);
      ChainFields(this);
      DecidedNow(c, Records(), utxoSet, acc, block);
    }

    // ----- the virtual block moves -----

    /** Walks down from the old selected parent to the chain of the new one, undoing diffs. */
    method WalkDown(acc: UtxoDiff, newSelected: Hash, ghost d: Dag) returns (splitPoint: Hash)
      requires Valid(d) && newSelected in transactions && Whole(Chain()) && state.data.selectedParent in transactions
      requires Leads(utxoSet, acc.Value(), StateOf(Chain(), state.data.selectedParent), ids)
      modifies acc
      ensures Reaching(Chain(), splitPoint, newSelected) && Committed(Chain().t, diffs, splitPoint)
      ensures Leads(utxoSet, acc.Value(), StateOf(Chain(), splitPoint), ids)
    {
      hide *;
      ghost var c, r := Chain(), Records();
      var t := manager.reachability.store.tree;
      ProcessorFacts(this, d);
      VirtualUndone(c, diffs, utxoSet, state);
      splitPoint := state.data.selectedParent;
      while true
        invariant splitPoint in c.bodies && splitPoint in t.nodes && Committed(t, diffs, splitPoint)
        invariant Leads(utxoSet, acc.Value(), StateOf(c, splitPoint), c.ids)
        decreases t.Height(splitPoint)
      {
        ManagerFacts(manager, d);
        var onChain := manager.reachability.IsChainAncestorOf(splitPoint, newSelected, d);
        if onChain {
          Reached(c, splitPoint, newSelected);
          return;
        }
        NotOrigin(c, r, splitPoint, newSelected);
        var diff := diffs[splitPoint];
        LeadsBack(utxoSet, acc.Value(), c, r, splitPoint);
        BodyFacts(c, splitPoint);
        var applied := acc.WithDiffInPlace(UtxoDiffs.Reversed(diff));
        assert applied.Ok?;
        splitPoint := t.Parent(splitPoint);
      }
    }

    /** One step up the new chain: from `current`, whose set the accumulated diff leads to unless it
        is disqualified, to its chain child `next`. */
    method StepUp(acc: UtxoDiff, current: Hash, next: Hash, ghost d: Dag)
      requires Valid(d) && ChildOf(Chain(), current, next) && Decided(Chain(), Records(), utxoSet, acc.Value(), current)
      modifies acc, this`diffs, this`multisets, this`statuses, this`accepted
      ensures Valid(d) && Decided(Chain(), Records(), utxoSet, acc.Value(), next) && old(diffs.Keys) <= diffs.Keys
    {
      hide *;
      ghost var c, r := Chain(), Records();
      ProcessorFacts(this, d);
      ChildFacts(c, current, next);
      BodyFacts(c, next);
      if next in diffs {
        DecidedParent(c, r, utxoSet, acc.Value(), current, next);
        LeadsForward(utxoSet, acc.Value(), c, r, next);
        var applied := acc.WithDiffInPlace(diffs[next]);
        assert applied.Ok?;
        IsCommitted(c.t, diffs, next);
        DecidedNow(c, r, utxoSet, acc.Value(), next);
        return;
      }
      DecidedFacts(c, r, utxoSet, acc.Value(), current);
      VerdictStep(c, next);
      if statuses[current] == DisqualifiedFromChain {
        Undecided(c, r, next);
        Disqualify(acc.Value(), next, d);
        return;
      }
      LeadsView(utxoSet, acc.Value(), StateOf(c, current), c.ids);
      var base := Applied(utxoSet, acc.Value());
      StoredMerges(manager, d, next);
      ManagerFacts(manager, d);
      var data := manager.ghostdag[next];
      MakeCalculable(c, r, base, data, d.Parents(next), d);
      var diff, multisetHash, txIds, fees, newAccepted :=
        CalculateState(data, base, daaScores[next], d.Parents(next), d);
      var ok := VerifyExpectedUtxoState(next, base, diff, multisetHash, txIds, fees, newAccepted);
      if !ok {
        Undecided(c, r, next);
        Disqualify(acc.Value(), next, d);
        return;
      }
      CommitReady(c, r, utxoSet, acc.Value(), current, next, diff, multisetHash, txIds, fees, newAccepted);
      var applied := acc.WithDiffInPlace(diff);
      assert applied.Ok?;
      CommitUtxoState(next, diff, multisetHash, newAccepted, acc.Value(), d);
    }

    /** Walks up from the split point to the new selected parent, applying diffs, and calculating
        and verifying those that are missing. */
    method WalkUp(acc: UtxoDiff, splitPoint: Hash, newSelected: Hash, ghost d: Dag)
      requires Valid(d) && newSelected in transactions && Reaching(Chain(), splitPoint, newSelected)
      requires Committed(Chain().t, diffs, splitPoint) && Leads(utxoSet, acc.Value(), StateOf(Chain(), splitPoint), ids)
      modifies acc, this`diffs, this`multisets, this`statuses, this`accepted
      ensures Valid(d) && Decided(Chain(), Records(), utxoSet, acc.Value(), newSelected)
              && old(diffs.Keys) <= diffs.Keys
    {
      hide *;
      ghost var c := Chain();
      var store := manager.reachability.store;
      var t := store.tree;
      ProcessorFacts(this, d);
      ReachingFacts(c, splitPoint, newSelected);
      DecidedNow(c, Records(), utxoSet, acc.Value(), splitPoint);
      var current := splitPoint;
      while current != newSelected
        invariant Valid(d) && Reaching(c, current, newSelected) && current in t.nodes
                  && t.Height(current) <= t.Height(newSelected)
        invariant Decided(c, Records(), utxoSet, acc.Value(), current) && old(diffs.Keys) <= diffs.Keys
        decreases t.Height(newSelected) - t.Height(current)
      {
        ReachingFacts(c, current, newSelected);
        StoreGood(manager, d);
        var step := RootMovement.NextChainAncestor(store, newSelected, current);
        var next := step.value;
        StepFacts(c, current, next, newSelected);
        StepUp(acc, current, next, d);
        current := next;
      }
    }

    method TipsList() returns (tips: seq<Hash>)
      ensures Elems(tips) == bodyTips && NoDup(tips)
    {
      tips := [];
      var rest := bodyTips;
      while rest != {}
        invariant rest <= bodyTips && Elems(tips) == bodyTips - rest && NoDup(tips)
        decreases |rest|
      {
        var x :| x in rest;
        ElemsAppend(tips, x);
        assert forall i :: 0 <= i < |tips| ==> tips[i] in Elems(tips);
        tips := tips + [x];
        rest := rest - {x};
      }
    }

    /** Moves the virtual block on top of the heaviest tip. If a block of the tip's chain does not
        verify, the tip is disqualified, and the UTXO set and the virtual state stay as they are. */
    method ResolveVirtual(daaScore: nat, mergeDepthRoot: Hash, ghost d: Dag) returns (newSelected: Hash)
      requires Valid(d) && mergeDepthRoot in d.Blocks()
      modifies this`diffs, this`multisets, this`statuses, this`accepted, this`utxoSet, this`state
      ensures Valid(d) && Heaviest(manager.ghostdag, bodyTips, newSelected)
      ensures Advanced(old(Chain()), old(Records()), Chain(), Records())
      ensures Resolved(Chain(), statuses, newSelected)
      ensures if newSelected in statuses && statuses[newSelected] == UtxoValid
              then OnTop(d, manager.ghostdag, manager.k, bodyTips, maxBlockParents, mergesetSizeLimit, newSelected,
                         daaScore, state)
              else utxoSet == old(utxoSet) && state == old(state)
    {
      hide *;
      ghost var c, r := Chain(), Records();
      var tips;
      tips, newSelected := SelectTip(d);
      ProcessorFacts(this, d);
      var acc := WalkTo(newSelected, d);
      ProcessorFacts(this, d);
      assert Chain() == c;
      AdvancedHere(c, r, Records());
      DecidedStatus(c, Records(), utxoSet, acc.Value(), newSelected);
      if statuses[newSelected] == UtxoValid {
        MoveVirtual(acc, newSelected, tips, daaScore, mergeDepthRoot, d);
      }
    }

    method SelectTip(ghost d: Dag) returns (tips: seq<Hash>, newSelected: Hash)
      requires Valid(d)
      ensures Elems(tips) == bodyTips && Heaviest(manager.ghostdag, bodyTips, newSelected)
              && newSelected in transactions
    {
      hide *;
      ProcessorFacts(this, d);
      tips := TipsList();
      TipsReady(this, d, tips);
      newSelected := manager.FindSelectedParent(tips);
      HeaviestTip(this, d, tips, newSelected);
    }

    /** Walks from the virtual selected parent to `newSelected`, down and up. */
    method WalkTo(newSelected: Hash, ghost d: Dag) returns (acc: UtxoDiff)
      requires Valid(d) && newSelected in transactions
      modifies this`diffs, this`multisets, this`statuses, this`accepted
      ensures fresh(acc) && Valid(d) && Decided(Chain(), Records(), utxoSet, acc.Value(), newSelected)
              && old(diffs.Keys) <= diffs.Keys
    {
      hide *;
      ghost var c := Chain();
      ProcessorFacts(this, d);
      VirtualUndone(c, diffs, utxoSet, state);
      acc := new UtxoDiff(UtxoDiffs.Reversed(state.diff));
      var splitPoint := WalkDown(acc, newSelected, d);
      WalkUp(acc, splitPoint, newSelected, d);
    }

    /** Puts the virtual block on top of the valid block that the accumulated diff leads to. */
    method MoveVirtual(acc: UtxoDiff, newSelected: Hash, tips: seq<Hash>, daaScore: nat, mergeDepthRoot: Hash,
                       ghost d: Dag)
      requires Valid(d) && mergeDepthRoot in d.Blocks() && Elems(tips) == bodyTips
               && Heaviest(manager.ghostdag, bodyTips, newSelected)
      requires Whole(Chain()) && newSelected in transactions && Committed(Chain().t, diffs, newSelected)
      requires Leads(utxoSet, acc.Value(), StateOf(Chain(), newSelected), ids)
      modifies acc, this`utxoSet, this`state
      ensures Valid(d)
      ensures OnTop(d, manager.ghostdag, manager.k, bodyTips, maxBlockParents, mergesetSizeLimit, newSelected,
                    daaScore, state)
    {
      hide *;
      var next := NextVirtual(acc, newSelected, tips, daaScore, mergeDepthRoot, d);
      ProcessorFacts(this, d);
      ghost var c, r := Chain(), Records();
      utxoSet := Applied(utxoSet, acc.Value());
      state := next;
      assert Chain() == c && Records() == r;
      ProcessorKeeps(this, d, c, r);
    }

    /** The virtual state on top of a valid block; the accumulated diff now leads to its set. */
    method NextVirtual(acc: UtxoDiff, newSelected: Hash, tips: seq<Hash>, daaScore: nat, mergeDepthRoot: Hash,
                       ghost d: Dag)
      returns (next: VirtualState)
      requires Valid(d) && mergeDepthRoot in d.Blocks() && Elems(tips) == bodyTips
               && Heaviest(manager.ghostdag, bodyTips, newSelected)
      requires Whole(Chain()) && newSelected in transactions && Committed(Chain().t, diffs, newSelected)
      requires Leads(utxoSet, acc.Value(), StateOf(Chain(), newSelected), ids)
      modifies acc
      ensures VirtualRight(Chain(), diffs, Applied(utxoSet, acc.Value()), next) && VirtualData(manager, next, d)
      ensures OnTop(d, manager.ghostdag, manager.k, bodyTips, maxBlockParents, mergesetSizeLimit, newSelected,
                    daaScore, next)
    {
      hide *;
      ghost var c, r := Chain(), Records();
      ProcessorFacts(this, d);
      TipsReady(this, d, tips);
      LeadsView(utxoSet, acc.Value(), StateOf(c, newSelected), c.ids);
      var base := Applied(utxoSet, acc.Value());
      var parents, data, chosen, first :=
        PickVirtualParents(manager, newSelected, tips, maxBlockParents, mergesetSizeLimit, mergeDepthRoot, d);
      VirtualMerges(this, d, parents, data);
      ManagerFacts(manager, d);
      MakeCalculable(c, r, base, data, Elems(parents), d);
      var diff, multisetHash, txIds, fees, newAccepted := CalculateState(data, base, daaScore, Elems(parents), d);
      CalculatedFacts(c, base, data, daaScore, diff, multisetHash, txIds, fees, newAccepted);
      LeadsOn(utxoSet, acc.Value(), StateOf(c, newSelected), diff, c.ids);
      var applied := acc.WithDiffInPlace(diff);
      assert applied.Ok?;
      LeadsView(utxoSet, acc.Value(), Applied(base, diff), c.ids);
      next := VirtualState(parents, data, daaScore, multisetHash, diff, txIds);
      VirtualMoved(c, r.diffs, Applied(base, diff), next, fees, newAccepted);
      VirtualDataNow(manager, next, d);
      NowOnTop(d, manager.ghostdag, manager.k, bodyTips, maxBlockParents, mergesetSizeLimit, newSelected, next);
    }
  }

  /** The status of a block is its verdict. */
  ghost predicate Resolved(c: Chain, statuses: map<Hash, Status>, b: Hash) {
    Whole(c) && b in c.bodies && b in statuses && statuses[b] == if Verdict(c, b) then UtxoValid
      else DisqualifiedFromChain
  }

  /** The virtual block has `sp` as selected parent, its parents are an antichain of tips and their
      past within the limits, and its data are the GHOSTDAG data for them. */
  ghost predicate OnTop(d: Dag, g: Colours, k: nat, tips: set<Hash>, maxParents: nat, sizeLimit: nat, sp: Hash,
                        daaScore: nat, v: VirtualState)
  {
    && v.data.selectedParent == sp && v.daaScore == daaScore && Finished(d, g, k, Elems(v.parents), v.data)
    && NoDup(v.parents) && Antichain(d, Elems(v.parents)) && Elems(v.parents) <= PastBelow(d, tips)
    && |v.parents| <= maxParents && 1 + |MergeSet(d, Elems(v.parents), sp)| <= sizeLimit
  }

  lemma NowOnTop(d: Dag, g: Colours, k: nat, tips: set<Hash>, maxParents: nat, sizeLimit: nat, sp: Hash,
                 v: VirtualState)
    requires v.data.selectedParent == sp && Finished(d, g, k, Elems(v.parents), v.data)
    requires NoDup(v.parents) && Antichain(d, Elems(v.parents)) && Elems(v.parents) <= PastBelow(d, tips)
    requires |v.parents| <= maxParents && 1 + |MergeSet(d, Elems(v.parents), sp)| <= sizeLimit
    ensures OnTop(d, g, k, tips, maxParents, sizeLimit, sp, v.daaScore, v)
  {
    hide Finished, Antichain, MergeSet, PastBelow;
  }

  // ----- the stores of a processor -----

  lemma ChainFields(p: VirtualProcessor)
    ensures var c, r := p.Chain(), p.Records();
            && c.t == p.manager.reachability.store.tree && c.g == p.manager.ghostdag && c.bodies == p.transactions
            && c.daaScores == p.daaScores && c.rules == p.rules && c.ids == p.ids
            && r.diffs == p.diffs && r.multisets == p.multisets && r.accepted == p.accepted && r.statuses == p.statuses
  {
  }

  lemma ProcessorFacts(p: VirtualProcessor, d: Dag)
    requires p.Valid(d)
    ensures p.manager.Valid(d) && p.headersSelectedTip in d.Blocks() && p.maxBlockParents >= 1
            && p.mergesetSizeLimit >= 1
    ensures Closed(d, p.transactions.Keys) && TipsRight(d, p.transactions.Keys, p.bodyTips)
            && VirtualData(p.manager, p.state, d)
    ensures var c, r := p.Chain(), p.Records();
            && StatesRecorded(c, r) && Whole(c) && VirtualRight(c, p.diffs, p.utxoSet, p.state)
            && c.t == p.manager.reachability.store.tree && c.g == p.manager.ghostdag && c.bodies == p.transactions
            && c.daaScores == p.daaScores && c.rules == p.rules && c.ids == p.ids
            && r.diffs == p.diffs && r.multisets == p.multisets && r.accepted == p.accepted && r.statuses == p.statuses
            && c.t.WF() && c.t.nodes.Keys == c.g.Keys && c.g.Keys == d.Blocks() && r.statuses.Keys == c.g.Keys
            && c.daaScores.Keys == c.g.Keys && c.bodies.Keys <= c.g.Keys && c.t.origin in c.bodies
            && c.t.origin == p.manager.genesis
  {
    hide GhostdagManager.Valid, Whole, Closed, TipsRight, VirtualRight, VirtualData;
    WholeFacts(p.Chain());
    ManagerFacts(p.manager, d);
    OriginIsGenesis(p.manager, d);
  }

  lemma OriginIsGenesis(m: GhostdagManager, d: Dag)
    requires m.Valid(d)
    ensures m.reachability.store.tree.origin == m.genesis
  {
  }

  lemma ProcessorKeeps(p: VirtualProcessor, d: Dag, c: Chain, r: Records)
    requires p.manager.Valid(d) && p.headersSelectedTip in d.Blocks() && p.maxBlockParents >= 1
             && p.mergesetSizeLimit >= 1
    requires Closed(d, p.transactions.Keys) && TipsRight(d, p.transactions.Keys, p.bodyTips)
             && VirtualData(p.manager, p.state, d)
    requires p.Chain() == c && p.Records() == r && StatesRecorded(c, r) && Whole(c)
             && VirtualRight(c, p.diffs, p.utxoSet, p.state)
    ensures p.Valid(d)
  {
    hide GhostdagManager.Valid, Closed, TipsRight, StatesRecorded, VirtualRight, Whole, VirtualData;
  }

  /** The records survive when more is known and some undecided status changes. */
  lemma ProcessorGrown(p: VirtualProcessor, d: Dag, c: Chain, r: Records)
    requires p.manager.Valid(d) && p.headersSelectedTip in d.Blocks() && p.maxBlockParents >= 1
             && p.mergesetSizeLimit >= 1
    requires Closed(d, p.transactions.Keys) && TipsRight(d, p.transactions.Keys, p.bodyTips)
             && VirtualData(p.manager, p.state, d)
    requires StatesRecorded(c, r) && Whole(c) && VirtualRight(c, r.diffs, p.utxoSet, p.state)
    requires Agree(c, p.Chain()) && c.bodies.Keys <= p.transactions.Keys && p.statuses.Keys == p.manager.ghostdag.Keys
    requires p.diffs == r.diffs && p.multisets == r.multisets && p.accepted == r.accepted
    requires StatusesKept(c, r, p.Chain(), p.Records())
    ensures p.Valid(d) && Advanced(c, r, p.Chain(), p.Records())
  {
    hide GhostdagManager.Valid, Closed, TipsRight, StatesRecorded, VirtualRight, Whole, Agree, StatusesKept,
         VirtualData;
    var c', r' := p.Chain(), p.Records();
    AgreeRules(c, c');
    RecordsCarryOver(c, r, c', r');
    VirtualCarriesOver(c, c', p.diffs, p.utxoSet, p.state);
    ProcessorKeeps(p, d, c', r');
  }

  lemma VirtualDataNow(m: GhostdagManager, v: VirtualState, d: Dag)
    requires Naive(d, m.ghostdag, m.works, m.k, Elems(v.parents), v.data)
    ensures VirtualData(m, v, d)
  {
    hide Naive;
  }

  lemma VirtualDataMeans(m: GhostdagManager, v: VirtualState, d: Dag)
    requires VirtualData(m, v, d)
    ensures Naive(d, m.ghostdag, m.works, m.k, Elems(v.parents), v.data)
  {
    hide Naive;
  }

  /** A new block changes nothing for the virtual one. */
  lemma VirtualDataGrows(d: Dag, g: Colours, works: map<Hash, nat>, k: nat, h: HeaderCommit.Header, data: Data,
                         v: VirtualState)
    requires Coloured(d, g, k) && works.Keys == g.Keys && Block(d, h.hash, Elems(h.parents)).Valid()
    requires Naive(d, g, works, k, Elems(h.parents), data) && Naive(d, g, works, k, Elems(v.parents), v.data)
    ensures Naive(Block(d, h.hash, Elems(h.parents)), g[h.hash := data], works[h.hash := h.work], k,
                  Elems(v.parents), v.data)
  {
    hide *;
    var ps, d', g' := Elems(h.parents), Block(d, h.hash, Elems(h.parents)), g[h.hash := data];
    NaiveFacts(d, g, works, k, ps, data);
    NaiveFacts(d, g, works, k, Elems(v.parents), v.data);
    GrownAlike(d, g, k, h.hash, ps, data);
    GrownKeys(d, g, k, h.hash, ps, data);
    StillSameWorks(works, h.hash, h.work);
    NaiveAlike(d, g, d', g', g.Keys, works, works[h.hash := h.work], k, Elems(v.parents), v.data);
  }

  lemma StillSameWorks(works: map<Hash, nat>, b: Hash, work: nat)
    requires b !in works
    ensures SameWorks(works, works[b := work], works.Keys)
  {
  }

  // ----- genesis -----

  lemma GenesisReady(m: GhostdagManager, body: seq<Transaction>, ids: Ids)
    requires m.Valid(Origin(m.genesis)) && GenesisBody(body, ids)
    ensures body != [] && Elems([m.genesis]) == {m.genesis} <= Origin(m.genesis).Blocks()
    ensures NoneBelowHeaviest(Origin(m.genesis), m.ghostdag, Elems([m.genesis]))
  {
    hide GhostdagManager.Valid;
  }

  lemma GenesisData(d: Dag, g: Colours, k: nat, genesis: Hash, data: Data)
    requires d == Origin(genesis) && Finished(d, g, k, {genesis}, data)
    ensures data.selectedParent == genesis && data.blues == [genesis] && data.reds == []
  {
    hide Partial;
    assert MergeSet(d, {genesis}, genesis) == {};
    ElemsEmpty();
    Sorting.NothingListed(data.reds);
    Sorting.NothingListed(data.blues[1..]);
  }

  lemma GenesisTips(genesis: Hash)
    ensures Closed(Origin(genesis), {genesis}) && TipsRight(Origin(genesis), {genesis}, {genesis})
  {
  }

  lemma GenesisValid(p: VirtualProcessor, data: Data, d: Dag)
    requires d == Origin(p.manager.genesis) && p.manager.Valid(d) && p.maxBlockParents >= 1 && p.mergesetSizeLimit >= 1
    requires Elems([p.manager.genesis]) == {p.manager.genesis}
    requires Finished(d, p.manager.ghostdag, p.manager.k, Elems([p.manager.genesis]), data)
             && VirtualData(p.manager, p.state, d)
    requires Hashable(p.rules.element, p.rules.limbs) && InvertsRight(p.rules.inverse, p.rules.limbs)
    requires var genesis := p.manager.genesis;
             && genesis in p.transactions && GenesisBody(p.transactions[genesis], p.ids)
             && p.transactions[genesis] != []
             && p.transactions.Keys == {genesis} && p.daaScores.Keys == {genesis} && p.headersSelectedTip == genesis
             && p.bodyTips == {genesis} && p.statuses == map[genesis := UtxoValid] && p.diffs == map[]
             && p.utxoSet == map[]
             && p.multisets == map[genesis := EmptyHash(p.rules.limbs)] && p.accepted == map[genesis := {}]
             && p.state == VirtualState([genesis], data, 0, EmptyHash(p.rules.limbs), Diff(map[], map[]),
                                        [p.transactions[genesis][0].id])
    ensures p.Valid(d)
  {
    hide *;
    var c, genesis := p.Chain(), p.manager.genesis;
    ChainFields(p);
    OriginIsGenesis(p.manager, d);
    GenesisStores(p.manager, d);
    GenesisData(d, c.g, p.manager.k, genesis, data);
    GenesisWhole(c);
    HashableSize(c.rules.element, c.rules.limbs);
    GenesisRecorded(c);
    GenesisVirtual(c, data);
    GenesisTips(genesis);
    ProcessorKeeps(p, d, c, p.Records());
  }

  lemma GenesisStores(m: GhostdagManager, d: Dag)
    requires d == Origin(m.genesis) && m.Valid(d)
    ensures var t := m.reachability.store.tree;
            && t.WF() && t.nodes.Keys == {m.genesis} && m.ghostdag.Keys == {m.genesis}
            && m.ghostdag[m.genesis].blueScore == 0
            && m.genesis in d.Blocks()
  {
    hide Coloured, ReachabilityService.Serves;
    ManagerFacts(m, d);
    ColouredChained(d, m.ghostdag, m.k);
    ServesTree(m.reachability, d);
  }

  lemma ServesTree(service: ReachabilityService, d: Dag)
    requires service.Serves(d)
    ensures service.store.tree.WF() && service.store.tree.nodes.Keys == d.Blocks()
    ensures Good(service.store.tree, service.store.interval, NONE)
  {
    hide Mirrors;
    var store := service.store;
    MirrorFacts(store.tree, store.interval, store.futureCovering, store.reindexRoot, d, service.slack);
  }

  // ----- blocks come in -----

  lemma HeaderKeeps(p: VirtualProcessor, c: Chain, r: Records, d: Dag, h: HeaderCommit.Header, data: Data,
                    daaScore: nat)
    requires StatesRecorded(c, r) && Whole(c) && VirtualRight(c, r.diffs, p.utxoSet, p.state) && c.g.Keys == d.Blocks()
    requires r.statuses.Keys == c.g.Keys && c.bodies.Keys <= c.g.Keys && p.maxBlockParents >= 1
             && p.mergesetSizeLimit >= 1
    requires Closed(d, c.bodies.Keys) && TipsRight(d, c.bodies.Keys, p.bodyTips) && data.selectedParent in c.t.nodes
    requires Block(d, h.hash, Elems(h.parents)).Valid() && h.hash != NONE
             && p.manager.Valid(Block(d, h.hash, Elems(h.parents)))
             && VirtualData(p.manager, p.state, Block(d, h.hash, Elems(h.parents)))
    requires p.headersSelectedTip in Block(d, h.hash, Elems(h.parents)).Blocks()
    requires p.manager.reachability.store.tree == c.t.Insert(h.hash, data.selectedParent)
             && p.manager.ghostdag == c.g[h.hash := data]
    requires p.transactions == c.bodies && p.daaScores == c.daaScores[h.hash := daaScore] && p.rules == c.rules
             && p.ids == c.ids
    requires p.diffs == r.diffs && p.multisets == r.multisets && p.accepted == r.accepted
             && p.statuses == r.statuses[h.hash := HeaderOnly]
    ensures p.Valid(Block(d, h.hash, Elems(h.parents))) && Advanced(c, r, p.Chain(), p.Records())
  {
    hide *;
    var ps := Elems(h.parents);
    NewHash(d, h.hash, ps);
    HeaderCarries(c, h.hash, data, daaScore);
    ChainFields(p);
    HeaderOnTop(d, c.bodies.Keys, p.bodyTips, h.hash, ps);
    OneStatus(c, r, p.Chain(), h.hash, HeaderOnly);
    assert p.Records() == r.(statuses := r.statuses[h.hash := HeaderOnly]);
    ProcessorGrown(p, Block(d, h.hash, ps), c, r);
  }

  lemma StoredIs(p: VirtualProcessor)
    ensures p.Stored() == BodyStores(p.transactions, p.bodyTips, p.statuses)
  {
  }

  lemma ReceivedKnown(d: Dag, g: Colours, hash: Hash, txs: seq<Transaction>, checks: Checks, stores: BodyStores,
                      outcome: Reception)
    requires hash in g && hash in stores.statuses && stores.statuses[hash] != HeaderOnly
    requires outcome == if stores.statuses[hash] == Invalid then Refused(KnownInvalid) else Now(stores.statuses[hash])
    ensures Received(d, g, hash, txs, checks, stores, stores, outcome)
  {
  }

  lemma ReceivedBad(d: Dag, g: Colours, hash: Hash, txs: seq<Transaction>, checks: Checks, stores: BodyStores,
                    error: RuleError)
    requires hash in g && hash in stores.statuses && stores.statuses[hash] == HeaderOnly
    requires var parentsKnown := d.Parents(hash) <= stores.transactions.Keys;
             && !(Isolated(txs, checks) && checks.merkleRoot && parentsKnown && txs[0].blueScore == g[hash].blueScore
                  && checks.inContext)
             && (error == BadMerkleRoot <==> txs != [] && !checks.merkleRoot)
             && (error.MissingParents? <==> Isolated(txs, checks) && checks.merkleRoot && !parentsKnown)
    ensures var after := if error == BadMerkleRoot || error.MissingParents? then stores
                         else stores.(statuses := stores.statuses[hash := Invalid]);
            Received(d, g, hash, txs, checks, stores, after, Refused(error))
  {
    hide Isolated;
  }

  lemma ReceivedGood(d: Dag, g: Colours, hash: Hash, txs: seq<Transaction>, checks: Checks, before: BodyStores,
                     after: BodyStores)
    requires hash in g && hash in before.statuses && before.statuses[hash] == HeaderOnly && Isolated(txs, checks)
             && checks.merkleRoot
    requires d.Parents(hash) <= before.transactions.Keys && txs[0].blueScore == g[hash].blueScore && checks.inContext
    requires after == BodyStores(before.transactions[hash := txs], before.tips - d.Parents(hash) + {hash},
                                 before.statuses[hash := UtxoPending])
    ensures Received(d, g, hash, txs, checks, before, after, Now(UtxoPending))
  {
    hide Isolated;
  }

  /** The label space has `space` labels, for `blocks` blocks so far. */
  ghost predicate Holds(store: Store, blocks: nat, space: nat)
    reads store
  {
    && |store.tree.nodes| == blocks && store.tree.origin in store.interval
    && Size(store.interval[store.tree.origin]) == space
  }

  lemma HoldsMeans(store: Store, blocks: nat, space: nat)
    requires Holds(store, blocks, space)
    ensures |store.tree.nodes| == blocks && store.tree.origin in store.interval
    ensures Size(store.interval[store.tree.origin]) == space
  {
  }

  lemma HoldsNow(store: Store, blocks: nat, space: nat)
    requires |store.tree.nodes| == blocks && store.tree.origin in store.interval
    requires Size(store.interval[store.tree.origin]) == space
    ensures Holds(store, blocks, space)
  {
  }

  lemma NewHash(d: Dag, h: Hash, ps: set<Hash>)
    requires Block(d, h, ps).Valid()
    ensures h !in d.Blocks()
  {
  }

  lemma BodyStatus(c: Chain, r: Records, b: Hash)
    requires StatesRecorded(c, r) && b in c.g && b in r.statuses
    ensures b in c.bodies <==> r.statuses[b] != HeaderOnly && r.statuses[b] != Invalid
  {
    hide Whole, Verdict;
    StatusOf(c, r, b);
  }

  lemma ParentsOnRecord(m: GhostdagManager, d: Dag, b: Hash)
    requires m.Valid(d) && b in d.Blocks()
    ensures b in m.relations && b in m.ghostdag && Elems(m.relations[b]) == d.Parents(b)
  {
    hide Coloured, ReachabilityService.Serves;
    ColouredChained(d, m.ghostdag, m.k);
  }

  lemma InvalidKeeps(p: VirtualProcessor, c: Chain, r: Records, d: Dag, b: Hash)
    requires p.manager.Valid(d) && p.headersSelectedTip in d.Blocks() && p.maxBlockParents >= 1
             && p.mergesetSizeLimit >= 1
    requires Closed(d, p.transactions.Keys) && TipsRight(d, p.transactions.Keys, p.bodyTips)
             && VirtualData(p.manager, p.state, d)
    requires StatesRecorded(c, r) && Whole(c) && VirtualRight(c, r.diffs, p.utxoSet, p.state) && p.Chain() == c
             && c.bodies == p.transactions
    requires c.g == p.manager.ghostdag && r.statuses.Keys == c.g.Keys && b in c.g && b !in c.bodies
    requires p.diffs == r.diffs && p.multisets == r.multisets && p.accepted == r.accepted
             && p.statuses == r.statuses[b := Invalid]
    ensures p.Valid(d) && Advanced(c, r, p.Chain(), p.Records())
  {
    hide *;
    AgreeSelf(c);
    ChainFields(p);
    OneStatus(c, r, p.Chain(), b, Invalid);
    assert p.Records() == r.(statuses := r.statuses[b := Invalid]);
    ProcessorGrown(p, d, c, r);
  }

  lemma AdvancedHere(c: Chain, r: Records, r': Records)
    requires Whole(c) && r.diffs.Keys <= r'.diffs.Keys
    ensures Advanced(c, r, c, r')
  {
    hide Whole, Agree;
    AgreeSelf(c);
  }

  lemma AdvancedNot(c: Chain, r: Records)
    requires Whole(c)
    ensures Advanced(c, r, c, r)
  {
    hide Whole, Agree;
    AgreeSelf(c);
  }

  lemma AgreeSelf(c: Chain)
    requires Whole(c)
    ensures Agree(c, c)
  {
    hide Hashable, InvertsRight, BodyRight;
  }

  lemma BodyKeeps(p: VirtualProcessor, c: Chain, r: Records, d: Dag, b: Hash, txs: seq<Transaction>, checks: Checks,
                  tips: set<Hash>)
    requires p.manager.Valid(d) && p.headersSelectedTip in d.Blocks() && p.maxBlockParents >= 1
             && p.mergesetSizeLimit >= 1
    requires Closed(d, c.bodies.Keys) && TipsRight(d, c.bodies.Keys, tips) && c.g.Keys == d.Blocks()
             && VirtualData(p.manager, p.state, d)
    requires StatesRecorded(c, r) && Whole(c) && VirtualRight(c, r.diffs, p.utxoSet, p.state)
    requires c.g == p.manager.ghostdag && r.statuses.Keys == c.g.Keys && b in c.g && b !in c.bodies && b in r.statuses
    requires d.Parents(b) <= c.bodies.Keys && Isolated(txs, checks) && txs[0].blueScore == c.g[b].blueScore
    requires forall i :: 0 <= i < |txs| ==> c.ids(txs[i].id) == txs[i]
    requires c.t == p.manager.reachability.store.tree && p.daaScores == c.daaScores && p.rules == c.rules
             && p.ids == c.ids
    requires p.transactions == c.bodies[b := txs] && p.bodyTips == tips - d.Parents(b) + {b}
    requires p.diffs == r.diffs && p.multisets == r.multisets && p.accepted == r.accepted
             && p.statuses == r.statuses[b := UtxoPending]
    ensures p.Valid(d) && Advanced(c, r, p.Chain(), p.Records())
  {
    hide *;
    var c' := c.(bodies := c.bodies[b := txs]);
    ChainFields(p);
    assert p.Chain() == c';
    WholeFacts(c);
    NewBodyRight(p.manager, c, d, b, txs, checks);
    BodyCarries(c, b, txs);
    TipAdded(d, c.bodies.Keys, tips, b);
    assert p.transactions.Keys == c.bodies.Keys + {b};
    OneStatus(c, r, p.Chain(), b, UtxoPending);
    assert p.Records() == r.(statuses := r.statuses[b := UtxoPending]);
    ProcessorGrown(p, d, c, r);
  }

  lemma NewBodyRight(m: GhostdagManager, c: Chain, d: Dag, b: Hash, txs: seq<Transaction>, checks: Checks)
    requires m.Valid(d) && Whole(c) && c.g == m.ghostdag && c.t == m.reachability.store.tree && Closed(d, c.bodies.Keys)
    requires b in c.g && b !in c.bodies && c.t.nodes.Keys == c.g.Keys && c.bodies.Keys <= c.g.Keys
             && c.g.Keys == d.Blocks()
    requires d.Parents(b) <= c.bodies.Keys && Isolated(txs, checks) && txs[0].blueScore == c.g[b].blueScore
    requires forall i :: 0 <= i < |txs| ==> c.ids(txs[i].id) == txs[i]
    ensures BodyRight(c.(bodies := c.bodies[b := txs]), b)
  {
    hide *;
    SoundWhenIsolated(txs, checks, c.ids);
    WholeFacts(c);
    OriginIsGenesis(m, d);
    StoredMerges(m, d, b);
    BelowHasBodies(d, c.bodies.Keys, d.Parents(b));
    MergedHaveBodies(d, c.g, d.Parents(b), c.g[b], c.bodies.Keys);
    BlueScoreGrows(m, d, b);
    BodyRightNow(c, b, txs);
  }

  lemma BodyRightNow(c: Chain, b: Hash, txs: seq<Transaction>)
    requires c.t.nodes.Keys == c.g.Keys && c.bodies.Keys <= c.g.Keys && b in c.g && SoundBody(txs, c.ids) && txs != []
    requires txs[0].blueScore == c.g[b].blueScore && c.g[b].blues != [] && c.g[b].selectedParent in c.bodies
    requires BlockWindows.MergesetOf(c.g[b]) <= c.bodies.Keys && c.t.nodes[b].parent == c.g[b].selectedParent
    requires c.g[c.g[b].selectedParent].blueScore < c.g[b].blueScore
    ensures BodyRight(c.(bodies := c.bodies[b := txs]), b)
  {
    hide SoundBody, BlockWindows.MergesetOf;
  }

  lemma SoundWhenIsolated(txs: seq<Transaction>, checks: Checks, ids: Ids)
    requires Isolated(txs, checks) && forall i :: 0 <= i < |txs| ==> ids(txs[i].id) == txs[i]
    ensures txs != [] && SoundBody(txs, ids)
  {
    hide NoDoubleSpends, NoChaining, DistinctIds;
    forall i | 1 <= i < |txs| ensures txs[i].inputs != [] { assert TxIsolated(txs[i], checks.limits); }
    assert TxIsolated(txs[0], checks.limits);
  }

  lemma StoredMerges(m: GhostdagManager, d: Dag, b: Hash)
    requires m.Valid(d) && b in d.Blocks() && b != m.genesis
    ensures b in m.ghostdag && Merges(d, m.ghostdag, d.Parents(b), m.ghostdag[b])
            && m.ghostdag[b].selectedParent in m.ghostdag
    ensures b in m.reachability.store.tree.nodes
            && m.reachability.store.tree.nodes[b].parent == m.ghostdag[b].selectedParent
  {
    hide Merges, Exact, ReachabilityService.Serves;
    ManagerFacts(m, d);
    assert ColouredAt(d, m.ghostdag, m.k, b);
  }

  /** A block is bluer than its selected parent. */
  lemma BlueScoreGrows(m: GhostdagManager, d: Dag, b: Hash)
    requires m.Valid(d) && b in d.Blocks() && b != m.genesis
    ensures var g := m.ghostdag;
            b in g && g[b].selectedParent in g && g[g[b].selectedParent].blueScore < g[b].blueScore
  {
    hide Exact, ReachabilityService.Serves;
    var g := m.ghostdag;
    ManagerFacts(m, d);
    assert ColouredAt(d, g, m.k, b);
    var sp := g[b].selectedParent;
    if sp != d.Root() { assert ColouredAt(d, g, m.k, sp); }
    assert g[sp].blueScore == |BlueSet(d, g, sp)|;
    BlueInPast(d, g, m.k, sp);
    PastIn(d, sp);
    assert g[b].blues[0] == sp && sp in Elems(g[b].blues);
    assert BlueSet(d, g, sp) < BlueSet(d, g, b);
    SubsetSize(BlueSet(d, g, sp), BlueSet(d, g, b));
  }

  lemma NoBodyYet(c: Chain, r: Records, b: Hash)
    requires StatesRecorded(c, r) && b in c.g && b in r.statuses && r.statuses[b] == HeaderOnly
             && c.t.origin in c.bodies
    ensures b !in c.bodies && b != c.t.origin
  {
    hide StatesRecorded;
    BodyStatus(c, r, b);
  }

  // ----- calculating UTXO states -----

  /** What is known at the selected parent. */
  ghost function KnownAt(c: Chain, r: Records, data: Data): Known
    requires Whole(c) && MergesetKnown(c, data)
  {
    var sp := data.selectedParent;
    Known(StateOf(c, sp), if sp in r.accepted then r.accepted[sp] else {}, c.ids)
  }

  /** A state can be calculated: the selected parent is committed, and what is merged has bodies. */
  ghost predicate Calculable(c: Chain, r: Records, base: Collection, data: Data, parents: set<Hash>, d: Dag) {
    && StatesRecorded(c, r) && Whole(c) && MergesetKnown(c, data) && Committed(c.t, r.diffs, data.selectedParent)
    && base == StateOf(c, data.selectedParent) && Merges(d, c.g, parents, data) && WorkGrows(d, c.g)
  }

  lemma CalculableFacts(c: Chain, r: Records, base: Collection, data: Data, parents: set<Hash>, d: Dag)
    requires Calculable(c, r, base, data, parents, d)
    ensures StatesRecorded(c, r) && Whole(c) && MergesetKnown(c, data) && Committed(c.t, r.diffs, data.selectedParent)
    ensures data.selectedParent in c.bodies && base == StateOf(c, data.selectedParent) && Merges(d, c.g, parents, data)
            && WorkGrows(d, c.g)
  {
    hide StatesRecorded, Whole, StateOf, Merges, WorkGrows, Committed;
  }

  lemma MakeCalculable(c: Chain, r: Records, base: Collection, data: Data, parents: set<Hash>, d: Dag)
    requires StatesRecorded(c, r) && Whole(c) && MergesetKnown(c, data) && Committed(c.t, r.diffs, data.selectedParent)
    requires data.selectedParent in c.bodies && base == StateOf(c, data.selectedParent)
             && Merges(d, c.g, parents, data) && WorkGrows(d, c.g)
    ensures Calculable(c, r, base, data, parents, d)
  {
    hide StatesRecorded, Whole, StateOf, Merges, WorkGrows, Committed;
  }

  lemma CalculationReady(c: Chain, r: Records, data: Data)
    requires StatesRecorded(c, r) && Whole(c) && MergesetKnown(c, data) && Committed(c.t, r.diffs, data.selectedParent)
    ensures var sp, known := data.selectedParent, KnownAt(c, r, data);
            && sp in r.multisets && |r.multisets[sp]| == c.rules.limbs && known.base == StateOf(c, sp)
            && known.ids == c.ids
            && Hashable(c.rules.element, c.rules.limbs) && InvertsRight(c.rules.inverse, c.rules.limbs)
            && HashesTo(r.multisets[sp], known.base, c.rules.element, c.rules.limbs)
            && Ledger(known.base, known.accepted, c.ids) && sp in c.g
            && Scored(known.accepted, c.ids, c.g[sp].blueScore)
    ensures data.blues != [] && BlockWindows.MergesetOf(data) <= c.g.Keys
    ensures var order := BlockWindows.MergedOrder(c.g, data);
            && (forall i :: 0 <= i < |order| ==> order[i] in c.bodies)
            && BodiesAt(c.bodies, order) == BodiesOf(c, data)
    ensures BodiesOf(c, data)[0][0].id !in KnownAt(c, r, data).accepted
  {
    hide StatesRecorded, Whole, StateOf, Hashable, InvertsRight, HashesTo, Ledger, Scored, SoundBody,
         BlockWindows.MergesetOf, BlockWindows.MergedOrder;
    var sp := data.selectedParent;
    WholeFacts(c);
    OrderKnown(c, data);
    CommittedState(c, r, sp);
    StateFacts(c, StateOf(c, sp), r.accepted[sp], r.multisets[sp], c.g[sp].blueScore);
    CoinbaseNew(c, sp, r.accepted[sp]);
  }

  lemma CalculationDone(c: Chain, r: Records, data: Data, daaScore: nat, ctx: UtxoProcessingContext, diff: Diff,
                        multisetHash: Element,
                        acceptedTxIds: seq<nat>, fees: seq<nat>, accepted: set<nat>)
    requires StatesRecorded(c, r) && Whole(c) && MergesetKnown(c, data) && Committed(c.t, r.diffs, data.selectedParent)
    requires var known, blocks := KnownAt(c, r, data), BodiesOf(c, data);
             var start := Spend(known.base, blocks[0][0], daaScore);
             var view := AfterBlocks(c.rules.check, start, blocks, daaScore);
             && known.base == StateOf(c, data.selectedParent) && known.ids == c.ids
             && ctx.Shows(known, view, accepted) && ctx.mergesetDiff.Value() == diff && CoherentDiff(diff, c.ids)
             && HashesTo(multisetHash, view, c.rules.element, c.rules.limbs)
             && NoOtherCoinbase(known.accepted, accepted, blocks[0][0].id, c.ids)
             && fees == FeesOf(c.rules.check, start, blocks, daaScore)
             && acceptedTxIds == [blocks[0][0].id] + IdsOf(AcceptedFrom(c.rules.check, start, blocks, daaScore))
    ensures Calculated(c, StateOf(c, data.selectedParent), data, daaScore, diff, multisetHash, acceptedTxIds, fees,
                       accepted)
  {
    hide StatesRecorded, Whole, StateOf, HashesTo, Ledger, Scored, SoundBody, AfterBlocks, Spend, FeesOf, AcceptedFrom,
         IdsOf, BodiesOf,
         Balanced, Tracks, Hashable, ValidOver, Applied, Coherent, MergesetKnown, NoOtherCoinbase, InvertsRight;
    var sp := data.selectedParent;
    KnownParent(c, data);
    CalculationReady(c, r, data);
    forall score | c.g[sp].blueScore < score ensures Scored(accepted, c.ids, score) {
      ScoreGrows(c, sp, KnownAt(c, r, data).accepted, accepted, score);
    }
  }

  lemma KnownParent(c: Chain, data: Data)
    requires Whole(c) && MergesetKnown(c, data)
    ensures data.selectedParent in c.bodies && data.selectedParent in c.g && c.bodies[data.selectedParent] != []
    ensures BodiesOf(c, data)[0] == c.bodies[data.selectedParent]
  {
    hide Whole, SoundBody;
    WholeFacts(c);
    OrderKnown(c, data);
  }

  lemma CalculatedFacts(c: Chain, base: Collection, data: Data, daaScore: nat, diff: Diff, multisetHash: Element,
                        acceptedTxIds: seq<nat>, fees: seq<nat>, accepted: set<nat>)
    requires Calculated(c, base, data, daaScore, diff, multisetHash, acceptedTxIds, fees, accepted)
    ensures Whole(c) && MergesetKnown(c, data)
    ensures var view, blocks := StateAfter(c, base, data, daaScore), BodiesOf(c, data);
            && ValidOver(base, diff) && Applied(base, diff) == view && CoherentDiff(diff, c.ids)
            && HashesTo(multisetHash, view, c.rules.element, c.rules.limbs) && Ledger(view, accepted, c.ids)
            && acceptedTxIds == AcceptedIds(c, base, data, daaScore)
            && fees == FeesOf(c.rules.check, Spend(base, blocks[0][0], daaScore), blocks, daaScore)
  {
    hide Whole, MergesetKnown, ValidOver, Applied, CoherentDiff, HashesTo, Ledger, AcceptedIds, FeesOf, StateAfter,
         BodiesOf;
  }

  // ----- decided blocks -----

  /** Either `b` is valid and the accumulated diff leads to its set, or `b` is disqualified. */
  ghost predicate Decided(c: Chain, r: Records, base: Collection, acc: Diff, b: Hash) {
    && Whole(c) && b in c.bodies && b in r.statuses
    && if Committed(c.t, r.diffs, b) then r.statuses[b] == UtxoValid && Leads(base, acc, StateOf(c, b), c.ids)
       else r.statuses[b] == DisqualifiedFromChain
  }

  lemma DecidedAgainst(c: Chain, r: Records, base: Collection, acc: Diff, b: Hash)
    requires Whole(c) && b in c.bodies && b in r.statuses && !Committed(c.t, r.diffs, b)
             && r.statuses[b] == DisqualifiedFromChain
    ensures Decided(c, r, base, acc, b)
  {
    hide Whole, StateOf, Leads;
  }

  lemma DecidedNow(c: Chain, r: Records, base: Collection, acc: Diff, b: Hash)
    requires StatesRecorded(c, r) && Whole(c) && b in c.bodies && b in c.g && Committed(c.t, r.diffs, b)
             && Leads(base, acc, StateOf(c, b), c.ids)
    ensures Decided(c, r, base, acc, b)
  {
    hide Whole, StateOf, Leads, StatesRecorded, Verdict;
    StatusOf(c, r, b);
  }

  lemma DecidedParent(c: Chain, r: Records, base: Collection, acc: Diff, current: Hash, next: Hash)
    requires StatesRecorded(c, r) && Decided(c, r, base, acc, current) && next in r.diffs && ChildOf(c, current, next)
    ensures current in c.bodies && Leads(base, acc, StateOf(c, current), c.ids)
  {
    hide Whole, StateOf, Leads, StatesRecorded, Verdict, Tree.WF;
    DiffOf(c, r, next);
  }

  lemma DecidedFacts(c: Chain, r: Records, base: Collection, acc: Diff, b: Hash)
    requires StatesRecorded(c, r) && Decided(c, r, base, acc, b)
    ensures Whole(c) && b in c.bodies && b in r.statuses
    ensures r.statuses[b] == DisqualifiedFromChain ==> !Verdict(c, b)
    ensures r.statuses[b] != DisqualifiedFromChain ==> r.statuses[b] == UtxoValid && Verdict(c, b)
    ensures r.statuses[b] != DisqualifiedFromChain ==>
              Committed(c.t, r.diffs, b) && Leads(base, acc, StateOf(c, b), c.ids)
  {
    hide Whole, StateOf, Leads, StatesRecorded, Verdict;
    StatusHolds(c, r, b);
  }

  /** `next` is a block with a body whose selected parent is `current`. */
  ghost predicate ChildOf(c: Chain, current: Hash, next: Hash) {
    Whole(c) && c.t.WF() && next in c.bodies && next in c.t.nodes && next != c.t.origin && c.t.Parent(next) == current
  }

  lemma ChildFacts(c: Chain, current: Hash, next: Hash)
    requires ChildOf(c, current, next)
    ensures Whole(c) && c.t.WF() && next in c.bodies && next in c.t.nodes && next != c.t.origin
            && c.t.Parent(next) == current
  {
    hide Whole, Tree.WF;
  }

  lemma IsCommitted(t: Tree, diffs: Diffs, b: Hash)
    requires b in diffs
    ensures Committed(t, diffs, b)
  {
  }

  lemma Undecided(c: Chain, r: Records, b: Hash)
    requires b !in r.diffs && b != c.t.origin
    ensures !Committed(c.t, r.diffs, b)
  {
  }

  /** A verified block can be committed. */
  lemma CommitReady(c: Chain, r: Records, base: Collection, acc: Diff, current: Hash, next: Hash, diff: Diff,
                    multisetHash: Element,
                    acceptedTxIds: seq<nat>, fees: seq<nat>, accepted: set<nat>)
    requires Whole(c) && ChildOf(c, current, next) && current in c.bodies && next in c.g && next in c.daaScores
    requires Committed(c.t, r.diffs, current) && Leads(base, acc, StateOf(c, current), c.ids) && next !in r.diffs
    requires MergesetKnown(c, c.g[next]) && Verdict(c, next)
    requires Calculated(c, StateOf(c, current), c.g[next], c.daaScores[next], diff, multisetHash, acceptedTxIds, fees,
                        accepted)
    ensures forall o :: !DuplicateRemove(acc, diff, o) && !DuplicateAdd(acc, diff, o)
    ensures Leads(base, Composed(acc, diff), StateOf(c, next), c.ids)
    ensures DiffRight(c, r.diffs[next := diff], next)
    ensures StateRight(c, StateOf(c, next), accepted, multisetHash, c.g[next].blueScore)
  {
    hide Whole, Verdict, Tree.WF, Leads, ValidOver, Applied, CoherentDiff, HashesTo, Ledger, AcceptedIds, FeesOf,
         StateAfter, BodiesOf, Scored,
         DuplicateRemove, DuplicateAdd, Composed, SoundBody, MergesetKnown;
    BodyFacts(c, next);
    assert StateOf(c, next) == StateAfter(c, StateOf(c, current), c.g[next], c.daaScores[next]);
    hide StateOf;
    LeadsOn(base, acc, StateOf(c, current), diff, c.ids);
  }

  lemma RecordsAre(p: VirtualProcessor, r: Records, b: Hash, d: Diff, m: Element, accepted: set<nat>)
    requires p.diffs == r.diffs[b := d] && p.multisets == r.multisets[b := m] && p.accepted == r.accepted[b := accepted]
    requires p.statuses == r.statuses[b := UtxoValid]
    ensures p.Records() == WithState(r, b, d, m, accepted)
  {
  }

  lemma VirtualStays(c: Chain, diffs: Diffs, b: Hash, d: Diff, utxoSet: Collection, v: VirtualState)
    requires Whole(c) && VirtualRight(c, diffs, utxoSet, v)
    ensures VirtualRight(c, diffs[b := d], utxoSet, v)
  {
    hide Whole, StateOf, ValidOver, Applied, StateAfter, HashesTo, AcceptedIds, CoherentDiff, MergesetKnown;
  }

  // ----- the walk -----

  /** `a` is a block with a body, on the selected chain of `b`. */
  ghost predicate Reaching(c: Chain, a: Hash, b: Hash) {
    Whole(c) && c.t.WF() && a in c.bodies && a in c.t.nodes && b in c.t.nodes && c.t.Anc(a, b)
  }

  lemma Reached(c: Chain, a: Hash, b: Hash)
    requires Whole(c) && c.t.WF() && a in c.bodies && a in c.t.nodes && b in c.t.nodes && c.t.Anc(a, b)
    ensures Reaching(c, a, b)
  {
    hide Whole, Tree.WF, Tree.Anc;
  }

  lemma ReachingFacts(c: Chain, a: Hash, b: Hash)
    requires Reaching(c, a, b)
    ensures Whole(c) && c.t.WF() && a in c.bodies && a in c.t.nodes && b in c.t.nodes && c.t.Anc(a, b)
    ensures c.t.Height(a) <= c.t.Height(b)
  {
    hide Whole, Tree.WF, Tree.Anc;
    AncHeight(c.t, a, b);
  }

  lemma NotOrigin(c: Chain, r: Records, a: Hash, b: Hash)
    requires c.t.WF() && b in c.t.nodes && !c.t.Anc(a, b) && Committed(c.t, r.diffs, a)
    ensures a in r.diffs
  {
    OriginAnc(c.t, b);
  }

  lemma StoreGood(m: GhostdagManager, d: Dag)
    requires m.Valid(d)
    ensures Good(m.reachability.store.tree, m.reachability.store.interval, NONE)
  {
    hide ReachabilityService.Serves, Coloured;
    ServesTree(m.reachability, d);
  }

  lemma StepFacts(c: Chain, current: Hash, next: Hash, newSelected: Hash)
    requires Whole(c) && c.t.WF() && newSelected in c.bodies && newSelected in c.t.nodes && current in c.t.nodes
    requires next in c.t.nodes && next != c.t.origin && c.t.Parent(next) == current && c.t.Anc(next, newSelected)
    ensures ChildOf(c, current, next) && Reaching(c, next, newSelected)
    ensures c.t.Height(current) < c.t.Height(next) <= c.t.Height(newSelected)
  {
    hide Whole, Tree.WF, Tree.Anc;
    ChainBodies(c, next, newSelected);
    AncHeight(c.t, next, newSelected);
  }

  lemma TipsReady(p: VirtualProcessor, d: Dag, tips: seq<Hash>)
    requires Closed(d, p.transactions.Keys) && TipsRight(d, p.transactions.Keys, p.bodyTips)
             && Elems(tips) == p.bodyTips
    requires p.manager.Valid(d)
    ensures tips != [] && (forall i :: 0 <= i < |tips| ==> tips[i] in p.manager.ghostdag && tips[i] in p.transactions)
    ensures Antichain(d, Elems(tips)) && Elems(tips) <= d.Blocks()
  {
    hide GhostdagManager.Valid, Closed, Antichain, IsParent;
    ManagerFacts(p.manager, d);
    TipsAntichain(d, p.transactions.Keys, p.bodyTips);
    forall i | 0 <= i < |tips| ensures tips[i] in p.bodyTips { assert tips[i] in Elems(tips); }
    ElemsEmpty();
  }

  lemma HeaviestTip(p: VirtualProcessor, d: Dag, tips: seq<Hash>, best: Hash)
    requires p.manager.Valid(d) && Elems(tips) == p.bodyTips && best in tips && Elems(tips) <= d.Blocks()
    requires forall i :: 0 <= i < |tips| ==> tips[i] in p.manager.ghostdag && tips[i] in p.transactions
    requires forall i :: 0 <= i < |tips| ==> tips[i] == best || Less(p.manager.ghostdag, tips[i], best)
    ensures Heaviest(p.manager.ghostdag, p.bodyTips, best) && best in p.transactions
  {
    hide GhostdagManager.Valid, Less, Coloured, Chained, WorkGrows, ReachabilityService.Serves, Dag.Blocks;
    ManagerFacts(p.manager, d);
    forall t | t in p.bodyTips ensures t in p.manager.ghostdag && (t == best || Less(p.manager.ghostdag, t, best)) {
      var i :| 0 <= i < |tips| && tips[i] == t;
    }
    assert best in Elems(tips);
  }

  lemma DecidedStatus(c: Chain, r: Records, base: Collection, acc: Diff, b: Hash)
    requires StatesRecorded(c, r) && Decided(c, r, base, acc, b)
    ensures Resolved(c, r.statuses, b) && Whole(c) && b in c.bodies && b in r.statuses
    ensures r.statuses[b] == UtxoValid ==> Committed(c.t, r.diffs, b) && Leads(base, acc, StateOf(c, b), c.ids)
  {
    hide Whole, StateOf, Leads, StatesRecorded, Verdict, Decided;
    DecidedFacts(c, r, base, acc, b);
  }

  lemma VirtualMerges(p: VirtualProcessor, d: Dag, parents: seq<Hash>, data: Data)
    requires p.manager.Valid(d) && Closed(d, p.transactions.Keys) && TipsRight(d, p.transactions.Keys, p.bodyTips)
    requires Finished(d, p.manager.ghostdag, p.manager.k, Elems(parents), data)
             && Elems(parents) <= PastBelow(d, p.bodyTips)
    ensures Merges(d, p.manager.ghostdag, Elems(parents), data) && MergesetKnown(p.Chain(), data)
  {
    hide GhostdagManager.Valid, Closed, Partial, PastBelow, BlockWindows.MergesetOf, Merges, IsParent;
    BelowHasBodies(d, p.transactions.Keys, p.bodyTips);
    BelowHasBodies(d, p.transactions.Keys, Elems(parents));
    MergedHaveBodies(d, p.manager.ghostdag, Elems(parents), data, p.transactions.Keys);
  }

  lemma VirtualMoved(c: Chain, diffs: Diffs, utxoSet: Collection, v: VirtualState, fees: seq<nat>, accepted: set<nat>)
    requires Whole(c) && MergesetKnown(c, v.data) && Committed(c.t, diffs, v.data.selectedParent)
    requires Calculated(c, StateOf(c, v.data.selectedParent), v.data, v.daaScore, v.diff, v.multisetHash,
                        v.acceptedTxIds, fees, accepted)
    requires utxoSet == Applied(StateOf(c, v.data.selectedParent), v.diff)
    ensures VirtualRight(c, diffs, utxoSet, v)
  {
    hide Whole, MergesetKnown, ValidOver, Applied, CoherentDiff, HashesTo, Ledger, AcceptedIds, FeesOf, StateAfter,
         BodiesOf, StateOf, Scored;
  }

  // ----- the fold of the stored diffs -----

  /** The stored UTXO set is the stored diffs of the selected chain applied from genesis on, and then the
      virtual diff. */
  lemma StoredSetIsFold(p: VirtualProcessor, d: Dag)
    requires p.Valid(d)
    ensures var t, sp := p.manager.reachability.store.tree, p.state.data.selectedParent;
            t.WF() && sp in t.nodes && p.utxoSet == Applied(ChainSet(t, p.diffs, sp), p.state.diff)
  {
    hide *;
    var c, sp := p.Chain(), p.state.data.selectedParent;
    ProcessorFacts(p, d);
    VirtualUndone(c, p.diffs, p.utxoSet, p.state);
    BodyFacts(c, sp);
    ChainSetIsState(c, p.Records(), sp);
    VirtualSet(c, p.diffs, p.utxoSet, p.state);
  }

  lemma VirtualSet(c: Chain, diffs: Diffs, utxoSet: Collection, v: VirtualState)
    requires VirtualRight(c, diffs, utxoSet, v)
    ensures Whole(c) && v.data.selectedParent in c.bodies
    ensures utxoSet == Applied(StateOf(c, v.data.selectedParent), v.diff)
  {
    hide Whole, StateOf, ValidOver, Applied, StateAfter, HashesTo, AcceptedIds, Coherent;
  }
}
