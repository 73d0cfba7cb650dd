/** The UTXO sets along the selected chain, and what is on record about them. */
module UtxoChains {
  import opened Hashes
  import opened ReachabilityTree
  import opened Insertion
  import opened Ghostdag
  import opened BlockWindows
  import opened Sorting
  import opened UtxoDiffs
  import opened Transactions
  import opened U3072s
  import opened MuHashes
  import opened UtxoStates

  datatype Status = HeaderOnly | Invalid | UtxoPending | UtxoValid | DisqualifiedFromChain

  type Diffs = map<Hash, Diff>

  type Bodies = map<Hash, seq<Transaction>>

  /** What is given from outside: the checks of a populated transaction, the hash of a UTXO with the
      number of limbs it has, the modular inverse, and whether the commitments in the header and the
      coinbase of a block match the multiset hash, the accepted ids and the fees. */
  datatype Rules = Rules(check: Check, element: ElementOf, limbs: nat, inverse: ModInverse,
                         matches: (Hash, Element, seq<nat>, seq<nat>) -> bool)

  /** The blocks that are known, with their selected parents, colours, bodies and DAA scores. */
  datatype Chain = Chain(t: Tree, g: Colours, bodies: Bodies, daaScores: map<Hash, nat>, rules: Rules, ids: Ids)

  /** What is on record about the UTXO states of blocks. */
  datatype Records = Records(diffs: Diffs, multisets: map<Hash, Element>, accepted: map<Hash, set<nat>>,
                             statuses: map<Hash, Status>)

  // ----- blocks and bodies -----

  /** Everything that a block with these data merges has a body. */
  ghost predicate MergesetKnown(c: Chain, data: Data) {
    data.blues != [] && data.selectedParent in c.bodies && MergesetOf(data) <= c.bodies.Keys
  }

  ghost predicate BodyRight(c: Chain, b: Hash)
    requires b in c.bodies && c.bodies.Keys <= c.g.Keys && c.t.nodes.Keys == c.g.Keys
  {
    && SoundBody(c.bodies[b], c.ids) && c.bodies[b][0].blueScore == c.g[b].blueScore
    && (b != c.t.origin ==>
          && MergesetKnown(c, c.g[b]) && c.t.nodes[b].parent == c.g[b].selectedParent
          && c.g[c.g[b].selectedParent].blueScore < c.g[b].blueScore)
  }

  ghost predicate Whole(c: Chain) {
    && c.t.WF() && c.t.nodes.Keys == c.g.Keys && c.daaScores.Keys == c.g.Keys
    && c.bodies.Keys <= c.g.Keys && c.t.origin in c.bodies
    && Hashable(c.rules.element, c.rules.limbs) && InvertsRight(c.rules.inverse, c.rules.limbs)
    && forall b :: b in c.bodies ==> BodyRight(c, b)
  }

  /** The bodies of what a block merges, in consensus order. */
  ghost function BodiesOf(c: Chain, data: Data): (r: seq<seq<Transaction>>)
    requires Whole(c) && MergesetKnown(c, data)
    ensures r != [] && r[0] == c.bodies[data.selectedParent]
    ensures forall i :: 0 <= i < |r| ==> SoundBody(r[i], c.ids) && r[i] != []
  {
    OrderKnown(c, data);
    BodiesAt(c.bodies, MergedOrder(c.g, data))
  }

  function BodiesAt(bodies: Bodies, order: seq<Hash>): seq<seq<Transaction>>
    requires forall i :: 0 <= i < |order| ==> order[i] in bodies
  {
    seq(|order|, i requires 0 <= i < |order| => bodies[order[i]])
  }

  lemma OrderKnown(c: Chain, data: Data)
    requires Whole(c) && MergesetKnown(c, data)
    ensures var order := MergedOrder(c.g, data);
            order != [] && order[0] == data.selectedParent
            && forall i :: 0 <= i < |order| ==>
                             order[i] in c.bodies && SoundBody(c.bodies[order[i]], c.ids) && c.bodies[order[i]] != []
  {
    hide SoundBody, Tree.WF, Hashable, InvertsRight;
    var order := MergedOrder(c.g, data);
    forall i | 0 <= i < |order|
      ensures order[i] in c.bodies && SoundBody(c.bodies[order[i]], c.ids) && c.bodies[order[i]] != []
    {
      if i > 0 {
        assert order[i] == Sorted(c.g, MergesetOf(data))[i - 1] && order[i] in Elems(Sorted(c.g, MergesetOf(data)));
      }
      assert BodyRight(c, order[i]);
      BodyThere(c.bodies[order[i]], c.ids);
    }
  }

  lemma BodyThere(txs: seq<Transaction>, ids: Ids)
    requires SoundBody(txs, ids)
    ensures txs != []
  {
  }

  /** The UTXO set after a block with these data: the coinbase of the selected parent, and then
      every merged transaction that is valid in its turn. */
  ghost function StateAfter(c: Chain, base: Collection, data: Data, daaScore: nat): Collection
    requires Whole(c) && MergesetKnown(c, data)
  {
    AfterBlocks(c.rules.check, Spend(base, BodiesOf(c, data)[0][0], daaScore), BodiesOf(c, data), daaScore)
  }

  // ----- the UTXO set of a block, and whether the block is valid -----

  lemma BodyFacts(c: Chain, b: Hash)
    requires Whole(c) && b in c.bodies
    ensures c.t.WF() && b in c.t.nodes && b in c.g && b in c.daaScores && SoundBody(c.bodies[b], c.ids)
            && c.bodies[b] != []
    ensures c.bodies[b][0].blueScore == c.g[b].blueScore
    ensures b != c.t.origin ==>
              && MergesetKnown(c, c.g[b]) && c.t.Parent(b) in c.bodies && c.t.Parent(b) == c.g[b].selectedParent
              && c.t.Parent(b) in c.t.nodes && c.t.Height(c.t.Parent(b)) < c.t.Height(b)
              && c.t.Parent(b) in c.g && c.g[c.t.Parent(b)].blueScore < c.g[b].blueScore
  {
    hide Hashable, InvertsRight;
    assert BodyRight(c, b);
    assert c.t.NodeWF(b);
  }

  lemma WholeFacts(c: Chain)
    requires Whole(c)
    ensures c.t.WF() && c.t.nodes.Keys == c.g.Keys && c.daaScores.Keys == c.g.Keys
    ensures c.t.origin in c.t.nodes && c.bodies.Keys <= c.g.Keys && c.t.origin in c.bodies
    ensures Hashable(c.rules.element, c.rules.limbs) && InvertsRight(c.rules.inverse, c.rules.limbs)
  {
    hide Hashable, InvertsRight;
  }

  /** The UTXO set of a block, by the rules alone: nothing at genesis, and from the set of the
      selected parent on, what validating all merged transactions in turn leads to. */
  ghost function StateOf(c: Chain, b: Hash): Collection
    requires Whole(c) && b in c.bodies
    decreases if b in c.t.nodes then c.t.Height(b) else 0
  {
    BodyFacts(c, b);
    if b == c.t.origin then map[] else StateAfter(c, StateOf(c, c.t.Parent(b)), c.g[b], c.daaScores[b])
  }

  /** What a block must meet over the UTXO set of its selected parent: its commitments match the
      state that merging leads to, and all its transactions are valid in that state. */
  ghost predicate Verifies(c: Chain, b: Hash, base: Collection)
    requires Whole(c) && b in c.bodies && b != c.t.origin
  {
    BodyFacts(c, b);
    var daaScore, blocks := c.daaScores[b], BodiesOf(c, c.g[b]);
    var view, start := StateAfter(c, base, c.g[b], daaScore), Spend(base, blocks[0][0], daaScore);
    && (exists m: Element :: HashesTo(m, view, c.rules.element, c.rules.limbs) &&
          c.rules.matches(b, m, AcceptedIds(c, base, c.g[b], daaScore), FeesOf(c.rules.check, start, blocks, daaScore)))
    && forall i :: 1 <= i < |c.bodies[b]| ==> Validate(c.rules.check, view, c.bodies[b][i], daaScore).Some?
  }

  /** The ids of the transactions that a block accepts. */
  ghost function AcceptedIds(c: Chain, base: Collection, data: Data, daaScore: nat): seq<nat>
    requires Whole(c) && MergesetKnown(c, data)
  {
    var blocks := BodiesOf(c, data);
    [blocks[0][0].id] + IdsOf(AcceptedFrom(c.rules.check, Spend(base, blocks[0][0], daaScore), blocks, daaScore))
  }

  /** Every block of the selected chain up to `b` verifies. */
  ghost predicate Verdict(c: Chain, b: Hash)
    requires Whole(c) && b in c.bodies
    decreases if b in c.t.nodes then c.t.Height(b) else 0
  {
    BodyFacts(c, b);
    b == c.t.origin || (Verdict(c, c.t.Parent(b)) && Verifies(c, b, StateOf(c, c.t.Parent(b))))
  }

  // ----- the records -----

  ghost predicate Committed(t: Tree, diffs: Diffs, b: Hash) {
    b == t.origin || b in diffs
  }

  /** Coinbases among the accepted transactions are those of blocks with a smaller blue score. */
  ghost predicate Scored(accepted: set<nat>, ids: Ids, score: nat) {
    forall t :: t in accepted && ids(t).inputs == [] ==> ids(t).blueScore < score
  }

  /** A stored diff leads from the UTXO set of the selected parent to that of the block. */
  ghost predicate DiffRight(c: Chain, diffs: Diffs, b: Hash)
    requires Whole(c) && b in diffs
  {
    && b in c.bodies && b != c.t.origin && Verdict(c, b)
    && (BodyFacts(c, b);
        var p := c.t.Parent(b);
        Committed(c.t, diffs, p) && ValidOver(StateOf(c, p), diffs[b])
          && Applied(StateOf(c, p), diffs[b]) == StateOf(c, b))
  }

  /** What is known about a UTXO set: where it comes from, and its hash. */
  ghost predicate StateRight(c: Chain, view: Collection, accepted: set<nat>, multisetHash: Element, score: nat) {
    && Ledger(view, accepted, c.ids) && Scored(accepted, c.ids, score)
    && HashesTo(multisetHash, view, c.rules.element, c.rules.limbs)
  }

  ghost predicate BlockRight(c: Chain, r: Records, b: Hash)
    requires Whole(c) && b in c.bodies
  {
    && b in c.g && b in r.accepted && b in r.multisets
    && StateRight(c, StateOf(c, b), r.accepted[b], r.multisets[b], c.g[b].blueScore)
  }

  /** The status of a block says whether it has a body, whether its state is stored, and, once it
      is decided, whether it is valid. */
  ghost predicate StatusRight(c: Chain, r: Records, b: Hash)
    requires Whole(c) && b in r.statuses
  {
    && (b in c.bodies <==> r.statuses[b] != HeaderOnly && r.statuses[b] != Invalid)
    && (r.statuses[b] == UtxoValid <==> Committed(c.t, r.diffs, b))
    && (b in c.bodies && r.statuses[b] == DisqualifiedFromChain ==> !Verdict(c, b))
  }

  ghost predicate StatesRecorded(c: Chain, r: Records) {
    && Whole(c) && r.statuses.Keys == c.g.Keys
    && (forall b :: b in r.diffs ==> DiffRight(c, r.diffs, b))
    && (forall b :: b in c.bodies && Committed(c.t, r.diffs, b) ==> BlockRight(c, r, b))
    && (forall b :: b in r.statuses ==> StatusRight(c, r, b))
  }

  lemma StatusOf(c: Chain, r: Records, b: Hash)
    requires StatesRecorded(c, r) && b in c.g
    ensures Whole(c) && b in r.statuses && StatusRight(c, r, b)
  {
    hide Whole, StatusRight, StateOf, Verdict;
  }

  lemma CommittedState(c: Chain, r: Records, b: Hash)
    requires StatesRecorded(c, r) && b in c.bodies && Committed(c.t, r.diffs, b)
    ensures Whole(c) && BlockRight(c, r, b)
  {
    hide Whole, BlockRight, StateOf, Verdict;
  }

  lemma DiffOf(c: Chain, r: Records, b: Hash)
    requires StatesRecorded(c, r) && b in r.diffs
    ensures Whole(c) && DiffRight(c, r.diffs, b)
  {
    hide Whole, DiffRight, StateOf, Verdict;
  }

  lemma StateFacts(c: Chain, view: Collection, accepted: set<nat>, multisetHash: Element, score: nat)
    requires StateRight(c, view, accepted, multisetHash, score)
    ensures Ledger(view, accepted, c.ids) && Coherent(view, c.ids) && Scored(accepted, c.ids, score)
    ensures HashesTo(multisetHash, view, c.rules.element, c.rules.limbs) && |multisetHash| == c.rules.limbs
  {
    hide Coherent, Scored;
  }

  ghost function WithState(r: Records, b: Hash, d: Diff, m: Element, accepted: set<nat>): Records {
    Records(r.diffs[b := d], r.multisets[b := m], r.accepted[b := accepted], r.statuses[b := UtxoValid])
  }

  lemma CommitKeeps(c: Chain, r: Records, b: Hash, d: Diff, m: Element, accepted: set<nat>)
    requires StatesRecorded(c, r) && Whole(c) && b in c.bodies && b in c.g && b !in r.diffs && b != c.t.origin
    requires DiffRight(c, r.diffs[b := d], b) && StateRight(c, StateOf(c, b), accepted, m, c.g[b].blueScore)
    ensures StatesRecorded(c, WithState(r, b, d, m, accepted))
  {
    hide Tree.WF, Whole, StateRight, StateOf, ValidOver, Applied, Verdict, DiffRight, BlockRight, StatusRight;
    var r' := WithState(r, b, d, m, accepted);
    forall x | x in r'.diffs ensures DiffRight(c, r'.diffs, x) {
      if x != b { DiffStill(c, r, b, d, x); }
    }
    forall x | x in c.bodies && Committed(c.t, r'.diffs, x) ensures BlockRight(c, r', x) {
      BlockStill(c, r, b, d, m, accepted, x);
    }
    forall x | x in r'.statuses ensures StatusRight(c, r', x) {
      StatusStill(c, r, b, d, m, accepted, x);
    }
  }

  lemma DiffStill(c: Chain, r: Records, b: Hash, d: Diff, x: Hash)
    requires StatesRecorded(c, r) && Whole(c) && x in r.diffs && x != b
    ensures DiffRight(c, r.diffs[b := d], x)
  {
    hide Tree.WF, Whole, StateOf, ValidOver, Applied, Verdict, StatesRecorded, SoundBody, MergesetKnown;
    DiffOf(c, r, x);
    BodyFacts(c, x);
  }

  lemma BlockStill(c: Chain, r: Records, b: Hash, d: Diff, m: Element, accepted: set<nat>, x: Hash)
    requires StatesRecorded(c, r) && Whole(c) && b in c.bodies && b in c.g && x in c.bodies
             && (x == b || Committed(c.t, r.diffs, x))
    requires StateRight(c, StateOf(c, b), accepted, m, c.g[b].blueScore)
    ensures BlockRight(c, WithState(r, b, d, m, accepted), x)
  {
    hide Whole, StateOf, Verdict, StatesRecorded, StateRight;
    if x != b { CommittedState(c, r, x); }
  }

  lemma StatusStill(c: Chain, r: Records, b: Hash, d: Diff, m: Element, accepted: set<nat>, x: Hash)
    requires StatesRecorded(c, r) && Whole(c) && b in c.bodies && b in c.g
             && x in WithState(r, b, d, m, accepted).statuses
    ensures StatusRight(c, WithState(r, b, d, m, accepted), x)
  {
    hide Whole, StateOf, Verdict, DiffRight, BlockRight;
    if x != b { assert StatusRight(c, r, x); }
  }

  lemma DisqualifyKeeps(c: Chain, r: Records, b: Hash)
    requires StatesRecorded(c, r) && Whole(c) && b in c.g && b in c.bodies && !Committed(c.t, r.diffs, b)
             && !Verdict(c, b)
    ensures StatesRecorded(c, r.(statuses := r.statuses[b := DisqualifiedFromChain]))
  {
    hide Whole, DiffRight, StateOf, StateRight, Verdict;
    var r' := r.(statuses := r.statuses[b := DisqualifiedFromChain]);
    forall x | x in r'.statuses ensures StatusRight(c, r', x) {
      StatusOf(c, r, x);
    }
    forall x | x in c.bodies && Committed(c.t, r'.diffs, x) ensures BlockRight(c, r', x) {
      CommittedState(c, r, x);
    }
  }

  // ----- nodes agree -----

  /** Whatever block both know in full, they know alike. */
  ghost predicate Agree(c: Chain, c': Chain) {
    && Whole(c) && Whole(c') && c.rules == c'.rules && c.ids == c'.ids && c.t.origin == c'.t.origin
    && forall b :: b in c.bodies && b in c'.bodies ==> SameBlock(c, c', b)
  }

  ghost predicate SameBlock(c: Chain, c': Chain, b: Hash) {
    && b in c.g && b in c'.g && c.g[b] == c'.g[b] && b in c.bodies && b in c'.bodies && c.bodies[b] == c'.bodies[b]
    && b in c.daaScores && b in c'.daaScores && c.daaScores[b] == c'.daaScores[b]
  }

  lemma SameBodies(c: Chain, c': Chain, data: Data)
    requires Agree(c, c') && Whole(c) && Whole(c') && MergesetKnown(c, data) && MergesetKnown(c', data)
    ensures BodiesOf(c, data) == BodiesOf(c', data)
  {
    hide Whole, SoundBody;
    WholeFacts(c);
    WholeFacts(c');
    forall x | x in MergesetOf(data) ensures c.g[x].blueWork == c'.g[x].blueWork {
      assert SameBlock(c, c', x);
    }
    SortedSame(c.g, c'.g, MergesetOf(data));
    OrderKnown(c, data);
    OrderKnown(c', data);
    var order := MergedOrder(c.g, data);
    assert order == MergedOrder(c'.g, data);
    forall i | 0 <= i < |order| ensures c.bodies[order[i]] == c'.bodies[order[i]] {
      assert SameBlock(c, c', order[i]);
    }
  }

  lemma SameAfter(c: Chain, c': Chain, base: Collection, data: Data, daaScore: nat)
    requires Agree(c, c') && Whole(c) && Whole(c') && MergesetKnown(c, data) && MergesetKnown(c', data)
    ensures StateAfter(c, base, data, daaScore) == StateAfter(c', base, data, daaScore)
    ensures AcceptedIds(c, base, data, daaScore) == AcceptedIds(c', base, data, daaScore)
  {
    hide Whole, MergesetKnown, BodiesOf, AfterBlocks, Spend, AcceptedFrom;
    SameBodies(c, c', data);
  }

  /** Nodes agree on the UTXO set of a block that both know, and on whether it is valid. */
  lemma {:induction false} StatesAgree(c: Chain, c': Chain, b: Hash)
    requires Agree(c, c') && Whole(c) && Whole(c') && b in c.bodies && b in c'.bodies
    ensures StateOf(c, b) == StateOf(c', b) && (Verdict(c, b) <==> Verdict(c', b))
    decreases if b in c.t.nodes then c.t.Height(b) else 0
  {
    hide Whole, MergesetKnown, StateAfter, SoundBody, Verifies;
    BodyFacts(c, b);
    BodyFacts(c', b);
    assert SameBlock(c, c', b);
    if b != c.t.origin {
      var p := c.t.Parent(b);
      StatesAgree(c, c', p);
      SameAfter(c, c', StateOf(c, p), c.g[b], c.daaScores[b]);
      SameVerifies(c, c', b, StateOf(c, p));
    }
  }

  lemma SameVerifies(c: Chain, c': Chain, b: Hash, base: Collection)
    requires Agree(c, c') && Whole(c) && Whole(c') && b in c.bodies && b in c'.bodies && b != c.t.origin
             && c.t.origin == c'.t.origin
    ensures Verifies(c, b, base) <==> Verifies(c', b, base)
  {
    hide Whole, MergesetKnown, StateAfter, SoundBody, BodiesOf, HashesTo, AcceptedIds, FeesOf, Spend, Validate;
    BodyFacts(c, b);
    BodyFacts(c', b);
    assert SameBlock(c, c', b);
    SameBodies(c, c', c.g[b]);
    SameAfter(c, c', base, c.g[b], c.daaScores[b]);
  }

  /** Two nodes that decided on a block decided alike, and hold the same multiset hash for it. */
  lemma VerdictsAgree(c: Chain, r: Records, c': Chain, r': Records, b: Hash)
    requires StatesRecorded(c, r) && StatesRecorded(c', r') && Agree(c, c') && b in c.bodies && b in c'.bodies
             && b in r.statuses && b in r'.statuses
    ensures r.statuses[b] == UtxoValid ==> r'.statuses[b] != DisqualifiedFromChain
    ensures r.statuses[b] == UtxoValid && r'.statuses[b] == UtxoValid ==>
              b in r.multisets && b in r'.multisets && r.multisets[b] == r'.multisets[b]
  {
    hide Whole, StateOf, Verdict, Agree, StatesRecorded, HashesTo, Ledger, Scored;
    StatusHolds(c, r, b);
    StatusHolds(c', r', b);
    StatesAgree(c, c', b);
    if r.statuses[b] == UtxoValid && r'.statuses[b] == UtxoValid {
      CommittedState(c, r, b);
      CommittedState(c', r', b);
      AgreeRules(c, c');
      HashUnique(r.multisets[b], r'.multisets[b], StateOf(c, b), c.rules.element, c.rules.limbs);
    }
  }

  lemma AgreeRules(c: Chain, c': Chain)
    requires Agree(c, c')
    ensures c.rules == c'.rules && c.ids == c'.ids && c.t.origin == c'.t.origin && Whole(c) && Whole(c')
  {
    hide Whole;
  }

  /** What a decided status means. */
  lemma StatusHolds(c: Chain, r: Records, b: Hash)
    requires StatesRecorded(c, r) && b in c.bodies && b in r.statuses
    ensures Whole(c)
    ensures r.statuses[b] == UtxoValid ==> Verdict(c, b) && Committed(c.t, r.diffs, b)
    ensures r.statuses[b] == DisqualifiedFromChain ==> !Verdict(c, b)
  {
    hide Whole, StateOf, Verifies;
    assert StatusRight(c, r, b);
    if r.statuses[b] == UtxoValid && b != c.t.origin { DiffOf(c, r, b); }
  }

  /** Only undecided statuses change, and they say which blocks have a body. */
  ghost predicate StatusesKept(c: Chain, r: Records, c': Chain, r': Records) {
    forall b :: b in r'.statuses ==>
      && (b in c'.bodies <==> r'.statuses[b] != HeaderOnly && r'.statuses[b] != Invalid)
      && (b in c.bodies ==> b in r.statuses && r'.statuses[b] == r.statuses[b])
      && (b !in c.bodies ==> r'.statuses[b] != UtxoValid && r'.statuses[b] != DisqualifiedFromChain)
  }

  lemma OneStatus(c: Chain, r: Records, c': Chain, b: Hash, status: Status)
    requires StatesRecorded(c, r) && b !in c.bodies
    requires status == HeaderOnly || status == Invalid || status == UtxoPending
    requires c'.bodies.Keys == c.bodies.Keys + if status == UtxoPending then {b} else {}
    ensures StatusesKept(c, r, c', r.(statuses := r.statuses[b := status]))
  {
    hide Whole, StateOf, Verdict, DiffRight, BlockRight;
    forall x | x in r.statuses && x != b ensures StatusRight(c, r, x) {}
  }

  /** Records stay right when more becomes known: a header, or the body of a block. */
  lemma RecordsCarryOver(c: Chain, r: Records, c': Chain, r': Records)
    requires StatesRecorded(c, r) && Agree(c, c') && c.bodies.Keys <= c'.bodies.Keys && r'.statuses.Keys == c'.g.Keys
    requires r'.diffs == r.diffs && r'.multisets == r.multisets && r'.accepted == r.accepted
    requires StatusesKept(c, r, c', r')
    ensures StatesRecorded(c', r')
  {
    hide Whole, StateOf, Verdict, Agree, DiffRight, BlockRight, StatusRight, StatusesKept;
    AgreeRules(c, c');
    forall b | b in r'.diffs ensures DiffRight(c', r'.diffs, b) {
      DiffCarriesOver(c, c', r.diffs, b);
    }
    forall b | b in c'.bodies && Committed(c'.t, r'.diffs, b) ensures BlockRight(c', r', b) {
      BlockCarriesOver(c, r, c', r', b);
    }
    forall b | b in r'.statuses ensures StatusRight(c', r', b) {
      StatusCarriesOver(c, r, c', r', b);
    }
  }

  lemma BlockCarriesOver(c: Chain, r: Records, c': Chain, r': Records, b: Hash)
    requires StatesRecorded(c, r) && Agree(c, c') && Whole(c) && Whole(c') && b in c'.bodies
    requires Committed(c.t, r.diffs, b) && r'.multisets == r.multisets && r'.accepted == r.accepted
    ensures BlockRight(c', r', b)
  {
    hide Whole, StateOf, Verdict, Agree, StatesRecorded, StateRight;
    WholeFacts(c);
    if b != c.t.origin { DiffOf(c, r, b); }
    CommittedState(c, r, b);
    StatesAgree(c, c', b);
    AgreeBlock(c, c', b);
    AgreeRules(c, c');
    SameRight(c, c', StateOf(c, b), r.accepted[b], r.multisets[b], c.g[b].blueScore);
  }

  lemma StatusCarriesOver(c: Chain, r: Records, c': Chain, r': Records, b: Hash)
    requires StatesRecorded(c, r) && Agree(c, c') && Whole(c) && Whole(c') && c.bodies.Keys <= c'.bodies.Keys
    requires r'.diffs == r.diffs && StatusesKept(c, r, c', r') && b in r'.statuses
    ensures StatusRight(c', r', b)
  {
    hide Whole, StateOf, Verdict, Agree, StatesRecorded, StateRight, ValidOver, Applied;
    WholeFacts(c);
    AgreeRules(c, c');
    if b in c.bodies {
      StatusOf(c, r, b);
      StatesAgree(c, c', b);
    } else if b in r.diffs {
      DiffOf(c, r, b);
    }
  }

  lemma AgreeBlock(c: Chain, c': Chain, b: Hash)
    requires Agree(c, c') && b in c.bodies && b in c'.bodies
    ensures SameBlock(c, c', b)
  {
    hide Whole, SameBlock;
  }

  lemma SameRight(c: Chain, c': Chain, view: Collection, accepted: set<nat>, m: Element, score: nat)
    requires c.rules == c'.rules && c.ids == c'.ids && StateRight(c, view, accepted, m, score)
    ensures StateRight(c', view, accepted, m, score)
  {
    hide Ledger, Scored, HashesTo;
  }

  lemma DiffCarriesOver(c: Chain, c': Chain, diffs: Diffs, b: Hash)
    requires Agree(c, c') && Whole(c) && Whole(c') && b in diffs && DiffRight(c, diffs, b)
             && c.bodies.Keys <= c'.bodies.Keys
    ensures DiffRight(c', diffs, b)
  {
    hide Whole, StateOf, Verdict, ValidOver, Applied, Agree, MergesetKnown, SoundBody;
    AgreeRules(c, c');
    BodyFacts(c, b);
    BodyFacts(c', b);
    AgreeBlock(c, c', b);
    StatesAgree(c, c', b);
    StatesAgree(c, c', c.t.Parent(b));
  }

  /** More is known, and nothing that was stored about UTXO states is lost. */
  ghost predicate Advanced(c: Chain, r: Records, c': Chain, r': Records) {
    Agree(c, c') && c.bodies.Keys <= c'.bodies.Keys && r.diffs.Keys <= r'.diffs.Keys
  }

  lemma AdvancedTwice(c: Chain, r: Records, c': Chain, r': Records, c'': Chain, r'': Records)
    requires Advanced(c, r, c', r') && Advanced(c', r', c'', r'')
    ensures Advanced(c, r, c'', r'')
  {
    hide Whole;
    forall b | b in c.bodies && b in c''.bodies ensures SameBlock(c, c'', b) {
      assert SameBlock(c, c', b) && SameBlock(c', c'', b);
    }
  }

  /** Decisions stand: a valid block stays valid with the same UTXO set and multiset hash, and a
      disqualified one never becomes valid. */
  lemma DecisionsStand(c: Chain, r: Records, c': Chain, r': Records, b: Hash)
    requires StatesRecorded(c, r) && StatesRecorded(c', r') && Advanced(c, r, c', r') && b in c.bodies
             && b in r.statuses
    ensures b in r'.statuses && Whole(c) && Whole(c') && b in c'.bodies && StateOf(c, b) == StateOf(c', b)
    ensures r.statuses[b] == UtxoValid ==>
              r'.statuses[b] == UtxoValid && b in r.multisets && b in r'.multisets && r.multisets[b] == r'.multisets[b]
    ensures r.statuses[b] == DisqualifiedFromChain ==> r'.statuses[b] != UtxoValid
  {
    hide Whole, StateOf, Verdict, Agree, StatesRecorded;
    AgreeRules(c, c');
    WholeFacts(c');
    StatesAgree(c, c', b);
    StatusOf(c', r', b);
    StatusHolds(c, r, b);
    StatusHolds(c', r', b);
    VerdictsAgree(c, r, c', r', b);
  }

  // ----- the virtual block -----

  /** How the virtual block stands to its selected parent. */
  datatype VirtualState = VirtualState(parents: seq<Hash>, data: Data, daaScore: nat, multisetHash: Element, diff: Diff,
                                       acceptedTxIds: seq<nat>)

  /** The stored set is the one that the rules give the virtual block, and the virtual state says how
      it differs from the set of the virtual selected parent, what is accepted, and its hash. */
  ghost predicate VirtualRight(c: Chain, diffs: Diffs, utxoSet: Collection, v: VirtualState) {
    && Whole(c) && MergesetKnown(c, v.data) && Committed(c.t, diffs, v.data.selectedParent)
    && (var base := StateOf(c, v.data.selectedParent);
        && ValidOver(base, v.diff) && CoherentDiff(v.diff, c.ids)
        && utxoSet == Applied(base, v.diff) && utxoSet == StateAfter(c, base, v.data, v.daaScore)
        && HashesTo(v.multisetHash, utxoSet, c.rules.element, c.rules.limbs)
        && v.acceptedTxIds == AcceptedIds(c, base, v.data, v.daaScore))
  }

  lemma VirtualCarriesOver(c: Chain, c': Chain, diffs: Diffs, utxoSet: Collection, v: VirtualState)
    requires Agree(c, c') && Whole(c) && Whole(c') && c.bodies.Keys <= c'.bodies.Keys
             && VirtualRight(c, diffs, utxoSet, v)
    ensures VirtualRight(c', diffs, utxoSet, v)
  {
    hide Whole, Agree, StateOf, ValidOver, Applied, StateAfter, HashesTo, AcceptedIds, CoherentDiff;
    AgreeRules(c, c');
    StatesAgree(c, c', v.data.selectedParent);
    SameAfter(c, c', StateOf(c, v.data.selectedParent), v.data, v.daaScore);
  }

  /** The reversed virtual diff leads from the stored set back to that of the virtual selected parent. */
  lemma VirtualUndone(c: Chain, diffs: Diffs, utxoSet: Collection, v: VirtualState)
    requires Whole(c) && VirtualRight(c, diffs, utxoSet, v)
    ensures v.data.selectedParent in c.bodies && Committed(c.t, diffs, v.data.selectedParent)
    ensures Leads(utxoSet, UtxoDiffs.Reversed(v.diff), StateOf(c, v.data.selectedParent), c.ids)
  {
    hide Whole, StateOf, ValidOver, Applied, StateAfter, HashesTo, AcceptedIds, Coherent;
    ReversedLaw(StateOf(c, v.data.selectedParent), v.diff);
  }

  // ----- what becomes known -----

  /** One more header. */
  lemma HeaderCarries(c: Chain, h: Hash, data: Data, daaScore: nat)
    requires Whole(c) && h !in c.g && h != NONE && data.selectedParent in c.t.nodes
    ensures var c' :=
            Chain(c.t.Insert(h, data.selectedParent), c.g[h := data], c.bodies, c.daaScores[h := daaScore], c.rules,
                  c.ids);
            Agree(c, c')
  {
    hide Hashable, InvertsRight, SoundBody;
    WholeFacts(c);
    var t' := c.t.Insert(h, data.selectedParent);
    InsertGrows(c.t, h, data.selectedParent);
    GrownFacts(c.t, t', h, data.selectedParent);
    var c' := Chain(t', c.g[h := data], c.bodies, c.daaScores[h := daaScore], c.rules, c.ids);
    hide Tree.WF, Grown;
    forall b | b in c'.bodies ensures BodyRight(c', b) {
      assert BodyRight(c, b);
      GrownNode(c.t, t', h, data.selectedParent, b);
    }
  }

  /** The body of one more block. */
  lemma BodyCarries(c: Chain, h: Hash, txs: seq<Transaction>)
    requires Whole(c) && h in c.g && h !in c.bodies
    requires BodyRight(c.(bodies := c.bodies[h := txs]), h)
    ensures Agree(c, c.(bodies := c.bodies[h := txs]))
  {
    hide Hashable, InvertsRight, SoundBody, Tree.WF, MergesetKnown, BodyRight;
    var c' := c.(bodies := c.bodies[h := txs]);
    forall b | b in c'.bodies ensures BodyRight(c', b) {
      if b != h { BodyStill(c, h, txs, b); }
    }
  }

  lemma BodyStill(c: Chain, h: Hash, txs: seq<Transaction>, b: Hash)
    requires Whole(c) && h in c.g && h !in c.bodies && b in c.bodies
    ensures BodyRight(c.(bodies := c.bodies[h := txs]), b)
  {
    hide Hashable, InvertsRight, SoundBody, Tree.WF, MergesetOf;
    assert BodyRight(c, b);
  }

  /** The whole selected chain of a block with a body has bodies. */
  lemma {:induction false} ChainBodies(c: Chain, a: Hash, b: Hash)
    requires Whole(c) && c.t.WF() && b in c.bodies && b in c.t.nodes && c.t.Anc(a, b)
    ensures a in c.bodies
    decreases c.t.Height(b)
  {
    hide Whole, Tree.WF, SoundBody, MergesetKnown;
    BodyFacts(c, b);
    if a != b { ChainBodies(c, a, c.t.Parent(b)); }
  }

  // ----- coinbases -----

  /** The coinbase of a block was not accepted in its own past. */
  lemma CoinbaseNew(c: Chain, b: Hash, accepted: set<nat>)
    requires Whole(c) && b in c.bodies && b in c.g && Scored(accepted, c.ids, c.g[b].blueScore)
    ensures c.bodies[b] != [] && c.bodies[b][0].id !in accepted
  {
    hide Whole, MergesetKnown;
    BodyFacts(c, b);
  }

  /** After a block, the coinbase of its selected parent is the one with the highest score. */
  lemma ScoreGrows(c: Chain, b: Hash, accepted0: set<nat>, accepted: set<nat>, score: nat)
    requires Whole(c) && b in c.bodies && b in c.g && Scored(accepted0, c.ids, c.g[b].blueScore)
             && c.g[b].blueScore < score
    requires c.bodies[b] != [] && NoOtherCoinbase(accepted0, accepted, c.bodies[b][0].id, c.ids)
    ensures Scored(accepted, c.ids, score)
  {
    hide Whole, MergesetKnown;
    BodyFacts(c, b);
  }

  // ----- verification -----

  /** As many results as transactions: all are valid. */
  lemma {:induction false} ParallelAll(check: Check, view: Collection, txs: seq<Transaction>, daaScore: nat)
    ensures |Parallel(check, view, txs, daaScore)| <= |txs|
    ensures |Parallel(check, view, txs, daaScore)| == |txs| <==>
              forall i :: 0 <= i < |txs| ==> Validate(check, view, txs[i], daaScore).Some?
  {
    hide Validate;
    if txs != [] {
      ParallelAll(check, view, txs[..|txs| - 1], daaScore);
      assert forall i :: 0 <= i < |txs| - 1 ==> txs[..|txs| - 1][i] == txs[i];
    }
  }

  lemma AllValid(check: Check, view: Collection, txs: seq<Transaction>, daaScore: nat)
    requires txs != []
    ensures |Parallel(check, view, txs[1..], daaScore)| >= |txs| - 1 <==>
              forall i :: 1 <= i < |txs| ==> Validate(check, view, txs[i], daaScore).Some?
  {
    hide Validate, Parallel;
    ParallelAll(check, view, txs[1..], daaScore);
    assert forall i :: 0 <= i < |txs| - 1 ==> txs[1..][i] == txs[i + 1];
    if forall i :: 0 <= i < |txs[1..]| ==> Validate(check, view, txs[1..][i], daaScore).Some? {
      forall i | 1 <= i < |txs|
        ensures Validate(check, view, txs[i], daaScore).Some? { assert txs[1..][i - 1] == txs[i]; }
    }
  }

  /** The multiset hash of a set decides whether the commitments match. */
  lemma VerifiesBy(c: Chain, b: Hash, base: Collection, m: Element)
    requires Whole(c) && b in c.bodies && b in c.g && b in c.daaScores && b != c.t.origin && MergesetKnown(c, c.g[b])
    requires HashesTo(m, StateAfter(c, base, c.g[b], c.daaScores[b]), c.rules.element, c.rules.limbs)
    ensures var daaScore, blocks := c.daaScores[b], BodiesOf(c, c.g[b]);
            var view, start := StateAfter(c, base, c.g[b], daaScore), Spend(base, blocks[0][0], daaScore);
            Verifies(c, b, base) <==>
              && c.rules.matches(b, m, AcceptedIds(c, base, c.g[b], daaScore),
                                 FeesOf(c.rules.check, start, blocks, daaScore))
              && forall i :: 1 <= i < |c.bodies[b]| ==> Validate(c.rules.check, view, c.bodies[b][i], daaScore).Some?
  {
    hide Whole, MergesetKnown, StateAfter, SoundBody, BodiesOf, HashesTo, AcceptedIds, FeesOf, Spend, Validate;
    var daaScore, blocks := c.daaScores[b], BodiesOf(c, c.g[b]);
    var view, start := StateAfter(c, base, c.g[b], daaScore), Spend(base, blocks[0][0], daaScore);
    forall m' | HashesTo(m', view, c.rules.element, c.rules.limbs) ensures m' == m {
      HashUnique(m', m, view, c.rules.element, c.rules.limbs);
    }
  }

  /** A block is valid exactly if its selected parent is and it verifies over that parent's set. */
  lemma VerdictStep(c: Chain, b: Hash)
    requires Whole(c) && b in c.bodies && b != c.t.origin && c.t.WF() && b in c.t.nodes && c.t.Parent(b) in c.bodies
    ensures Verdict(c, b) <==> Verdict(c, c.t.Parent(b)) && Verifies(c, b, StateOf(c, c.t.Parent(b)))
  {
    hide Whole, Tree.WF, Verifies, StateOf;
  }

  /** What calculating a UTXO state yields: the diff to the state that the rules lead to, its hash,
      the ids and fees, and where its UTXOs come from. */
  ghost predicate Calculated(c: Chain, base: Collection, data: Data, daaScore: nat, diff: Diff, multisetHash: Element,
                             acceptedTxIds: seq<nat>, fees: seq<nat>, accepted: set<nat>)
  {
    && Whole(c) && MergesetKnown(c, data)
    && (var view, blocks := StateAfter(c, base, data, daaScore), BodiesOf(c, data);
        && ValidOver(base, diff) && Applied(base, diff) == view && CoherentDiff(diff, c.ids)
        && HashesTo(multisetHash, view, c.rules.element, c.rules.limbs) && Ledger(view, accepted, c.ids)
        && acceptedTxIds == AcceptedIds(c, base, data, daaScore)
        && fees == FeesOf(c.rules.check, Spend(base, blocks[0][0], daaScore), blocks, daaScore)
        && data.selectedParent in c.g
        && forall score :: c.g[data.selectedParent].blueScore < score ==> Scored(accepted, c.ids, score))
  }

  // ----- genesis -----

  /** The hash of nothing. */
  function EmptyHash(n: nat): Element {
    seq(n, i requires 0 <= i < n => if i == 0 then 1 else 0)
  }

  lemma EmptyHashes(el: ElementOf, n: nat)
    requires n >= 2
    ensures HashesTo(EmptyHash(n), map[], el, n)
  {
    OneIs(EmptyHash(n));
    EmptyProduct(el);
    hide Congruent, ViewProduct;
    ModulusLarge(n);
    CongruentSame(1, Modulus(n));
  }

  /** A coinbase without outputs, and nothing else. */
  ghost predicate GenesisBody(txs: seq<Transaction>, ids: Ids) {
    |txs| == 1 && ids(txs[0].id) == txs[0] && txs[0].inputs == [] && txs[0].outputs == [] && txs[0].blueScore == 0
  }

  lemma GenesisWhole(c: Chain)
    requires c.t.WF() && c.t.nodes.Keys == {c.t.origin} && c.g.Keys == {c.t.origin} && c.daaScores.Keys == {c.t.origin}
    requires c.bodies.Keys == {c.t.origin} && GenesisBody(c.bodies[c.t.origin], c.ids)
    requires Hashable(c.rules.element, c.rules.limbs) && InvertsRight(c.rules.inverse, c.rules.limbs)
    requires c.g[c.t.origin].blueScore == 0
    ensures Whole(c)
  {
    hide Hashable, InvertsRight;
    assert BodyRight(c, c.t.origin);
  }

  lemma GenesisRecorded(c: Chain)
    requires Whole(c) && c.g.Keys == {c.t.origin} && c.bodies.Keys == {c.t.origin} && c.rules.limbs >= 2
    ensures StatesRecorded(c, Records(map[], map[c.t.origin := EmptyHash(c.rules.limbs)], map[c.t.origin := {}],
                                      map[c.t.origin := UtxoValid]))
  {
    hide Whole, HashesTo, EmptyHash;
    EmptyHashes(c.rules.element, c.rules.limbs);
    var r := Records(map[], map[c.t.origin := EmptyHash(c.rules.limbs)], map[c.t.origin := {}],
                     map[c.t.origin := UtxoValid]);
    assert StateOf(c, c.t.origin) == map[];
    assert BlockRight(c, r, c.t.origin);
  }

  lemma GenesisVirtual(c: Chain, data: Data)
    requires Whole(c) && GenesisBody(c.bodies[c.t.origin], c.ids) && data.selectedParent == c.t.origin
    requires data.blues == [c.t.origin] && data.reds == [] && Hashable(c.rules.element, c.rules.limbs)
    ensures c.bodies[c.t.origin] != []
    ensures VirtualRight(c, map[], map[],
                         VirtualState([c.t.origin], data, 0, EmptyHash(c.rules.limbs), Diff(map[], map[]),
                                                       [c.bodies[c.t.origin][0].id]))
  {
    hide Whole, Hashable, HashesTo, EmptyHash;
    WholeFacts(c);
    HashableSize(c.rules.element, c.rules.limbs);
    EmptyHashes(c.rules.element, c.rules.limbs);
    assert data.blues[1..] == [];
    ElemsEmpty();
    assert MergesetOf(data) == {};
    var order := Sorted(c.g, {});
    NothingListed(order);
    var body := c.bodies[c.t.origin];
    assert BodiesOf(c, data) == [body];
    GenesisAfter(c.rules.check, body, c.ids);
  }

  lemma GenesisAfter(check: Check, body: seq<Transaction>, ids: Ids)
    requires GenesisBody(body, ids)
    ensures Spend(map[], body[0], 0) == map[]
    ensures AfterBlocks(check, map[], [body], 0) == map[] && IdsOf(AcceptedFrom(check, map[], [body], 0)) == []
  {
    assert [body][..0] == [];
    assert body[1..] == [];
  }

  // ----- the fold of the stored diffs -----

  /** The stored diffs along the selected chain, applied from genesis on. */
  ghost function ChainSet(t: Tree, diffs: Diffs, b: Hash): Collection
    requires t.WF() && b in t.nodes
    decreases t.Height(b)
  {
    if b == t.origin || b !in diffs then map[]
    else Applied(ChainSet(t, diffs, t.Parent(b)), diffs[b])
  }

  /** The stored diffs of a chain lead to the UTXO set that the rules give its last block. */
  lemma {:induction false} ChainSetIsState(c: Chain, r: Records, b: Hash)
    requires StatesRecorded(c, r) && Whole(c) && c.t.WF() && b in c.bodies && b in c.t.nodes
             && Committed(c.t, r.diffs, b)
    ensures ChainSet(c.t, r.diffs, b) == StateOf(c, b)
    decreases c.t.Height(b)
  {
    hide Whole, StatesRecorded, Tree.WF, Verdict, Applied, ValidOver, StateAfter, SoundBody, MergesetKnown;
    BodyFacts(c, b);
    if b != c.t.origin {
      DiffOf(c, r, b);
      ChainSetIsState(c, r, c.t.Parent(b));
    }
  }

  // ----- the accumulated diff -----

  /** `acc` leads from `base` to `target`. */
  ghost predicate Leads(base: Collection, acc: Diff, target: Collection, ids: Ids) {
    ValidOver(base, acc) && Applied(base, acc) == target && CoherentDiff(acc, ids)
  }

  lemma CoherentConsistent(a: Collection, b: Collection, ids: Ids)
    requires Coherent(a, ids) && Coherent(b, ids)
    ensures Consistent(a, b)
  {
  }

  lemma ComposedCoherent(d: Diff, other: Diff, ids: Ids)
    requires CoherentDiff(d, ids) && CoherentDiff(other, ids)
    ensures CoherentDiff(Composed(d, other), ids)
  {
    hide Composed, OutputEntry;
    var c := Composed(d, other);
    forall o | o in c.add
      ensures o.index < |ids(o.transactionId).outputs|
              && c.add[o] == OutputEntry(ids(o.transactionId), c.add[o].daaScore, o.index)
    {
      ComposedGets(d, other, o);
    }
    forall o | o in c.remove
      ensures o.index < |ids(o.transactionId).outputs|
              && c.remove[o] == OutputEntry(ids(o.transactionId), c.remove[o].daaScore, o.index)
    {
      ComposedGets(d, other, o);
    }
  }

  lemma LeadsOn(base: Collection, acc: Diff, target: Collection, d: Diff, ids: Ids)
    requires Leads(base, acc, target, ids) && ValidOver(target, d) && CoherentDiff(d, ids)
    ensures forall o :: !DuplicateRemove(acc, d, o) && !DuplicateAdd(acc, d, o)
    ensures Leads(base, Composed(acc, d), Applied(target, d), ids)
  {
    hide Composed, DuplicateRemove, DuplicateAdd, ValidOver, Applied, Coherent;
    CoherentConsistent(acc.remove, d.add, ids);
    CoherentConsistent(d.remove, d.add, ids);
    ComposedLaw(base, acc, d);
    ComposedCoherent(acc, d, ids);
  }

  /** A committed diff is coherent, because the sets on both sides are. */
  lemma CommittedCoherent(c: Chain, r: Records, b: Hash)
    requires StatesRecorded(c, r) && b in r.diffs
    ensures CoherentDiff(r.diffs[b], c.ids)
  {
    hide Whole, StateOf, Verdict, Coherent, ValidOver, Applied, StatesRecorded, StateAfter, HashesTo, Scored;
    DiffOf(c, r, b);
    BodyFacts(c, b);
    CommittedState(c, r, b);
    CommittedState(c, r, c.t.Parent(b));
    DiffCoherent(StateOf(c, c.t.Parent(b)), r.diffs[b], c.ids);
  }

  lemma LeadsBack(base: Collection, acc: Diff, c: Chain, r: Records, b: Hash)
    requires StatesRecorded(c, r) && Whole(c) && b in r.diffs && b in c.bodies && Leads(base, acc, StateOf(c, b), c.ids)
    ensures b != c.t.origin && b in c.t.nodes && c.t.Parent(b) in c.bodies && Committed(c.t, r.diffs, c.t.Parent(b))
    ensures forall o :: !DuplicateRemove(acc, UtxoDiffs.Reversed(r.diffs[b]), o)
                        && !DuplicateAdd(acc, UtxoDiffs.Reversed(r.diffs[b]), o)
    ensures Leads(base, Composed(acc, UtxoDiffs.Reversed(r.diffs[b])), StateOf(c, c.t.Parent(b)), c.ids)
  {
    hide Composed, DuplicateRemove, DuplicateAdd, ValidOver, Applied, StatesRecorded, Whole, StateOf, Verdict,
         Coherent, Leads, StateAfter;
    DiffOf(c, r, b);
    BodyFacts(c, b);
    CommittedCoherent(c, r, b);
    ReversedLaw(StateOf(c, c.t.Parent(b)), r.diffs[b]);
    LeadsOn(base, acc, StateOf(c, b), UtxoDiffs.Reversed(r.diffs[b]), c.ids);
  }

  lemma LeadsForward(base: Collection, acc: Diff, c: Chain, r: Records, b: Hash)
    requires StatesRecorded(c, r) && Whole(c) && b in r.diffs && b in c.bodies && b in c.t.nodes && b != c.t.origin
             && c.t.Parent(b) in c.bodies
    requires Leads(base, acc, StateOf(c, c.t.Parent(b)), c.ids)
    ensures forall o :: !DuplicateRemove(acc, r.diffs[b], o) && !DuplicateAdd(acc, r.diffs[b], o)
    ensures Leads(base, Composed(acc, r.diffs[b]), StateOf(c, b), c.ids)
  {
    hide Composed, DuplicateRemove, DuplicateAdd, ValidOver, Applied, StatesRecorded, Whole, StateOf, Verdict,
         Coherent, Leads, StateAfter;
    DiffOf(c, r, b);
    BodyFacts(c, b);
    CommittedCoherent(c, r, b);
    LeadsOn(base, acc, StateOf(c, c.t.Parent(b)), r.diffs[b], c.ids);
  }

  lemma LeadsView(base: Collection, acc: Diff, target: Collection, ids: Ids)
    requires Leads(base, acc, target, ids)
    ensures Applied(base, acc) == target
  {
  }
}
