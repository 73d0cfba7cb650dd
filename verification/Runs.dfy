/** Nodes: whatever headers, bodies and resolutions they handle in whatever order, what they store is right,
    and they agree. */
module NodeRuns {
  import opened Hashes
  import opened Intervals
  import opened BlockDag
  import opened Capacity
  import opened Ghostdag
  import opened GreedyColouring
  import opened ReachabilityServices
  import opened GhostdagProtocol
  import HeaderCommit
  import opened UtxoDiffs
  import opened Transactions
  import opened MuHashes
  import opened UtxoStates
  import opened UtxoChains
  import opened BlockBodies
  import opened VirtualResolution

  datatype Event = HeaderEvent(header: HeaderCommit.Header, daaScore: nat)
                 | BodyEvent(hash: Hash, txs: seq<Transaction>, checks: Checks)
                 | ResolveEvent(virtualDaaScore: nat, mergeDepthRoot: Hash)

  ghost function AfterEvent(d: Dag, e: Event): Dag {
    if e.HeaderEvent? then Block(d, e.header.hash, Elems(e.header.parents)) else d
  }

  /** The DAG of all headers after the events. */
  ghost function AfterEvents(d: Dag, events: seq<Event>): Dag
    decreases |events|
  {
    if events == [] then d else AfterEvents(AfterEvent(d, events[0]), events[1..])
  }

  /** The event may happen: a header that passes header validation, any body for a known header, or
      a resolution. */
  ghost predicate May(d: Dag, ids: Ids, e: Event) {
    match e
    case HeaderEvent(h, _) => HeaderCommit.Acceptable(d, h)
    case BodyEvent(hash, txs, _) => hash in d.Blocks() && forall i :: 0 <= i < |txs| ==> ids(txs[i].id) == txs[i]
    case ResolveEvent(_, root) => root in d.Blocks()
  }

  ghost predicate MayRun(d: Dag, ids: Ids, events: seq<Event>)
    decreases |events|
  {
    events != [] ==> May(d, ids, events[0]) && MayRun(AfterEvent(d, events[0]), ids, events[1..])
  }

  function Headers(e: Event): nat {
    if e.HeaderEvent? then 1 else 0
  }

  function HeadersIn(events: seq<Event>): nat {
    if events == [] then 0 else Headers(events[0]) + HeadersIn(events[1..])
  }

  // ----- what hashes stand for -----

  /** What a block hash stands for: hashes have no collisions, so parents, work and DAA score of a header
      and, by the Merkle root in it, the body belong to the hash. */
  datatype World = World(genesis: Hash, parents: Hash -> set<Hash>, work: Hash -> nat, daaScore: Hash -> nat,
                         body: Hash -> seq<Transaction>)

  /** All that is stored about a block is what its hash stands for. */
  ghost predicate Tied(w: World, d: Dag, works: map<Hash, nat>, daaScores: map<Hash, nat>, bodies: Bodies) {
    && d.Root() == w.genesis
    && (forall b :: b in d.Blocks() ==> TiedAt(w, d, works, daaScores, b))
    && (forall b :: b in bodies ==> bodies[b] == w.body(b))
  }

  ghost predicate TiedAt(w: World, d: Dag, works: map<Hash, nat>, daaScores: map<Hash, nat>, b: Hash) {
    && (b != w.genesis ==> d.Parents(b) == w.parents(b))
    && b in works && works[b] == w.work(b) && b in daaScores && daaScores[b] == w.daaScore(b)
  }

  ghost predicate NodeTied(p: VirtualProcessor, d: Dag, w: World)
    reads p`daaScores, p`transactions, p.manager`works
  {
    Tied(w, d, p.manager.works, p.daaScores, p.transactions)
  }

  /** The event brings what the hash stands for. */
  ghost predicate Follows(w: World, e: Event) {
    match e
    case HeaderEvent(h, daaScore) =>
      Elems(h.parents) == w.parents(h.hash) && h.work == w.work(h.hash) && daaScore == w.daaScore(h.hash)
    case BodyEvent(hash, txs, checks) => checks.merkleRoot ==> txs == w.body(hash)
    case ResolveEvent(_, _) => true
  }

  ghost predicate FollowAll(w: World, events: seq<Event>) {
    forall i :: 0 <= i < |events| ==> Follows(w, events[i])
  }

  lemma FollowsEach(w: World, events: seq<Event>, i: nat)
    requires i < |events|
    ensures FollowAll(w, events) ==> Follows(w, events[i])
  {
  }

  lemma TiedIs(p: VirtualProcessor, d: Dag, w: World)
    ensures NodeTied(p, d, w) <==> Tied(w, d, p.manager.works, p.daaScores, p.transactions)
  {
    hide Tied;
  }

  lemma TiedHeader(w: World, d: Dag, works: map<Hash, nat>, daaScores: map<Hash, nat>, bodies: Bodies,
                   h: HeaderCommit.Header, daaScore: nat)
    requires Tied(w, d, works, daaScores, bodies) && Follows(w, HeaderEvent(h, daaScore))
    requires Block(d, h.hash, Elems(h.parents)).Valid()
    ensures Tied(w, Block(d, h.hash, Elems(h.parents)), works[h.hash := h.work], daaScores[h.hash := daaScore], bodies)
  {
    hide Elems;
    var d' := Block(d, h.hash, Elems(h.parents));
    forall b | b in d'.Blocks()
      ensures TiedAt(w, d', works[h.hash := h.work], daaScores[h.hash := daaScore], b)
    {
      if b != h.hash { assert TiedAt(w, d, works, daaScores, b); }
    }
  }

  lemma TiedBody(w: World, d: Dag, g: Colours, works: map<Hash, nat>, daaScores: map<Hash, nat>, hash: Hash,
                 txs: seq<Transaction>, checks: Checks, before: BodyStores, after: BodyStores, outcome: Reception)
    requires Tied(w, d, works, daaScores, before.transactions) && Follows(w, BodyEvent(hash, txs, checks))
    requires Received(d, g, hash, txs, checks, before, after, outcome)
    ensures Tied(w, d, works, daaScores, after.transactions)
  {
    hide TiedAt, Isolated;
  }

  // ----- runs -----

  /** Handles any run of headers, bodies and resolutions that the label space has room for, in any
      order: at every point everything stored belongs to the DAG so far, and decisions stand. */
  method Run(p: VirtualProcessor, events: seq<Event>, depth: nat, slack: nat, ghost blocks: nat, ghost space: nat,
             ghost w: World, ghost d: Dag)
    requires p.Valid(d) && MayRun(d, p.ids, events) && depth > 0 && slack == p.manager.reachability.slack
    requires Holds(p.manager.reachability.store, blocks, space) && Roomy(blocks + HeadersIn(events), slack, space)
    modifies p, p.manager`relations, p.manager`works, p.manager`ghostdag, p.manager.reachability.store
    ensures p.Valid(AfterEvents(d, events))
    ensures Advanced(old(p.Chain()), old(p.Records()), p.Chain(), p.Records())
    ensures old(NodeTied(p, d, w)) && FollowAll(w, events) ==> NodeTied(p, AfterEvents(d, events), w)
  {
    hide *;
    ghost var tied := NodeTied(p, d, w) && FollowAll(w, events);
    ghost var cur, c0, r0, total := d, p.Chain(), p.Records(), blocks + HeadersIn(events);
    ghost var count: nat := blocks;
    NothingYet(p, d);
    assert events[0..] == events;
    for i := 0 to |events|
      invariant p.Valid(cur) && MayRun(cur, p.ids, events[i..])
      invariant AfterEvents(cur, events[i..]) == AfterEvents(d, events)
      invariant Advanced(c0, r0, p.Chain(), p.Records())
      invariant tied ==> NodeTied(p, cur, w)
      invariant Holds(p.manager.reachability.store, count, space) && count + HeadersIn(events[i..]) == total
    {
      NextEvent(cur, p.ids, events, i);
      FollowsEach(w, events, i);
      Handle(p, events[i], depth, slack, cur, count, space, total, w, c0, r0);
      count := count + Headers(events[i]);
      cur := AfterEvent(cur, events[i]);
    }
    NoEvents(cur, events);
  }

  lemma NothingYet(p: VirtualProcessor, d: Dag)
    requires p.Valid(d)
    ensures Advanced(p.Chain(), p.Records(), p.Chain(), p.Records())
  {
    hide *;
    ProcessorFacts(p, d);
    AdvancedNot(p.Chain(), p.Records());
  }

  lemma NextEvent(d: Dag, ids: Ids, events: seq<Event>, i: nat)
    requires i < |events| && MayRun(d, ids, events[i..])
    ensures May(d, ids, events[i]) && MayRun(AfterEvent(d, events[i]), ids, events[i + 1..])
    ensures AfterEvents(d, events[i..]) == AfterEvents(AfterEvent(d, events[i]), events[i + 1..])
    ensures HeadersIn(events[i..]) == Headers(events[i]) + HeadersIn(events[i + 1..])
  {
    hide May, AfterEvent;
    assert events[i..][0] == events[i] && events[i..][1..] == events[i + 1..];
  }

  lemma NoEvents(d: Dag, events: seq<Event>)
    ensures AfterEvents(d, events[|events|..]) == d
  {
  }

  /** A node that starts from genesis and handles any such run. */
  method RunFromGenesis(genesis: Hash, k: KType, capacity: Interval, work: nat, rules: Rules,
                        genesisBody: seq<Transaction>, daaScore: nat, maxBlockParents: nat, mergesetSizeLimit: nat,
                        events: seq<Event>, depth: nat, slack: nat, ghost w: World, ghost ids: Ids)
    returns (p: VirtualProcessor)
    requires genesis != NONE && !IsEmpty(capacity) && k < 255 && work >= 1 && maxBlockParents >= 1
             && mergesetSizeLimit >= 1 && depth > 0
    requires Hashable(rules.element, rules.limbs) && InvertsRight(rules.inverse, rules.limbs)
             && GenesisBody(genesisBody, ids)
    requires MayRun(Origin(genesis), ids, events) && Roomy(1 + HeadersIn(events), slack, Size(capacity))
    ensures p.Valid(AfterEvents(Origin(genesis), events)) && p.ids == ids && p.rules == rules && p.manager.k == k
    ensures w.genesis == genesis && work == w.work(genesis) && daaScore == w.daaScore(genesis)
              && genesisBody == w.body(genesis) && FollowAll(w, events) ==>
              NodeTied(p, AfterEvents(Origin(genesis), events), w)
  {
    hide *;
    TiedGenesis(w, genesis, work, daaScore, genesisBody);
    var manager := HeaderCommit.Initialise(genesis, k, capacity, work, slack);
    GenesisIs(manager, genesis);
    p := new VirtualProcessor(manager, rules, genesisBody, daaScore, maxBlockParents, mergesetSizeLimit, ids);
    TiedIs(p, Origin(genesis), w);
    HoldsNow(manager.reachability.store, 1, Size(capacity));
    Run(p, events, depth, slack, 1, Size(capacity), w, Origin(genesis));
  }

  lemma TiedGenesis(w: World, genesis: Hash, work: nat, daaScore: nat, body: seq<Transaction>)
    ensures w.genesis == genesis && work == w.work(genesis) && daaScore == w.daaScore(genesis)
              && body == w.body(genesis) ==>
              Tied(w, Origin(genesis), map[genesis := work], map[genesis := daaScore], map[genesis := body])
  {
  }

  lemma GenesisIs(m: GhostdagManager, genesis: Hash)
    requires m.Valid(Origin(genesis)) && m.reachability.store.tree.nodes.Keys == {genesis}
    ensures m.genesis == genesis && |m.reachability.store.tree.nodes| == 1
  {
    hide Coloured, ReachabilityService.Serves, Spine;
    assert |m.reachability.store.tree.nodes| == |m.reachability.store.tree.nodes.Keys|;
  }

  method Handle(p: VirtualProcessor, e: Event, depth: nat, slack: nat, ghost d: Dag, ghost blocks: nat,
                ghost space: nat, ghost total: nat, ghost w: World, ghost c0: Chain, ghost r0: Records)
    requires p.Valid(d) && May(d, p.ids, e) && depth > 0 && slack == p.manager.reachability.slack
    requires Advanced(c0, r0, p.Chain(), p.Records())
    requires Holds(p.manager.reachability.store, blocks, space) && Roomy(total, slack, space)
    requires blocks + Headers(e) <= total
    modifies p, p.manager`relations, p.manager`works, p.manager`ghostdag, p.manager.reachability.store
    ensures p.Valid(AfterEvent(d, e)) && Advanced(c0, r0, p.Chain(), p.Records())
    ensures Holds(p.manager.reachability.store, blocks + Headers(e), space)
    ensures old(NodeTied(p, d, w)) && Follows(w, e) ==> NodeTied(p, AfterEvent(d, e), w)
  {
    hide VirtualProcessor.Valid, VirtualProcessor.Chain, VirtualProcessor.Records, Advanced, Roomy, Received, Resolved,
         OnTop, Heaviest, Dag.Blocks, HeaderCommit.Acceptable, Elems, Holds, Tied, NodeTied, Follows,
         VirtualProcessor.Stored, Dag.Valid;
    ghost var c, r := p.Chain(), p.Records();
    ghost var works, daaScores, stores := p.manager.works, p.daaScores, p.Stored();
    ghost var tied := NodeTied(p, d, w) && Follows(w, e);
    TiedIs(p, d, w);
    StoredIs(p);
    match e {
      case HeaderEvent(h, daaScore) =>
        HeaderCommit.RoomyLess(blocks + 1, total, slack, space);
        p.ReceiveHeader(h, daaScore, depth, slack, blocks, space, d);
        HeaderCommit.AcceptableFacts(d, h);
        if tied { TiedHeader(w, d, works, daaScores, p.transactions, h, daaScore); }
      case BodyEvent(hash, txs, checks) =>
        var outcome := p.ReceiveBody(hash, txs, checks, d);
        StoredIs(p);
        if tied {
          TiedBody(w, d, p.manager.ghostdag, works, daaScores, hash, txs, checks, stores, p.Stored(), outcome);
        }
      case ResolveEvent(daaScore, mergeDepthRoot) =>
        var newSelected := p.ResolveVirtual(daaScore, mergeDepthRoot, d);
    }
    TiedIs(p, AfterEvent(d, e), w);
    AdvancedTwice(c0, r0, c, r, p.Chain(), p.Records());
  }

  // ----- nodes agree -----

  /** Two nodes of one network: the same parameters and rules, and block hashes stand for the same. What
      they know, and the order they learned it in, may differ. */
  ghost predicate OneNetwork(p: VirtualProcessor, d: Dag, p': VirtualProcessor, d': Dag, w: World)
    reads p, p', p.manager, p'.manager, p.manager.reachability.store, p'.manager.reachability.store
  {
    && p.Valid(d) && p'.Valid(d') && p.manager.k == p'.manager.k && p.rules == p'.rules && p.ids == p'.ids
    && NodeTied(p, d, w) && NodeTied(p', d', w)
  }

  lemma NetworkFacts(p: VirtualProcessor, d: Dag, p': VirtualProcessor, d': Dag, w: World)
    requires OneNetwork(p, d, p', d', w)
    ensures p.Valid(d) && p'.Valid(d') && p.manager.k == p'.manager.k && p.rules == p'.rules && p.ids == p'.ids
    ensures Tied(w, d, p.manager.works, p.daaScores, p.transactions)
    ensures Tied(w, d', p'.manager.works, p'.daaScores, p'.transactions)
  {
    hide VirtualProcessor.Valid, Tied, NodeTied;
    TiedIs(p, d, w);
    TiedIs(p', d', w);
  }

  lemma RootHasNoParents(d: Dag)
    requires d.Valid()
    ensures d.Root() in d.Blocks() && d.Parents(d.Root()) == {}
  {
    RootIn(d);
    RootReaches(d, d.Root());
    PastUnfold(d, d.Root());
  }

  lemma {:induction false} RootIn(d: Dag)
    ensures d.Root() in d.Blocks()
    decreases d
  {
    if d.Block? { RootIn(d.prior); }
  }

  lemma TiedParents(w: World, d: Dag, works: map<Hash, nat>, daaScores: map<Hash, nat>, bodies: Bodies,
                    d': Dag, works': map<Hash, nat>, daaScores': map<Hash, nat>, bodies': Bodies, b: Hash)
    requires Tied(w, d, works, daaScores, bodies) && Tied(w, d', works', daaScores', bodies')
    requires d.Valid() && d'.Valid() && b in d.Blocks() && b in d'.Blocks()
    ensures d.Root() == d'.Root() && d.Parents(b) == d'.Parents(b)
    ensures b in works && b in works' && works[b] == works'[b]
    ensures b in daaScores && b in daaScores' && daaScores[b] == daaScores'[b]
    ensures b in bodies && b in bodies' ==> bodies[b] == bodies'[b]
  {
    assert TiedAt(w, d, works, daaScores, b) && TiedAt(w, d', works', daaScores', b);
    if b == w.genesis {
      RootHasNoParents(d);
      RootHasNoParents(d');
    }
  }

  /** The stored data of two nodes of one network are those of peers. */
  lemma NetworkPeers(p: VirtualProcessor, d: Dag, p': VirtualProcessor, d': Dag, w: World)
    requires OneNetwork(p, d, p', d', w)
    ensures Peers(d, p.manager.ghostdag, p.manager.works, d', p'.manager.ghostdag, p'.manager.works, p.manager.k)
  {
    hide *;
    var m, m' := p.manager, p'.manager;
    NetworkFacts(p, d, p', d', w);
    ProcessorFacts(p, d);
    ProcessorFacts(p', d');
    ManagerFacts(m, d);
    ManagerFacts(m', d');
    ManagerWorks(m, d);
    ManagerWorks(m', d');
    RootIn(d);
    RootIn(d');
    SameRoot(w, d, m.works, p.daaScores, p.transactions, d', m'.works, p'.daaScores, p'.transactions);
    forall b | b in m.ghostdag && b in m'.ghostdag
      ensures d.Parents(b) == d'.Parents(b) && b in m.works && b in m'.works && m.works[b] == m'.works[b]
    {
      TiedParents(w, d, m.works, p.daaScores, p.transactions, d', m'.works, p'.daaScores, p'.transactions, b);
    }
    PeersNow(d, m.ghostdag, m.works, d', m'.ghostdag, m'.works, m.k);
  }

  lemma SameRoot(w: World, d: Dag, works: map<Hash, nat>, daaScores: map<Hash, nat>, bodies: Bodies,
                 d': Dag, works': map<Hash, nat>, daaScores': map<Hash, nat>, bodies': Bodies)
    requires Tied(w, d, works, daaScores, bodies) && Tied(w, d', works', daaScores', bodies')
    ensures d.Root() == d'.Root()
  {
    hide TiedAt;
  }

  lemma PeersNow(d: Dag, g: Colours, works: map<Hash, nat>, d': Dag, g': Colours, works': map<Hash, nat>, k: nat)
    requires Coloured(d, g, k) && Coloured(d', g', k) && Computed(d, g, works, k) && Computed(d', g', works', k)
    requires d.Root() == d'.Root() && works.Keys == g.Keys && works'.Keys == g'.Keys
    requires forall b :: b in g && b in g' ==>
               d.Parents(b) == d'.Parents(b) && b in works && b in works' && works[b] == works'[b]
    ensures Peers(d, g, works, d', g', works', k)
  {
    hide Coloured, Computed;
  }

  /** Nodes agree on every header that both know: on its past, its selected parent, colours, score, work and
      anticone sizes. */
  lemma HeadersAgree(p: VirtualProcessor, d: Dag, p': VirtualProcessor, d': Dag, w: World, b: Hash)
    requires OneNetwork(p, d, p', d', w) && b in d.Blocks() && b in d'.Blocks()
    ensures b in p.manager.ghostdag && b in p'.manager.ghostdag && p.manager.ghostdag[b] == p'.manager.ghostdag[b]
    ensures d.Past(b) == d'.Past(b)
  {
    hide *;
    var g, g' := p.manager.ghostdag, p'.manager.ghostdag;
    NetworkPeers(p, d, p', d', w);
    PeersFacts(d, g, p.manager.works, d', g', p'.manager.works, p.manager.k);
    DataAgree(d, g, p.manager.works, d', g', p'.manager.works, p.manager.k, b);
  }

  lemma NetworkAgrees(p: VirtualProcessor, d: Dag, p': VirtualProcessor, d': Dag, w: World)
    requires OneNetwork(p, d, p', d', w)
    ensures Agree(p.Chain(), p'.Chain())
  {
    hide *;
    var c, c' := p.Chain(), p'.Chain();
    NetworkFacts(p, d, p', d', w);
    ProcessorFacts(p, d);
    ProcessorFacts(p', d');
    forall b | b in c.bodies && b in c'.bodies
      ensures c.g[b] == c'.g[b] && c.bodies[b] == c'.bodies[b] && c.daaScores[b] == c'.daaScores[b]
    {
      HeadersAgree(p, d, p', d', w, b);
      ManagerFacts(p.manager, d);
      ManagerFacts(p'.manager, d');
      TiedParents(w, d, p.manager.works, p.daaScores, p.transactions,
                  d', p'.manager.works, p'.daaScores, p'.transactions, b);
    }
    SameRoot(w, d, p.manager.works, p.daaScores, p.transactions, d', p'.manager.works, p'.daaScores, p'.transactions);
    ManagerFacts(p.manager, d);
    ManagerFacts(p'.manager, d');
    AgreeNow(c, c');
  }

  lemma AgreeNow(c: Chain, c': Chain)
    requires Whole(c) && Whole(c') && c.rules == c'.rules && c.ids == c'.ids && c.t.origin == c'.t.origin
    requires c.bodies.Keys <= c.g.Keys && c'.bodies.Keys <= c'.g.Keys
    requires c.daaScores.Keys == c.g.Keys && c'.daaScores.Keys == c'.g.Keys
    requires forall b :: b in c.bodies && b in c'.bodies ==>
               c.g[b] == c'.g[b] && c.bodies[b] == c'.bodies[b] && c.daaScores[b] == c'.daaScores[b]
    ensures Agree(c, c')
  {
    hide Whole;
  }

  /** Nodes agree on every block: it has the same UTXO set and the same verdict with both, none of them
      stores it as valid while the other one disqualified it, and valid blocks have the same multiset hash. */
  lemma NodesAgree(p: VirtualProcessor, d: Dag, p': VirtualProcessor, d': Dag, w: World, b: Hash)
    requires OneNetwork(p, d, p', d', w) && b in p.transactions && b in p'.transactions
    ensures Whole(p.Chain()) && Whole(p'.Chain()) && b in p.statuses && b in p'.statuses
    ensures StateOf(p.Chain(), b) == StateOf(p'.Chain(), b) && (Verdict(p.Chain(), b) <==> Verdict(p'.Chain(), b))
    ensures p.statuses[b] == UtxoValid ==> p'.statuses[b] != DisqualifiedFromChain
    ensures p.statuses[b] == UtxoValid && p'.statuses[b] == UtxoValid ==>
              b in p.multisets && b in p'.multisets && p.multisets[b] == p'.multisets[b]
  {
    hide *;
    NetworkFacts(p, d, p', d', w);
    ProcessorFacts(p, d);
    ProcessorFacts(p', d');
    NetworkAgrees(p, d, p', d', w);
    StatesAgree(p.Chain(), p'.Chain(), b);
    VerdictsAgree(p.Chain(), p.Records(), p'.Chain(), p'.Records(), b);
  }

  /** Nodes whose virtual blocks have the same parents and DAA score hold the same UTXO set, and have the
      same data, multiset hash and accepted transactions for it. */
  lemma VirtualsAgree(p: VirtualProcessor, d: Dag, p': VirtualProcessor, d': Dag, w: World)
    requires OneNetwork(p, d, p', d', w)
    requires Elems(p.state.parents) == Elems(p'.state.parents) && p.state.daaScore == p'.state.daaScore
    ensures p.state.data == p'.state.data && p.utxoSet == p'.utxoSet
    ensures p.state.multisetHash == p'.state.multisetHash && p.state.acceptedTxIds == p'.state.acceptedTxIds
  {
    hide *;
    NetworkFacts(p, d, p', d', w);
    ProcessorFacts(p, d);
    ProcessorFacts(p', d');
    VirtualDataAgrees(p, d, p', d', w);
    NetworkAgrees(p, d, p', d', w);
    SameVirtual(p.Chain(), p.diffs, p.utxoSet, p.state, p'.Chain(), p'.diffs, p'.utxoSet, p'.state);
  }

  lemma VirtualDataAgrees(p: VirtualProcessor, d: Dag, p': VirtualProcessor, d': Dag, w: World)
    requires OneNetwork(p, d, p', d', w) && Elems(p.state.parents) == Elems(p'.state.parents)
    ensures p.state.data == p'.state.data
  {
    hide *;
    var m, m', ps := p.manager, p'.manager, Elems(p.state.parents);
    NetworkFacts(p, d, p', d', w);
    ProcessorFacts(p, d);
    ProcessorFacts(p', d');
    VirtualDataMeans(m, p.state, d);
    VirtualDataMeans(m', p'.state, d');
    NaiveFacts(d, m.ghostdag, m.works, m.k, ps, p.state.data);
    NaiveFacts(d', m'.ghostdag, m'.works, m'.k, ps, p'.state.data);
    NetworkPeers(p, d, p', d', w);
    ParentsAgree(d, m.ghostdag, m.works, d', m'.ghostdag, m'.works, m.k, ps, p.state.data, p'.state.data);
  }

  lemma SameVirtual(c: Chain, diffs: Diffs, utxoSet: Collection, v: VirtualState,
                    c': Chain, diffs': Diffs, utxoSet': Collection, v': VirtualState)
    requires VirtualRight(c, diffs, utxoSet, v) && VirtualRight(c', diffs', utxoSet', v') && Agree(c, c')
    requires v.data == v'.data && v.daaScore == v'.daaScore
    ensures utxoSet == utxoSet' && v.multisetHash == v'.multisetHash && v.acceptedTxIds == v'.acceptedTxIds
  {
    hide Whole, Agree, StateOf, ValidOver, Applied, StateAfter, HashesTo, AcceptedIds, CoherentDiff;
    AgreeRules(c, c');
    StatesAgree(c, c', v.data.selectedParent);
    SameAfter(c, c', StateOf(c, v.data.selectedParent), v.data, v.daaScore);
    HashUnique(v.multisetHash, v'.multisetHash, utxoSet, c.rules.element, c.rules.limbs);
  }
}
