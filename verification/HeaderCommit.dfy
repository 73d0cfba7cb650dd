/** Committing a header: colouring and reachability together. */
module HeaderCommit {
  import opened Hashes
  import opened Intervals
  import opened BlockDag
  import opened Ghostdag
  import opened Colouring
  import opened GreedyColouring
  import BlockWindows
  import opened ReachabilityTree
  import opened ReachabilityStore
  import opened Capacity
  import opened TreeGrowth
  import opened Inquirer
  import opened ReachabilityServices
  import opened GhostdagProtocol

  /** Colours a new block and enters it in all stores; a block heavier than the current tip
      becomes the hint for the reindex root. Both calls into reachability succeed. */
  method CommitHeader(manager: GhostdagManager, block: Hash, parents: seq<Hash>, work: nat, tip: Hash, depth: nat,
                      slack: nat, ghost d: Dag)
    returns (data: Data, added: Result<()>, hinted: Result<()>)
    requires manager.Valid(d) && block != NONE && work >= 1 && depth > 0 && slack == manager.reachability.slack
             && tip in d.Blocks()
    requires parents != [] && NoDup(parents) && Block(d, block, Elems(parents)).Valid() && Antichain(d, Elems(parents))
    requires var store := manager.reachability.store;
             store.tree.origin in store.interval
               && Roomy(|store.tree.nodes| + 1, slack, Size(store.interval[store.tree.origin]))
    modifies manager`relations, manager`works, manager`ghostdag, manager.reachability.store
    ensures manager.Valid(Block(d, block, Elems(parents))) && added.Ok? && hinted.Ok?
    ensures manager.ghostdag == old(manager.ghostdag)[block := data]
    ensures manager.works == old(manager.works)[block := work]
    ensures Naive(d, old(manager.ghostdag), old(manager.works), manager.k, Elems(parents), data)
    ensures var store := manager.reachability.store;
            && data.selectedParent in old(store.tree.nodes)
            && store.tree == old(store.tree).Insert(block, data.selectedParent)
            && store.tree.origin == old(store.tree.origin) && |store.tree.nodes| == old(|store.tree.nodes|) + 1
            && store.tree.origin in store.interval
            && store.interval[store.tree.origin] == old(store.interval[store.tree.origin])
  {
    hide *;
    ghost var ps, d' := Elems(parents), Block(d, block, Elems(parents));
    var store := manager.reachability.store;
    CommitReady(manager, d, block, parents, work);
    AntichainSuffices(d, manager.ghostdag, ps);
    data := manager.Ghostdag(parents, d);
    MergesetListed(d, manager.ghostdag, manager.k, ps, data);
    added := AddBlock(store, block, data.selectedParent, data.blues[1..] + data.reds, slack, d, ps);
    ColouringKept(d, manager.ghostdag, manager.k, block, ps, data);
    ComputedKept(d, manager.ghostdag, manager.works, manager.k, block, ps, data, work);
    manager.ghostdag := manager.ghostdag[block := data];
    manager.relations := manager.relations[block := parents];
    manager.works := manager.works[block := work];
    hinted := Ok(());
    InsertCount(old(store.tree), block, data.selectedParent);
    SpineGrows(old(store.tree), old(manager.ghostdag), manager.genesis, block, data);
    if Less(manager.ghostdag, tip, block) {
      hinted := HintVirtualSelectedParent(store, block, depth, slack, d');
    }
    MakeValid(manager, d');
  }

  // ----- committing a header -----

  lemma CommitReady(m: GhostdagManager, d: Dag, block: Hash, parents: seq<Hash>, work: nat)
    requires m.Valid(d) && Block(d, block, Elems(parents)).Valid() && NoDup(parents) && work >= 1
    ensures m.k < 255 && m.genesis == Block(d, block, Elems(parents)).Root() && m.ghostdag.Keys == d.Blocks()
            && Coloured(d, m.ghostdag, m.k) && Computed(d, m.ghostdag, m.works, m.k) && m.works.Keys == m.ghostdag.Keys
    ensures Spine(m.reachability.store.tree, m.ghostdag, m.genesis)
    ensures Elems(parents) <= d.Blocks() && block !in d.Blocks()
    ensures Recorded(Block(d, block, Elems(parents)), m.relations[block := parents], m.works[block := work])
    ensures var store := m.reachability.store;
            && Mirrors(store.tree, store.interval, store.futureCovering, store.reindexRoot, d, m.reachability.slack)
            && store.tree.WF() && store.tree.nodes.Keys == d.Blocks() && store.reindexRoot in store.tree.nodes
  {
    WorksKnown(d, m.relations, m.works);
    hide Mirrors, Coloured, Recorded, Tree.WF, Sound, Spans, Covers, Good, Computed;
    var store := m.reachability.store;
    MirrorFacts(store.tree, store.interval, store.futureCovering, store.reindexRoot, d, m.reachability.slack);
    SoundFacts(store.tree, store.interval, store.reindexRoot, m.reachability.slack);
    ColouredChained(d, m.ghostdag, m.k);
    RecordedMore(d, m.relations, m.works, block, parents, work);
  }

  lemma WorksKnown(d: Dag, relations: map<Hash, seq<Hash>>, works: map<Hash, nat>)
    requires Recorded(d, relations, works)
    ensures works.Keys == d.Blocks()
  {
  }

  lemma RecordedMore(d: Dag, relations: map<Hash, seq<Hash>>, works: map<Hash, nat>, block: Hash, parents: seq<Hash>,
                     work: nat)
    requires Recorded(d, relations, works) && Block(d, block, Elems(parents)).Valid() && NoDup(parents) && work >= 1
    ensures Recorded(Block(d, block, Elems(parents)), relations[block := parents], works[block := work])
  {
  }

  lemma SpineGrows(t: Tree, g: Colours, genesis: Hash, b: Hash, data: Data)
    requires Spine(t, g, genesis) && data.selectedParent in t.nodes && b !in g && b != data.selectedParent
    ensures Spine(t.Insert(b, data.selectedParent), g[b := data], genesis)
  {
  }

  /** Blues without the selected parent, then reds: the whole mergeset, each block once. */
  lemma MergesetListed(d: Dag, g: Colours, k: nat, parents: set<Hash>, data: Data)
    requires Finished(d, g, k, parents, data)
    ensures data.blues != [] && data.selectedParent in parents
    ensures NoDup(data.blues[1..] + data.reds)
    ensures Elems(data.blues[1..] + data.reds) == MergeSet(d, parents, data.selectedParent)
  {
    AscendingDistinct(g, data.blues[1..]);
    AscendingDistinct(g, data.reds);
    hide Partial, MergeSet, Ascending;
    Extend(data.blues[1..], data.reds);
  }

  lemma InsertCount(t: Tree, b: Hash, p: Hash)
    requires p in t.nodes && b !in t.nodes
    ensures |t.Insert(b, p).nodes| == |t.nodes| + 1 && b in t.Insert(b, p).nodes && t.Insert(b, p).origin == t.origin
  {
    var t' := t.Insert(b, p);
    assert t'.nodes.Keys == t.nodes.Keys + {b};
    assert |t'.nodes| == |t'.nodes.Keys| && |t.nodes| == |t.nodes.Keys|;
  }

  lemma MakeValid(m: GhostdagManager, d: Dag)
    requires m.k < 255 && d.Valid() && m.genesis == d.Root() && Recorded(d, m.relations, m.works)
             && Coloured(d, m.ghostdag, m.k) && Computed(d, m.ghostdag, m.works, m.k)
    requires var store := m.reachability.store;
             Mirrors(store.tree, store.interval, store.futureCovering, store.reindexRoot, d, m.reachability.slack)
             && Spine(store.tree, m.ghostdag, m.genesis)
    ensures m.Valid(d)
  {
    hide Mirrors, Coloured, Recorded, Computed;
  }

  // ----- whole runs -----

  datatype Header = Header(hash: Hash, parents: seq<Hash>, work: nat)

  /** The header may be committed on top of `d`. */
  ghost predicate Acceptable(d: Dag, h: Header) {
    && h.hash != NONE && h.work >= 1 && h.parents != [] && NoDup(h.parents)
    && Block(d, h.hash, Elems(h.parents)).Valid() && Antichain(d, Elems(h.parents))
  }

  /** The DAG after the headers were committed in turn. */
  ghost function After(d: Dag, headers: seq<Header>): Dag
    decreases |headers|
  {
    if headers == [] then d else After(Block(d, headers[0].hash, Elems(headers[0].parents)), headers[1..])
  }

  ghost predicate AcceptableRun(d: Dag, headers: seq<Header>)
    decreases |headers|
  {
    headers != [] ==>
      Acceptable(d, headers[0]) && AcceptableRun(Block(d, headers[0].hash, Elems(headers[0].parents)), headers[1..])
  }

  /** The stores of a node that knows nothing but the genesis block. */
  method Initialise(genesis: Hash, k: KType, capacity: Interval, work: nat, ghost slack: nat)
    returns (manager: GhostdagManager)
    requires genesis != NONE && !IsEmpty(capacity) && k < 255 && work >= 1
    ensures fresh(manager) && fresh(manager.reachability.store) && manager.Valid(Origin(genesis))
    ensures manager.reachability.slack == slack && manager.k == k && manager.genesis == genesis
    ensures manager.works == map[genesis := work]
    ensures var store := manager.reachability.store;
            && store.tree.nodes.Keys == {genesis} && store.tree.origin == genesis
            && store.interval == map[genesis := capacity]
  {
    hide Mirrors, Coloured, GhostdagManager.Valid, Tree.WF;
    var store := new Store.Init(genesis, capacity);
    var service := new ReachabilityService(store, slack);
    manager := new GhostdagManager(genesis, k, service, work);
    InitMirrors(genesis, capacity, slack);
    GenesisColoured(genesis, GENESIS, k);
    assert Spine(store.tree, manager.ghostdag, genesis);
    ElemsEmpty();
    MakeValid(manager, Origin(genesis));
  }

  lemma RoomyLess(few: nat, many: nat, slack: nat, space: nat)
    requires few <= many && Roomy(many, slack, space)
    ensures Roomy(few, slack, space)
  {
    assert few * (4 * slack + 4) <= many * (4 * slack + 4);
  }

  /** Colours a header, finds its two windows, commits it and caches the windows. */
  method ProcessHeader(manager: GhostdagManager, traversal: BlockWindows.DagTraversalManager, h: Header, tip: Hash,
                       depth: nat, slack: nat, evicted: set<Hash>, ghost d: Dag)
    returns (data: Data, added: Result<()>, hinted: Result<()>)
    requires manager.Valid(d) && traversal.Valid(d, manager.ghostdag, manager.k) && Acceptable(d, h)
    requires depth > 0 && slack == manager.reachability.slack && tip in d.Blocks()
    requires var store := manager.reachability.store;
             store.tree.origin in store.interval
             && Roomy(|store.tree.nodes| + 1, slack, Size(store.interval[store.tree.origin]))
    modifies manager`relations, manager`works, manager`ghostdag, manager.reachability.store
    modifies traversal`cacheForDifficulty, traversal`cacheForPastMedianTime
    ensures var d' := Block(d, h.hash, Elems(h.parents));
            manager.Valid(d') && traversal.Valid(d', manager.ghostdag, manager.k) && added.Ok? && hinted.Ok?
    ensures manager.ghostdag == old(manager.ghostdag)[h.hash := data]
    ensures var store := manager.reachability.store;
            && |store.tree.nodes| == old(|store.tree.nodes|) + 1 && store.tree.origin in store.interval
            && Size(store.interval[store.tree.origin]) == old(Size(store.interval[store.tree.origin]))
  {
    hide *;
    ghost var ps, g, works, k := Elems(h.parents), manager.ghostdag, manager.works, manager.k;
    AcceptableFacts(d, h);
    CommitReady(manager, d, h.hash, h.parents, h.work);
    AntichainSuffices(d, g, ps);
    var own := manager.Ghostdag(h.parents, d);
    FinishedMerges(d, g, k, ps, own);
    var difficultyWindow := traversal.BlockWindow(own, traversal.difficultyWindowSize, manager.ghostdag, d, k, ps);
    var medianWindow := traversal.BlockWindow(own, traversal.pastMedianTimeWindowSize, manager.ghostdag, d, k, ps);
    data, added, hinted := CommitHeader(manager, h.hash, h.parents, h.work, tip, depth, slack, d);
    NaiveUnique(d, g, works, k, ps, own, data);
    NowExtended(d, g, k, h.hash, ps, data);
    ManagerFacts(manager, Block(d, h.hash, ps));
    traversal.CacheWindows(h.hash, difficultyWindow, medianWindow, evicted, d, g, k, ps, data);
  }

  lemma FinishedMerges(d: Dag, g: Colours, k: nat, parents: set<Hash>, data: Data)
    requires Finished(d, g, k, parents, data)
    ensures Merges(d, g, parents, data) && data.selectedParent in parents
  {
    hide Merges, Partial;
  }

  lemma NowExtended(d: Dag, g: Colours, k: nat, b: Hash, parents: set<Hash>, data: Data)
    requires Coloured(d, g, k) && Block(d, b, parents).Valid() && data.selectedParent in parents
    ensures Extended(d, g, Block(d, b, parents), g[b := data], b, parents, data)
  {
    hide Coloured, Chained;
    ColouredChained(d, g, k);
  }

  /** Commits any run of acceptable headers that the label space has room for: no call fails, and
      at every point all stores and both window caches belong to the DAG of the headers committed so far. */
  method CommitHeaders(manager: GhostdagManager, traversal: BlockWindows.DagTraversalManager, headers: seq<Header>,
                       start: Hash, depth: nat, slack: nat, evicted: seq<set<Hash>>, ghost d: Dag)
    returns (ok: bool)
    requires manager.Valid(d) && AcceptableRun(d, headers) && start in d.Blocks() && depth > 0
             && slack == manager.reachability.slack && |evicted| == |headers|
    requires traversal.Valid(d, manager.ghostdag, manager.k)
    requires var store := manager.reachability.store;
             store.tree.origin in store.interval
             && Roomy(|store.tree.nodes| + |headers|, slack, Size(store.interval[store.tree.origin]))
    modifies manager`relations, manager`works, manager`ghostdag, manager.reachability.store
    modifies traversal`cacheForDifficulty, traversal`cacheForPastMedianTime
    ensures ok && manager.Valid(After(d, headers))
    ensures traversal.Valid(After(d, headers), manager.ghostdag, manager.k)
  {
    hide GhostdagManager.Valid, BlockWindows.DagTraversalManager.Valid, Roomy, Acceptable, Dag.Blocks, Elems, Less,
         Tree.WF;
    ghost var cur := d;
    var tip := start;
    ok := true;
    var store := manager.reachability.store;
    ghost var space := Size(store.interval[store.tree.origin]);
    assert headers[0..] == headers;
    for i := 0 to |headers|
      invariant ok && manager.Valid(cur) && AcceptableRun(cur, headers[i..]) && tip in cur.Blocks()
      invariant After(cur, headers[i..]) == After(d, headers) && traversal.Valid(cur, manager.ghostdag, manager.k)
      invariant store.tree.origin in store.interval && Size(store.interval[store.tree.origin]) == space
      invariant |store.tree.nodes| + (|headers| - i) == old(|store.tree.nodes|) + |headers|
      invariant Roomy(old(|store.tree.nodes|) + |headers|, slack, space)
    {
      var h := headers[i];
      assert headers[i..][0] == h && headers[i..][1..] == headers[i + 1..];
      RoomyLess(|store.tree.nodes| + 1, old(|store.tree.nodes|) + |headers|, slack, space);
      var data, added, hinted := ProcessHeader(manager, traversal, h, tip, depth, slack, evicted[i], cur);
      ok := ok && added.Ok? && hinted.Ok?;
      ghost var next := Block(cur, h.hash, Elems(h.parents));
      KnownColours(manager, cur, h, tip);
      if Less(manager.ghostdag, tip, h.hash) {
        tip := h.hash;
      }
      cur := next;
    }
  }

  lemma AcceptableFacts(d: Dag, h: Header)
    requires Acceptable(d, h)
    ensures h.hash != NONE && h.work >= 1 && h.parents != [] && NoDup(h.parents)
    ensures Block(d, h.hash, Elems(h.parents)).Valid() && Antichain(d, Elems(h.parents))
  {
  }

  lemma KnownColours(m: GhostdagManager, d: Dag, h: Header, tip: Hash)
    requires tip in d.Blocks() && m.Valid(Block(d, h.hash, Elems(h.parents)))
    ensures var next := Block(d, h.hash, Elems(h.parents));
            tip in next.Blocks() && h.hash in next.Blocks() && tip in m.ghostdag && h.hash in m.ghostdag
  {
    ColouredChained(Block(d, h.hash, Elems(h.parents)), m.ghostdag, m.k);
  }
}
