/** Scheduling of block tasks: no task begins while a direct parent is pending, and none is lost. */
module DependencyManager {
  import opened Options
  import opened Hashes

  type Sender = nat

  datatype Block = Block(hash: Hash, parents: seq<Hash>, headerOnly: bool)

  datatype Task = Task(block: Block, senders: seq<Sender>, dependents: seq<Hash>)

  ghost predicate PendingParent(pending: map<Hash, Task>, block: Block) {
    exists i :: 0 <= i < |block.parents| && block.parents[i] in pending
  }

  /** The first of the block's parents that is pending. */
  ghost predicate FirstPending(pending: map<Hash, Task>, block: Block, parent: Hash) {
    exists i :: 0 <= i < |block.parents| && block.parents[i] == parent && parent in pending
                && forall j :: 0 <= j < i ==> block.parents[j] !in pending
  }

  /** The tasks that were registered and have not ended; every method runs under the lock. */
  class BlockTaskDependencyManager {
    var pending: map<Hash, Task>

    constructor ()
      ensures pending == map[]
    {
      pending := map[];
    }

    /** Registers a task. For a block that is pending already, only the senders are added, and the
        block is replaced if it was header-only and no longer is. */
    method Register(block: Block, senders: seq<Sender>) returns (isNew: bool)
      modifies this
      ensures isNew <==> block.hash !in old(pending)
      ensures isNew ==> pending == old(pending)[block.hash := Task(block, senders, [])]
      ensures !isNew ==>
                var task := old(pending)[block.hash];
                pending == old(pending)[block.hash :=
                                        Task(if task.block.headerOnly && !block.headerOnly then block else task.block,
                                                           task.senders + senders, task.dependents)]
    {
      if block.hash !in pending {
        pending := pending[block.hash := Task(block, senders, [])];
        return true;
      }
      var task := pending[block.hash];
      task := task.(senders := task.senders + senders);
      if task.block.headerOnly && !block.headerOnly {
        task := task.(block := block);
      }
      pending := pending[block.hash := task];
      isNew := false;
    }

    /** The block of a registered task, unless a direct parent is pending: then it becomes a
        dependent of the first such parent. */
    method TryBegin(hash: Hash) returns (r: Option<Block>)
      requires hash in pending
      modifies this
      ensures r.Some? <==> !PendingParent(old(pending), old(pending)[hash].block)
      ensures r.Some? ==> r.value == old(pending)[hash].block && pending == old(pending)
      ensures r.None? ==> exists parent ::
                && FirstPending(old(pending), old(pending)[hash].block, parent) && parent in old(pending)
                && pending == old(pending)[parent :=
                                           old(pending)[parent].(dependents := old(pending)[parent].dependents
                                                                 + [hash])]
    {
      var block := pending[hash].block;
      for i := 0 to |block.parents|
        invariant forall j :: 0 <= j < i ==> block.parents[j] !in pending
        invariant pending == old(pending)
      {
        var parent := block.parents[i];
        if parent in pending {
          var task := pending[parent];
          pending := pending[parent := task.(dependents := task.dependents + [hash])];
          return None;
        }
      }
      r := Some(block);
    }

    /** Ends a task, and returns what its senders and dependents are. */
    method End(hash: Hash) returns (task: Task)
      requires hash in pending
      modifies this
      ensures task == old(pending)[hash] && pending == old(pending) - {hash}
    {
      task := pending[hash];
      pending := pending - {hash};
    }
  }

  // ----- the pipeline around the manager -----

  /** Where the one token of a pending task is. */
  datatype Place = Queued | Processing | Waiting(parent: Hash)

  /** One if the token of `h` is at `place`, else none. */
  ghost function TokenAt(places: map<Hash, Place>, h: Hash, place: Place): nat {
    if h in places && places[h] == place then 1 else 0
  }

  /** Every pending task has exactly one token: it is queued, being processed, or a dependent of
      one pending parent. */
  ghost predicate OneToken(pending: map<Hash, Task>, queued: multiset<Hash>, processing: multiset<Hash>,
                           places: map<Hash, Place>)
  {
    && places.Keys == pending.Keys
    && (forall h :: queued[h] == TokenAt(places, h, Queued))
    && (forall h :: processing[h] == TokenAt(places, h, Processing))
    && TokensWaiting(pending, places)
    && (forall h :: h in places && places[h].Waiting? ==>
                      places[h].parent in pending && places[h].parent in pending[h].block.parents)
  }

  ghost predicate TokensWaiting(pending: map<Hash, Task>, places: map<Hash, Place>) {
    forall p, h :: p in pending ==> multiset(pending[p].dependents)[h] == TokenAt(places, h, Waiting(p))
  }

  /** One if the sender is held by the entry of `h`, else none. */
  ghost function HeldBy(holders: map<Sender, Option<Hash>>, s: Sender, h: Option<Hash>): nat {
    if s in holders && holders[s] == h then 1 else 0
  }

  /** Every sender received so far is either delivered once, or held once by one pending task. */
  ghost predicate EachOnce(pending: map<Hash, Task>, delivered: multiset<Sender>, holders: map<Sender, Option<Hash>>) {
    && (forall s :: delivered[s] == HeldBy(holders, s, None))
    && (forall p, s :: p in pending ==> multiset(pending[p].senders)[s] == HeldBy(holders, s, Some(p)))
    && (forall s :: s in holders && holders[s].Some? ==> holders[s].value in pending)
  }

  /** Tasks are stored under their own hash, and parents come before their children. */
  ghost predicate Ordered(pending: map<Hash, Task>, rank: Hash -> nat) {
    forall h :: h in pending ==> pending[h].block.hash == h && Acyclic(pending[h].block, rank)
  }

  ghost predicate Acyclic(block: Block, rank: Hash -> nat) {
    forall i :: 0 <= i < |block.parents| ==> rank(block.parents[i]) < rank(block.hash)
  }

  // ----- what each step does to tokens and senders -----

  lemma TokenRegistered(pending: map<Hash, Task>, queued: multiset<Hash>, processing: multiset<Hash>, places: map<Hash,
                        Place>, block: Block, senders: seq<Sender>)
    requires OneToken(pending, queued, processing, places) && block.hash !in pending
    ensures OneToken(pending[block.hash := Task(block, senders, [])], queued + multiset{block.hash}, processing,
                     places[block.hash := Queued])
  {
    var h0, pending', places' :=
      block.hash, pending[block.hash := Task(block, senders, [])], places[block.hash := Queued];
    forall p, h | p in pending' ensures multiset(pending'[p].dependents)[h] == TokenAt(places', h, Waiting(p)) {
      if p != h0 { assert multiset(pending[p].dependents)[h] == TokenAt(places, h, Waiting(p)); }
    }
  }

  lemma TokenUpdated(pending: map<Hash, Task>, queued: multiset<Hash>, processing: multiset<Hash>, places: map<Hash,
                     Place>, h0: Hash, task: Task)
    requires OneToken(pending, queued, processing, places) && h0 in pending
    requires task.dependents == pending[h0].dependents && task.block.parents == pending[h0].block.parents
    ensures OneToken(pending[h0 := task], queued, processing, places)
  {
    var pending' := pending[h0 := task];
    forall p, h | p in pending' ensures multiset(pending'[p].dependents)[h] == TokenAt(places, h, Waiting(p)) {
      assert multiset(pending[p].dependents)[h] == TokenAt(places, h, Waiting(p));
    }
  }

  lemma TokenBegins(pending: map<Hash, Task>, queued: multiset<Hash>, processing: multiset<Hash>, places: map<Hash,
                    Place>, h0: Hash)
    requires OneToken(pending, queued, processing, places) && h0 in queued
    ensures h0 in pending
    ensures OneToken(pending, queued - multiset{h0}, processing + multiset{h0}, places[h0 := Processing])
  {
    assert queued[h0] == TokenAt(places, h0, Queued);
    var places' := places[h0 := Processing];
    forall p, h | p in pending ensures multiset(pending[p].dependents)[h] == TokenAt(places', h, Waiting(p)) {
      assert multiset(pending[p].dependents)[h] == TokenAt(places, h, Waiting(p));
    }
  }

  lemma TokenWaits(pending: map<Hash, Task>, queued: multiset<Hash>, processing: multiset<Hash>, places: map<Hash,
                   Place>, h0: Hash, parent: Hash)
    requires OneToken(pending, queued, processing, places) && h0 in queued && h0 in pending && parent in pending
             && parent in pending[h0].block.parents
    ensures OneToken(pending[parent := pending[parent].(dependents := pending[parent].dependents + [h0])],
                     queued - multiset{h0}, processing,
                     places[h0 := Waiting(parent)])
  {
    assert queued[h0] == TokenAt(places, h0, Queued);
    WaitingMore(pending, places, h0, parent);
    hide TokensWaiting;
  }

  lemma WaitingMore(pending: map<Hash, Task>, places: map<Hash, Place>, h0: Hash, parent: Hash)
    requires TokensWaiting(pending, places) && h0 in places && places[h0] == Queued && parent in pending
    ensures TokensWaiting(pending[parent := pending[parent].(dependents := pending[parent].dependents + [h0])],
                          places[h0 := Waiting(parent)])
  {
    var pending', places' :=
      pending[parent := pending[parent].(dependents := pending[parent].dependents + [h0])],
        places[h0 := Waiting(parent)];
    assert multiset(pending[parent].dependents + [h0]) == multiset(pending[parent].dependents) + multiset{h0};
    forall p, h | p in pending' ensures multiset(pending'[p].dependents)[h] == TokenAt(places', h, Waiting(p)) {
      assert multiset(pending[p].dependents)[h] == TokenAt(places, h, Waiting(p));
    }
  }

  /** Ending a task queues exactly its dependents. */
  lemma TokenEnds(pending: map<Hash, Task>, queued: multiset<Hash>, processing: multiset<Hash>, places: map<Hash,
                  Place>, h0: Hash)
    requires OneToken(pending, queued, processing, places) && h0 in processing
    ensures h0 in pending
    ensures OneToken(pending - {h0}, queued + multiset(pending[h0].dependents), processing - multiset{h0},
                     Woken(places, h0))
  {
    assert processing[h0] == TokenAt(places, h0, Processing);
    var pending', places' := pending - {h0}, Woken(places, h0);
    var queued' := queued + multiset(pending[h0].dependents);
    forall h ensures queued'[h] == TokenAt(places', h, Queued) {
      assert queued[h] == TokenAt(places, h, Queued);
      assert multiset(pending[h0].dependents)[h] == TokenAt(places, h, Waiting(h0));
    }
    forall p, h | p in pending' ensures multiset(pending'[p].dependents)[h] == TokenAt(places', h, Waiting(p)) {
      assert multiset(pending[p].dependents)[h] == TokenAt(places, h, Waiting(p));
    }
  }

  /** The places once `h0` has ended: what waited for it is queued. */
  ghost function Woken(places: map<Hash, Place>, h0: Hash): map<Hash, Place> {
    map h | h in places && h != h0 :: if places[h] == Waiting(h0) then Queued else places[h]
  }

  /** Senders that are new, each listed once. */
  ghost predicate NewSenders(holders: map<Sender, Option<Hash>>, senders: seq<Sender>) {
    (forall i :: 0 <= i < |senders| ==> senders[i] !in holders) && NoDup(senders)
  }

  ghost function Held(holders: map<Sender, Option<Hash>>, senders: seq<Sender>, h: Hash): map<Sender, Option<Hash>> {
    map s | s in holders.Keys + Elems(senders) :: if s in Elems(senders) then Some(h) else holders[s]
  }

  lemma {:induction false} DistinctCount(senders: seq<Sender>, s: Sender)
    requires NoDup(senders)
    ensures multiset(senders)[s] == if s in Elems(senders) then 1 else 0
  {
    if senders != [] {
      var n := |senders| - 1;
      DistinctCount(senders[..n], s);
      ElemsPrefix(senders, n);
      assert senders == senders[..n] + [senders[n]];
    }
  }

  lemma SendersRegistered(pending: map<Hash, Task>, delivered: multiset<Sender>, holders: map<Sender, Option<Hash>>,
                          h0: Hash, task: Task, senders: seq<Sender>)
    requires EachOnce(pending, delivered, holders) && NewSenders(holders, senders)
    requires task.senders == (if h0 in pending then pending[h0].senders else []) + senders
    ensures EachOnce(pending[h0 := task], delivered, Held(holders, senders, h0))
  {
    var pending', holders' := pending[h0 := task], Held(holders, senders, h0);
    forall s ensures s in Elems(senders) ==> s !in holders {}
    forall s ensures delivered[s] == HeldBy(holders', s, None) {
      assert delivered[s] == HeldBy(holders, s, None);
    }
    forall p, s | p in pending' ensures multiset(pending'[p].senders)[s] == HeldBy(holders', s, Some(p)) {
      if p in pending { assert multiset(pending[p].senders)[s] == HeldBy(holders, s, Some(p)); }
      if p == h0 {
        DistinctCount(senders, s);
        assert multiset(task.senders)[s]
          == multiset(if h0 in pending then pending[h0].senders else [])[s] + multiset(senders)[s];
      }
    }
  }

  lemma SendersKept(pending: map<Hash, Task>, delivered: multiset<Sender>, holders: map<Sender, Option<Hash>>,
                    p0: Hash, task: Task)
    requires EachOnce(pending, delivered, holders) && p0 in pending && task.senders == pending[p0].senders
    ensures EachOnce(pending[p0 := task], delivered, holders)
  {
    var pending' := pending[p0 := task];
    forall p, s | p in pending' ensures multiset(pending'[p].senders)[s] == HeldBy(holders, s, Some(p)) {
      assert multiset(pending[p].senders)[s] == HeldBy(holders, s, Some(p));
    }
  }

  ghost function Released(holders: map<Sender, Option<Hash>>, h0: Hash): map<Sender, Option<Hash>> {
    map s | s in holders :: if holders[s] == Some(h0) then None else holders[s]
  }

  /** Ending a task delivers exactly its senders. */
  lemma SendersDelivered(pending: map<Hash, Task>, delivered: multiset<Sender>, holders: map<Sender, Option<Hash>>,
                         h0: Hash)
    requires EachOnce(pending, delivered, holders) && h0 in pending
    ensures EachOnce(pending - {h0}, delivered + multiset(pending[h0].senders), Released(holders, h0))
  {
    var pending', holders' := pending - {h0}, Released(holders, h0);
    forall s ensures (delivered + multiset(pending[h0].senders))[s] == HeldBy(holders', s, None) {
      assert delivered[s] == HeldBy(holders, s, None)
        && multiset(pending[h0].senders)[s] == HeldBy(holders, s, Some(h0));
    }
    forall p, s | p in pending' ensures multiset(pending'[p].senders)[s] == HeldBy(holders', s, Some(p)) {
      assert multiset(pending[p].senders)[s] == HeldBy(holders, s, Some(p));
    }
  }

  /** The worker threads: tasks received, handed to the pool, begun and ended in any interleaving. */
  class HeaderPipeline {
    const manager: BlockTaskDependencyManager
    /** Hashes for which a job was handed to the thread pool. */
    var queued: multiset<Hash>
    /** Hashes that began and have not ended. */
    var processing: multiset<Hash>
    /** Senders that got their result, or went on with their block to the next stage. */
    var delivered: multiset<Sender>
    ghost var places: map<Hash, Place>
    ghost var holders: map<Sender, Option<Hash>>
    ghost const rank: Hash -> nat

    constructor (ghost rank: Hash -> nat)
      ensures Valid() && manager.pending == map[] && holders == map[] && fresh(manager) && this.rank == rank
    {
      manager := new BlockTaskDependencyManager();
      queued, processing, delivered := multiset{}, multiset{}, multiset{};
      places, holders := map[], map[];
      this.rank := rank;
    }

    ghost predicate Valid()
      reads this, manager
    {
      && OneToken(manager.pending, queued, processing, places) && EachOnce(manager.pending, delivered, holders)
      && Ordered(manager.pending, rank)
    }

    /** Receives a task. A job is handed to the pool exactly if the block was not pending. */
    method Receive(block: Block, senders: seq<Sender>)
      requires Valid() && NewSenders(holders, senders) && Acyclic(block, rank)
      requires block.hash in manager.pending ==> manager.pending[block.hash].block.parents == block.parents
      modifies this, manager
      ensures Valid() && block.hash in manager.pending
              && manager.pending.Keys == old(manager.pending.Keys) + {block.hash}
      ensures queued == if block.hash in old(manager.pending) then old(queued) else old(queued) + multiset{block.hash}
      ensures holders == Held(old(holders), senders, block.hash)
    {
      hide OneToken, EachOnce, Held, Ordered, NewSenders, Acyclic;
      ghost var pending, h := manager.pending, block.hash;
      var isNew := manager.Register(block, senders);
      OrderedWith(pending, rank, manager.pending[h], block);
      SendersRegistered(pending, delivered, holders, h, manager.pending[h], senders);
      if isNew {
        TokenRegistered(pending, queued, processing, places, block, senders);
        queued := queued + multiset{block.hash};
        places := places[h := Queued];
      } else {
        TokenUpdated(pending, queued, processing, places, h, manager.pending[h]);
      }
      assert manager.pending == pending[h := manager.pending[h]];
      holders := Held(holders, senders, h);
    }

    /** A job of the pool tries to begin its task. */
    method Begin(hash: Hash) returns (r: Option<Block>)
      requires Valid() && hash in queued
      modifies this, manager
      ensures Valid() && hash in old(manager.pending) && manager.pending.Keys == old(manager.pending.Keys)
      ensures r.Some? <==> !PendingParent(old(manager.pending), old(manager.pending)[hash].block)
      ensures r.Some? ==> r.value == old(manager.pending)[hash].block && processing == old(processing) + multiset{hash}
      ensures queued == old(queued) - multiset{hash} && holders == old(holders)
    {
      hide OneToken, EachOnce, Ordered, PendingParent, FirstPending;
      ghost var pending := manager.pending;
      TokenBegins(pending, queued, processing, places, hash);
      r := manager.TryBegin(hash);
      if r.Some? {
        processing := processing + multiset{hash};
        places := places[hash := Processing];
      } else {
        ghost var parent :| FirstPending(pending, pending[hash].block, parent) && parent in pending
          && manager.pending == pending[parent := pending[parent].(dependents := pending[parent].dependents + [hash])];
        FirstIsParent(pending, pending[hash].block, parent);
        OrderedSame(pending, rank, parent, manager.pending[parent]);
        TokenWaits(pending, queued, processing, places, hash, parent);
        SendersKept(pending, delivered, holders, parent, manager.pending[parent]);
        places := places[hash := Waiting(parent)];
      }
      queued := queued - multiset{hash};
    }

    /** A processed task ends: its senders are served and its dependents handed to the pool. */
    method Finish(hash: Hash)
      requires Valid() && hash in processing
      modifies this, manager
      ensures Valid() && hash in old(manager.pending) && manager.pending == old(manager.pending) - {hash}
      ensures delivered == old(delivered) + multiset(old(manager.pending)[hash].senders)
      ensures queued == old(queued) + multiset(old(manager.pending)[hash].dependents)
              && processing == old(processing) - multiset{hash}
      ensures holders == Released(old(holders), hash)
    {
      hide *;
      FinishReady(this, hash);
      var task := manager.End(hash);
      places := Woken(places, hash);
      holders := Released(holders, hash);
      Record(task, hash);
      MakeValid(this);
    }

    /** Lets jobs begin and tasks end in any order, as long as there are any: this always comes to an
        end, then nothing is pending, and every sender was served exactly once. */
    method Drain()
      requires Valid()
      modifies this, manager
      ensures Valid() && manager.pending == map[]
      ensures forall s :: delivered[s] == if s in old(holders) then 1 else 0
    {
      hide *;
      while queued != multiset{} || processing != multiset{}
        invariant Valid() && holders.Keys == old(holders.Keys)
        decreases |manager.pending|, |queued|
      {
        SomeJob(queued, processing);
        var hash :| hash in queued + processing;
        ghost var pending, held := manager.pending, holders;
        if hash in queued {
          var block := Begin(hash);
          SameSize(pending, manager.pending);
        } else {
          Finish(hash);
          FewerPending(pending, hash);
          ReleasedKeys(held, hash);
        }
      }
      Idle(this);
      forall s ensures delivered[s] == if s in old(holders) then 1 else 0 { AllServed(this, s); }
    }

    method Record(task: Task, hash: Hash)
      modifies this`delivered, this`queued, this`processing
      ensures delivered == old(delivered) + multiset(task.senders)
      ensures queued == old(queued) + multiset(task.dependents) && processing == old(processing) - multiset{hash}
    {
      delivered := delivered + multiset(task.senders);
      queued := queued + multiset(task.dependents);
      processing := processing - multiset{hash};
    }
  }

  lemma FinishReady(pipeline: HeaderPipeline, hash: Hash)
    requires pipeline.Valid() && hash in pipeline.processing
    ensures var pending := pipeline.manager.pending;
            && hash in pending && Ordered(pending - {hash}, pipeline.rank)
            && OneToken(pending - {hash}, pipeline.queued + multiset(pending[hash].dependents),
                        pipeline.processing - multiset{hash},
                        Woken(pipeline.places, hash))
            && EachOnce(pending - {hash}, pipeline.delivered + multiset(pending[hash].senders),
                        Released(pipeline.holders, hash))
  {
    hide OneToken, EachOnce, Woken, Released, Ordered;
    TokenEnds(pipeline.manager.pending, pipeline.queued, pipeline.processing, pipeline.places, hash);
    SendersDelivered(pipeline.manager.pending, pipeline.delivered, pipeline.holders, hash);
    OrderedFewer(pipeline.manager.pending, pipeline.rank, hash);
  }

  lemma MakeValid(pipeline: HeaderPipeline)
    requires OneToken(pipeline.manager.pending, pipeline.queued, pipeline.processing, pipeline.places)
    requires EachOnce(pipeline.manager.pending, pipeline.delivered, pipeline.holders)
             && Ordered(pipeline.manager.pending, pipeline.rank)
    ensures pipeline.Valid()
  {
    hide OneToken, EachOnce, Ordered;
  }

  lemma FirstIsParent(pending: map<Hash, Task>, block: Block, parent: Hash)
    requires FirstPending(pending, block, parent)
    ensures parent in block.parents && parent in pending
  {
  }

  lemma OrderedWith(pending: map<Hash, Task>, rank: Hash -> nat, task: Task, block: Block)
    requires Ordered(pending, rank) && Acyclic(block, rank)
    requires task.block == block || (block.hash in pending && task.block == pending[block.hash].block)
    ensures Ordered(pending[block.hash := task], rank)
  {
    hide Acyclic;
  }

  lemma OrderedSame(pending: map<Hash, Task>, rank: Hash -> nat, h: Hash, task: Task)
    requires Ordered(pending, rank) && h in pending && task.block == pending[h].block
    ensures Ordered(pending[h := task], rank)
  {
    hide Acyclic;
  }

  lemma OrderedFewer(pending: map<Hash, Task>, rank: Hash -> nat, h: Hash)
    requires Ordered(pending, rank)
    ensures Ordered(pending - {h}, rank)
  {
  }

  lemma {:induction false} LeastRank(s: set<Hash>, rank: Hash -> nat) returns (least: Hash)
    requires s != {}
    ensures least in s && forall h :: h in s ==> rank(least) <= rank(h)
    decreases |s|
  {
    var x :| x in s;
    least := x;
    if s != {x} {
      assert s - {x} != {};
      var rest := LeastRank(s - {x}, rank);
      if rank(rest) < rank(x) { least := rest; }
    }
  }

  /** While a task is pending, some task is being processed or can begin. */
  lemma Progress(pipeline: HeaderPipeline)
    requires pipeline.Valid() && pipeline.manager.pending != map[]
    ensures exists h :: h in pipeline.manager.pending &&
              (h in pipeline.processing
               || (h in pipeline.queued && !PendingParent(pipeline.manager.pending, pipeline.manager.pending[h].block)))
  {
    var pending, places := pipeline.manager.pending, pipeline.places;
    assert pending.Keys == {} ==> pending == map[];
    var h := LeastRank(pending.Keys, pipeline.rank);
    assert Acyclic(pending[h].block, pipeline.rank);
    assert pipeline.queued[h] == TokenAt(places, h, Queued) && pipeline.processing[h] == TokenAt(places, h, Processing);
  }

  /** Without a job or a task that is being processed, nothing is pending. */
  lemma Idle(pipeline: HeaderPipeline)
    requires pipeline.Valid() && pipeline.queued == multiset{} && pipeline.processing == multiset{}
    ensures pipeline.manager.pending == map[]
  {
    hide *;
    if pipeline.manager.pending != map[] { Progress(pipeline); }
  }

  lemma SomeJob(queued: multiset<Hash>, processing: multiset<Hash>)
    requires queued != multiset{} || processing != multiset{}
    ensures exists h :: h in queued + processing
  {
    assert queued + processing != multiset{};
    var h :| h in queued + processing;
  }

  lemma SameSize(a: map<Hash, Task>, b: map<Hash, Task>)
    requires a.Keys == b.Keys
    ensures |a| == |b|
  {
    assert |a| == |a.Keys| && |b| == |b.Keys|;
  }

  lemma FewerPending(pending: map<Hash, Task>, h: Hash)
    requires h in pending
    ensures |pending - {h}| < |pending|
  {
    assert (pending - {h}).Keys == pending.Keys - {h};
    assert |pending - {h}| == |(pending - {h}).Keys| && |pending| == |pending.Keys|;
  }

  lemma ReleasedKeys(holders: map<Sender, Option<Hash>>, h: Hash)
    ensures Released(holders, h).Keys == holders.Keys
  {
  }

  /** Once nothing is pending, every sender has been served exactly once. */
  lemma AllServed(pipeline: HeaderPipeline, s: Sender)
    requires pipeline.Valid() && pipeline.manager.pending == map[]
    ensures pipeline.delivered[s] == if s in pipeline.holders then 1 else 0
  {
    assert pipeline.delivered[s] == HeldBy(pipeline.holders, s, None);
  }
}
