/** Reachability queries as other processes see them. */
module ReachabilityServices {
  import opened Hashes
  import opened BlockDag
  import opened ReachabilityStore
  import RootMovement
  import opened Inquirer

  class ReachabilityService {
    const store: Store
    ghost const slack: nat

    constructor (store: Store, ghost slack: nat)
      ensures this.store == store && this.slack == slack
    {
      this.store := store;
      this.slack := slack;
    }

    /** The stored reachability data belong to the DAG `d`. */
    ghost predicate Serves(d: Dag)
      reads store
    {
      Mirrors(store.tree, store.interval, store.futureCovering, store.reindexRoot, d, slack)
    }

    method IsDagAncestorOf(block: Hash, queried: Hash, ghost d: Dag) returns (r: bool)
      requires Serves(d) && block in d.Blocks() && queried in d.Blocks()
      ensures r <==> Reaches(d, block, queried)
    {
      hide Mirrors, Reaches;
      var answer := Inquirer.IsDagAncestorOf(store, block, queried, d, slack);
      r := answer.value;
    }

    method IsChainAncestorOf(block: Hash, queried: Hash, ghost d: Dag) returns (r: bool)
      requires Serves(d) && block in d.Blocks() && queried in d.Blocks()
      ensures store.tree.WF() && queried in store.tree.nodes
      ensures r <==> store.tree.Anc(block, queried)
    {
      hide Mirrors;
      MirrorFacts(store.tree, store.interval, store.futureCovering, store.reindexRoot, d, slack);
      hide *;
      r := RootMovement.IsChainAncestorOf(store, block, queried);
    }

    /** Whether `block` is an ancestor of one of the listed blocks. */
    method IsDagAncestorOfAny(block: Hash, queried: seq<Hash>, ghost d: Dag) returns (r: bool)
      requires Serves(d) && block in d.Blocks() && Elems(queried) <= d.Blocks()
      ensures r <==> exists q :: q in queried && Reaches(d, block, q)
    {
      hide Serves, Reaches;
      for i := 0 to |queried|
        invariant forall j :: 0 <= j < i ==> !Reaches(d, block, queried[j])
      {
        assert queried[i] in Elems(queried);
        var below := IsDagAncestorOf(block, queried[i], d);
        if below {
          return true;
        }
      }
      r := false;
    }

    /** Whether one of the listed blocks is an ancestor of `queried`. */
    method IsAnyDagAncestor(list: seq<Hash>, queried: Hash, ghost d: Dag) returns (r: bool)
      requires Serves(d) && queried in d.Blocks() && Elems(list) <= d.Blocks()
      ensures r <==> exists q :: q in list && Reaches(d, q, queried)
    {
      hide Serves, Reaches;
      for i := 0 to |list|
        invariant forall j :: 0 <= j < i ==> !Reaches(d, list[j], queried)
      {
        assert list[i] in Elems(list);
        var below := IsDagAncestorOf(list[i], queried, d);
        if below {
          return true;
        }
      }
      r := false;
    }
  }
}

/** The GHOSTDAG protocol. */
module GhostdagProtocol {
  import opened Options
  import opened ReachabilityTree
  import opened Hashes
  import opened BlockDag
  import opened Ghostdag
  import opened Colouring
  import opened Sorting
  import opened GreedyColouring
  import opened ReachabilityServices

  datatype ColoringState = Blue | Red | Pending

  /** The blue anticone size of a blue candidate, and the sizes of the blues it affects. */
  datatype ColoringOutput = Accepted(size: KType, sizes: map<Hash, KType>) | Rejected

  /** The breadth-first search for the mergeset: found blocks are merged; their parents were
      found too, or are in the past of the selected parent, unless the block is still queued. */
  ghost predicate Searching(d: Dag, parents: set<Hash>, sp: Hash, found: set<Hash>, queue: seq<Hash>, open: set<Hash>) {
    && parents - {sp} <= found && found <= MergeSet(d, parents, sp) + (parents - {sp})
    && Elems(queue) <= found
    && forall x :: x in found ==> x in queue || x in open || Handled(d, sp, found, x)
  }

  ghost predicate Handled(d: Dag, sp: Hash, found: set<Hash>, x: Hash) {
    forall p :: p in d.Parents(x) ==> p in found || Reaches(d, p, sp)
  }

  lemma FoundParent(d: Dag, parents: set<Hash>, sp: Hash, x: Hash, p: Hash)
    requires d.Valid() && x in MergeSet(d, parents, sp) + (parents - {sp}) && p in d.Parents(x) && !Reaches(d, p, sp)
    ensures p in MergeSet(d, parents, sp)
  {
    PastUnfold(d, x);
    assert p in d.Past(x);
    if x !in parents {
      var q :| q in parents && x in d.Past(q);
      PastTrans(d, p, x, q);
      assert p in d.PastOf(parents);
    }
  }

  /** When the queue is empty, everything merged below a found block was found. */
  lemma {:induction false} FoundAll(d: Dag, parents: set<Hash>, sp: Hash, found: set<Hash>, y: Hash, x: Hash)
    requires d.Valid() && Searching(d, parents, sp, found, [], {}) && y in found && x in d.Past(y) && !Reaches(d, x, sp)
    ensures x in found
    decreases d.Rank(y)
  {
    PastUnfold(d, y);
    assert Handled(d, sp, found, y);
    if x !in d.Parents(y) {
      var p :| p in d.Parents(y) && x in d.Past(p);
      if p in found {
        RankPast(d, p, y);
        FoundAll(d, parents, sp, found, p, x);
      } else {
        ReachesTrans(d, x, p, sp);
      }
    }
  }

  lemma SearchDone(d: Dag, parents: set<Hash>, sp: Hash, found: set<Hash>)
    requires d.Valid() && Searching(d, parents, sp, found, [], {})
    ensures found == MergeSet(d, parents, sp) + (parents - {sp})
  {
    forall x | x in MergeSet(d, parents, sp) ensures x in found {
      MergeSetMember(d, parents, sp, x);
      if x !in parents {
        assert x in d.PastOf(parents);
        var p :| p in parents && x in d.Past(p);
        FoundAll(d, parents, sp, found, p, x);
      }
    }
  }

  /** The search finds the mergeset exactly when no other parent is in the past of the selected one. */
  lemma SearchExact(d: Dag, parents: set<Hash>, sp: Hash)
    requires d.Valid()
    ensures MergeSet(d, parents, sp) + (parents - {sp}) == MergeSet(d, parents, sp) <==>
              forall p :: p in parents && p != sp ==> p !in d.Past(sp)
  {
    if forall p :: p in parents && p != sp ==> p !in d.Past(sp) {
      forall p | p in parents - {sp} ensures p in MergeSet(d, parents, sp) {
        MergeSetMember(d, parents, sp, p);
      }
    } else {
      var p :| p in parents && p != sp && p in d.Past(sp);
      assert p !in MergeSet(d, parents, sp) && p in parents - {sp};
    }
  }

  /** Too much is found already for a block and its parent, given as the two parents of a new one. */
  lemma SearchFindsTooMuch()
    ensures var d := Block(Origin(1), 2, {1});
            d.Valid() && MergeSet(d, {1, 2}, 2) + ({1, 2} - {2}) != MergeSet(d, {1, 2}, 2)
  {
    var d := Block(Origin(1), 2, {1});
    assert d.prior == Origin(1) && d.prior.Valid();
    assert 1 in d.Past(2);
    SearchExact(d, {1, 2}, 2);
    assert 1 in {1, 2};
  }

  /** No other parent is in the past of the heaviest one: the lists the search is right for. */
  ghost predicate NoneBelowHeaviest(d: Dag, g: Colours, parents: set<Hash>) {
    forall p, sp :: p in parents && p != sp && Heaviest(g, parents, sp) ==> p !in d.Past(sp)
  }

  lemma AntichainSuffices(d: Dag, g: Colours, parents: set<Hash>)
    requires Antichain(d, parents)
    ensures NoneBelowHeaviest(d, g, parents)
  {
  }

  lemma SearchPush(d: Dag, parents: set<Hash>, sp: Hash, found: set<Hash>, queue: seq<Hash>, open: set<Hash>, p: Hash)
    requires Searching(d, parents, sp, found, queue, open) && p in MergeSet(d, parents, sp)
    ensures Searching(d, parents, sp, found + {p}, queue + [p], open)
  {
    hide MergeSet, Dag.Parents, Reaches;
    assert (queue + [p])[|queue|] == p;
    assert forall x :: x in queue ==> x in queue + [p];
  }

  lemma SearchPop(d: Dag, parents: set<Hash>, sp: Hash, found: set<Hash>, queue: seq<Hash>)
    requires Searching(d, parents, sp, found, queue, {}) && queue != []
    ensures Searching(d, parents, sp, found, queue[1..], {queue[0]}) && queue[0] in found
  {
    hide MergeSet, Handled;
    assert queue == [queue[0]] + queue[1..];
    assert queue[0] in Elems(queue);
  }

  lemma SearchClose(d: Dag, parents: set<Hash>, sp: Hash, found: set<Hash>, queue: seq<Hash>, x: Hash)
    requires Searching(d, parents, sp, found, queue, {x}) && Handled(d, sp, found, x)
    ensures Searching(d, parents, sp, found, queue, {})
  {
    hide MergeSet;
  }

  // ----- facts about stored data -----

  /** Blues are listed once, and none of them was blue before. */
  ghost predicate Clean(d: Dag, g: Colours, data: Data)
    requires Chained(d, g) && data.selectedParent in g
  {
    NoDup(data.blues) && Elems(data.blues) !! BlueSet(d, g, data.selectedParent)
  }

  lemma MergedOutside(d: Dag, parents: set<Hash>, sp: Hash, blues: seq<Hash>, x: Hash)
    requires d.Valid() && blues != [] && blues[0] == sp && Elems(blues[1..]) <= MergeSet(d, parents, sp) && x in blues
    ensures x !in d.Past(sp)
  {
    PastIn(d, sp);
    var i :| 0 <= i < |blues| && blues[i] == x;
    if i > 0 {
      assert blues[1..][i - 1] == x;
      assert x in Elems(blues[1..]);
    }
  }

  lemma PartialClean(d: Dag, g: Colours, k: nat, parents: set<Hash>, data: Data)
    requires Partial(d, g, k, parents, data)
    ensures Clean(d, g, data)
  {
    forall x | x in Elems(data.blues) ensures x !in BlueSet(d, g, data.selectedParent) {
      MergedOutside(d, parents, data.selectedParent, data.blues, x);
    }
  }

  lemma StoredClean(d: Dag, g: Colours, k: nat, b: Hash)
    requires Coloured(d, g, k) && b in g && b != d.Root()
    ensures Linked(d, g, b) && Clean(d, g, g[b]) && BlueSet(d, g, b) == BlueOf(d, g, g[b])
  {
    assert ColouredAt(d, g, k, b);
    var data, sp := g[b], g[b].selectedParent;
    BlueInPast(d, g, k, sp);
    forall x | x in Elems(data.blues) ensures x !in BlueSet(d, g, sp) {
      MergedOutside(d, d.Parents(b), sp, data.blues, x);
    }
    forall i, j | 0 <= i < j < |data.blues| ensures data.blues[i] != data.blues[j] {
      assert data.blues[j] == data.blues[1..][j - 1] && data.blues[j] in Elems(data.blues[1..]);
      if i > 0 { assert data.blues[i] == data.blues[1..][i - 1]; }
    }
  }

  /** A merged block that is sorted behind all blues so far can be coloured next. */
  lemma NextCandidate(d: Dag, g: Colours, k: nat, parents: set<Hash>, data: Data, merged: seq<Hash>, i: nat)
    requires Coloured(d, g, k) && Partial(d, g, k, parents, data) && Ascending(g, merged) && i < |merged|
    requires Elems(merged) == MergeSet(d, parents, data.selectedParent) && Elems(data.blues[1..]) <= Elems(merged[..i])
    ensures Candidate(d, g, parents, data, merged[i])
  {
    var sp, c := data.selectedParent, merged[i];
    assert c in Elems(merged);
    MergeSetMember(d, parents, sp, c);
    forall x | x in BlueOf(d, g, data) ensures !Reaches(d, c, x) {
      if x in BlueSet(d, g, sp) {
        if Reaches(d, c, x) { ReachesTrans(d, c, x, sp); }
      } else {
        var j :| 0 <= j < |data.blues| && data.blues[j] == x;
        if j > 0 {
          assert data.blues[1..][j - 1] == x && x in Elems(data.blues[1..]);
          var m :| 0 <= m < i && merged[..i][m] == x;
          AscendingTopological(d, g, merged, m, i);
        }
      }
    }
  }

  lemma MaxDominates(d: Dag, g: Colours, parents: set<Hash>, sp: Hash)
    requires WorkGrows(d, g) && sp in parents && parents <= g.Keys
    requires forall p :: p in parents ==> g[p].blueWork <= g[sp].blueWork
    ensures Dominates(d, parents, sp)
  {
    forall m | m in MergeSet(d, parents, sp) ensures !Reaches(d, sp, m) {
      MergeSetMember(d, parents, sp, m);
      if sp in d.Past(m) {
        if m in parents {
          WorkGrowsPast(d, g, sp, m);
        } else {
          var q :| q in parents && m in d.Past(q);
          PastTrans(d, sp, m, q);
          WorkGrowsPast(d, g, sp, q);
        }
      }
    }
  }

  /** Parents and work of every block are on record. */
  ghost predicate Recorded(d: Dag, relations: map<Hash, seq<Hash>>, works: map<Hash, nat>) {
    && relations.Keys == d.Blocks()
    && (forall b :: b in relations ==> Elems(relations[b]) == d.Parents(b) && NoDup(relations[b]))
    && works.Keys == d.Blocks() && (forall b :: b in works ==> works[b] >= 1)
  }

  /** The tree is that of the selected parents. */
  ghost predicate Spine(t: Tree, g: Colours, genesis: Hash) {
    forall b :: b in g && b != genesis ==> b in t.nodes && t.nodes[b].parent == g[b].selectedParent
  }

  /** Tree ancestry is being on the selected chain. */
  lemma {:induction false} ChainIsTree(t: Tree, d: Dag, g: Colours, a: Hash, b: Hash)
    requires Chained(d, g) && t.WF() && t.origin == d.Root() && Spine(t, g, d.Root()) && b in g && b in t.nodes
    ensures t.Anc(a, b) <==> OnChain(d, g, a, b)
    decreases d.Rank(b)
  {
    if a != b && b != d.Root() {
      assert Linked(d, g, b);
      assert t.NodeWF(b);
      ChainIsTree(t, d, g, a, g[b].selectedParent);
    }
  }

  class GhostdagManager {
    const genesis: Hash
    const k: KType
    const reachability: ReachabilityService
    /** Parents of every block. */
    var relations: map<Hash, seq<Hash>>
    /** The work that the header bits of every block stand for. */
    var works: map<Hash, nat>
    var ghostdag: Colours

    constructor (genesis: Hash, k: KType, reachability: ReachabilityService, work: nat)
      ensures this.genesis == genesis && this.k == k && this.reachability == reachability
      ensures relations == map[genesis := []] && works == map[genesis := work]
      ensures ghostdag == map[genesis := GENESIS]
    {
      this.genesis := genesis;
      this.k := k;
      this.reachability := reachability;
      relations := map[genesis := []];
      works := map[genesis := work];
      ghostdag := map[genesis := GENESIS];
    }

    /** All stores belong to the DAG `d`. */
    ghost predicate Valid(d: Dag)
      reads this, reachability.store
    {
      && k < 255 && d.Valid() && genesis == d.Root() && reachability.Serves(d)
      && Recorded(d, relations, works) && Coloured(d, ghostdag, k) && Computed(d, ghostdag, works, k)
      && Spine(reachability.store.tree, ghostdag, genesis)
    }

    /** The parent with the highest blue work. */
    method FindSelectedParent(parents: seq<Hash>) returns (best: Hash)
      requires parents != [] && forall i :: 0 <= i < |parents| ==> parents[i] in ghostdag
      ensures best in parents
              && forall i :: 0 <= i < |parents| ==> parents[i] == best || Less(ghostdag, parents[i], best)
    {
      best := parents[0];
      for j := 1 to |parents|
        invariant best in parents && best in ghostdag
        invariant forall i :: 0 <= i < j ==> parents[i] == best || Less(ghostdag, parents[i], best)
      {
        if Less(ghostdag, best, parents[j]) {
          best := parents[j];
        }
      }
    }

    /** Lists the blocks by ascending blue work. */
    method SortBlocks(blocks: set<Hash>) returns (sorted: seq<Hash>)
      requires blocks <= ghostdag.Keys
      ensures Ascending(ghostdag, sorted) && Elems(sorted) == blocks
    {
      sorted := [];
      var rest := blocks;
      while rest != {}
        invariant rest <= blocks && Ascending(ghostdag, sorted) && Elems(sorted) == blocks - rest
        decreases |rest|
      {
        var x :| x in rest;
        var i := 0;
        assert x !in Elems(sorted);
        while i < |sorted| && Less(ghostdag, sorted[i], x)
          invariant 0 <= i <= |sorted|
          invariant forall j :: 0 <= j < i ==> Less(ghostdag, sorted[j], x)
        {
          i := i + 1;
        }
        forall j | i <= j < |sorted| ensures Less(ghostdag, x, sorted[j]) {
          assert sorted[i] in Elems(sorted);
        }
        AscendingInsert(ghostdag, sorted, i, x);
        sorted := sorted[..i] + [x] + sorted[i..];
        rest := rest - {x};
      }
    }

    /** The blocks merged by a block with these parents, in ascending blue work: a breadth-first
        search that stops at the past of the selected parent. */
    method OrderedMergesetWithoutSelectedParent(selectedParent: Hash, parents: seq<Hash>, ghost d: Dag)
      returns (sorted: seq<Hash>)
      requires Valid(d) && selectedParent in d.Blocks() && Elems(parents) <= d.Blocks()
      ensures Ascending(ghostdag, sorted)
      ensures Elems(sorted) == MergeSet(d, Elems(parents), selectedParent) + (Elems(parents) - {selectedParent})
    {
      hide Coloured, Computed, Spine, Reaches, MergeSet, Searching, Dag.Valid, Dag.Blocks, Dag.Parents, Elems,
           ReachabilityService.Serves;
      var queue := OtherParents(selectedParent, parents);
      ghost var ps := Elems(parents);
      var mergeset := Elems(queue);
      var selectedParentPast: set<Hash> := {};
      SearchStart(d, ps, selectedParent, queue);
      while queue != []
        invariant Searching(d, ps, selectedParent, mergeset, queue, {})
        invariant mergeset <= d.Blocks()
        invariant forall x :: x in selectedParentPast ==> Reaches(d, x, selectedParent)
        decreases |d.Blocks() - mergeset|, |queue|
      {
        var current := queue[0];
        SearchPop(d, ps, selectedParent, mergeset, queue);
        queue := queue[1..];
        var currentParents := relations[current];
        mergeset, queue, selectedParentPast :=
          SearchParents(selectedParent, ps, current, currentParents, mergeset, queue, selectedParentPast, d);
      }
      NothingQueued(d, ps, selectedParent, mergeset, queue);
      SearchDone(d, ps, selectedParent, mergeset);
      ManagerFacts(this, d);
      sorted := SortBlocks(mergeset);
    }

    method OtherParents(selectedParent: Hash, parents: seq<Hash>) returns (others: seq<Hash>)
      ensures Elems(others) == Elems(parents) - {selectedParent}
    {
      hide Elems;
      others := [];
      ElemsEmpty();
      assert parents[..0] == [];
      for i := 0 to |parents|
        invariant Elems(others) == Elems(parents[..i]) - {selectedParent}
      {
        ElemsPrefix(parents, i);
        ElemsAppend(others, parents[i]);
        if parents[i] != selectedParent {
          others := others + [parents[i]];
        }
      }
      assert parents[..|parents|] == parents;
    }

    /** Goes over the parents of one block of the search. */
    method SearchParents(selectedParent: Hash, ghost ps: set<Hash>, ghost current: Hash, currentParents: seq<Hash>,
                         found0: set<Hash>,
                         queue0: seq<Hash>, past0: set<Hash>, ghost d: Dag)
      returns (found: set<Hash>, queue: seq<Hash>, past: set<Hash>)
      requires Valid(d) && selectedParent in d.Blocks() && current in found0
               && Elems(currentParents) == d.Parents(current)
      requires Searching(d, ps, selectedParent, found0, queue0, {current}) && found0 <= d.Blocks()
      requires forall x :: x in past0 ==> Reaches(d, x, selectedParent)
      ensures Searching(d, ps, selectedParent, found, queue, {}) && found <= d.Blocks()
      ensures forall x :: x in past ==> Reaches(d, x, selectedParent)
      ensures |d.Blocks() - found| < |d.Blocks() - found0| || (found == found0 && queue == queue0)
    {
      hide Coloured, Computed, Spine, Reaches, MergeSet, Searching, Dag.Valid, Dag.Blocks, Dag.Parents,
           ReachabilityService.Serves, Dag.Past;
      found, queue, past := found0, queue0, past0;
      PastUnfold(d, current);
      for i := 0 to |currentParents|
        invariant Searching(d, ps, selectedParent, found, queue, {current}) && current in found
                  && found0 <= found <= d.Blocks()
        invariant forall x :: x in past ==> Reaches(d, x, selectedParent)
        invariant forall j :: 0 <= j < i ==> currentParents[j] in found || Reaches(d, currentParents[j], selectedParent)
        invariant found != found0 || queue == queue0
      {
        var parent := currentParents[i];
        assert parent in Elems(currentParents);
        if parent in found || parent in past {
          continue;
        }
        var below := reachability.IsDagAncestorOf(parent, selectedParent, d);
        if below {
          past := past + {parent};
          continue;
        }
        StillMerged(d, ps, selectedParent, found, queue, {current}, current);
        FoundParent(d, ps, selectedParent, current, parent);
        SearchPush(d, ps, selectedParent, found, queue, {current}, parent);
        found := found + {parent};
        queue := queue + [parent];
      }
      if found != found0 { SubsetSize(d.Blocks() - found, d.Blocks() - found0); }
      AllHandled(d, selectedParent, found, current, currentParents);
      SearchClose(d, ps, selectedParent, found, queue, current);
    }

    /** The blue anticone size of a blue block in the view of `context`: the first entry down the
        selected chain. An entry is always found before genesis. */
    method BlueAnticoneSize(block: Hash, context: Data, ghost d: Dag) returns (size: KType)
      requires Chained(d, ghostdag) && genesis == d.Root() && context.selectedParent in ghostdag
      requires Lookup(d, ghostdag, context, block) >= 0
      ensures size == Lookup(d, ghostdag, context, block)
    {
      var current := context;
      while block !in current.sizes
        invariant current.selectedParent in ghostdag
        invariant Lookup(d, ghostdag, current, block) == Lookup(d, ghostdag, context, block)
        decreases d.Rank(current.selectedParent)
      {
        assert current.selectedParent != genesis;
        assert Linked(d, ghostdag, current.selectedParent);
        current := ghostdag[current.selectedParent];
      }
      size := current.sizes[block];
    }

    /** Compares the candidate with one blue block. */
    method CompareBlue(newData: Data, block: Hash, candidate: Hash, sizes0: map<Hash, KType>, size0: KType,
                       ghost parents: set<Hash>, ghost seen: set<Hash>, ghost rest: set<Hash>, ghost d: Dag)
      returns (state: ColoringState, sizes: map<Hash, KType>, size: KType)
      requires Valid(d) && Colourable(d, ghostdag, k, parents, newData, candidate) && Chained(d, ghostdag)
      requires newData.selectedParent in ghostdag && block in rest && block in d.Blocks()
      requires Walk(d, ghostdag, k, newData, candidate, seen, rest, sizes0) && size0 == |sizes0.Keys|
      ensures state.Red? || state.Pending?
      ensures state.Red? ==> !Accepts(d, ghostdag, k, newData, candidate)
      ensures state.Pending? ==>
                size == |sizes.Keys| && Walk(d, ghostdag, k, newData, candidate, seen + {block}, rest - {block}, sizes)
    {
      hide *;
      sizes, size := sizes0, size0;
      ghost var g := ghostdag;
      ManagerFacts(this, d);
      ColourableFacts(d, g, k, parents, newData, candidate);
      var below := reachability.IsDagAncestorOf(block, candidate, d);
      if below {
        WalkSkip(d, g, k, newData, candidate, seen, rest, sizes, block);
        return Pending, sizes, size;
      }
      WalkAnticone(d, g, k, parents, newData, candidate, seen, rest, sizes0, block);
      WalkBound(d, g, k, newData, candidate, seen, rest, sizes0);
      var blockSize := BlueAnticoneSize(block, newData, d);
      KeyEntered(sizes0, block, blockSize);
      sizes := sizes[block := blockSize];
      size := size + 1;
      if size > k {
        WalkRejects(d, g, k, parents, newData, candidate, seen, rest, sizes0, block);
        return Red, sizes, size;
      }
      if sizes[block] == k {
        WalkRejects(d, g, k, parents, newData, candidate, seen, rest, sizes0, block);
        return Red, sizes, size;
      }
      assert sizes[block] <= k;
      WalkEnter(d, g, k, parents, newData, candidate, seen, rest, sizes0, block, blockSize);
      state := Pending;
    }

    /** Compares the candidate with the blues that one chain block merged; `hash` is `None` for
        the new block itself. */
    method CheckBlueCandidateWithChainBlock(newData: Data, hash: Option<Hash>, data: Data, candidate: Hash,
                                            sizes0: map<Hash, KType>,
                                            size0: KType, ghost parents: set<Hash>, ghost seen: set<Hash>, ghost d: Dag)
      returns (state: ColoringState, sizes: map<Hash, KType>, size: KType)
      requires Valid(d) && Colourable(d, ghostdag, k, parents, newData, candidate)
      requires ChainBlock(ghostdag, newData, hash, data)
      requires Walk(d, ghostdag, k, newData, candidate, seen, RestOf(d, ghostdag, newData, hash), sizes0)
               && size0 == |sizes0.Keys|
      ensures state.Blue? ==>
                Affected(d, ghostdag, k, newData, candidate, sizes) && Accepts(d, ghostdag, k, newData, candidate)
      ensures state.Red? ==> !Accepts(d, ghostdag, k, newData, candidate)
      ensures state.Pending? ==>
                && hash != Some(genesis) && data.selectedParent in ghostdag
                && Walk(d, ghostdag, k, newData, candidate, seen + Elems(data.blues),
                        BlueSet(d, ghostdag, data.selectedParent), sizes)
      ensures !state.Red? ==> size == |sizes.Keys|
    {
      hide *;
      sizes, size := sizes0, size0;
      ghost var g := ghostdag;
      ManagerFacts(this, d);
      ColourableFacts(d, g, k, parents, newData, candidate);
      ghost var rest := RestOf(d, g, newData, hash);
      if hash.Some? {
        HashKnown(d, g, newData, hash, data);
        var below := reachability.IsDagAncestorOf(hash.value, candidate, d);
        if below {
          RestBelow(d, g, k, newData, hash.value, candidate);
          WalkEnd(d, g, k, parents, newData, candidate, seen, rest, sizes);
          state := Blue;
          return;
        }
      }
      RestClean(d, g, k, parents, newData, hash, data, candidate);
      WalkFirst(seen, rest, data.blues);
      for i := 0 to |data.blues|
        invariant Walk(d, g, k, newData, candidate, seen + Elems(data.blues[..i]), rest - Elems(data.blues[..i]), sizes)
        invariant size == |sizes.Keys|
      {
        WalkAt(seen, rest, data.blues, i);
        state, sizes, size := CompareBlue(newData, data.blues[i], candidate, sizes, size, parents,
                                          seen + Elems(data.blues[..i]), rest - Elems(data.blues[..i]), d);
        if state == Red {
          return;
        }
      }
      WalkLast(d, g, seen, rest, data);
      state := Pending;
    }

    /** Walks down the selected chain until the candidate's colour is decided. */
    method CheckBlueCandidate(newData: Data, candidate: Hash, ghost parents: set<Hash>, ghost d: Dag)
      returns (output: ColoringOutput)
      requires Valid(d) && Colourable(d, ghostdag, k, parents, newData, candidate)
      requires Dominates(d, parents, newData.selectedParent)
      ensures output.Accepted? <==> Accepts(d, ghostdag, k, newData, candidate)
      ensures output.Accepted? ==>
                Affected(d, ghostdag, k, newData, candidate, output.sizes) && output.size == |output.sizes.Keys|
      ensures output.Accepted? ==> |newData.blues| <= k
    {
      hide *;
      ghost var g := ghostdag;
      ManagerFacts(this, d);
      ColourableFacts(d, g, k, parents, newData, candidate);
      if |newData.blues| == k + 1 {
        FullMeansRed(d, g, k, parents, newData, candidate);
        return Rejected;
      }
      var sizes: map<Hash, KType>, size: KType := map[], 0;
      var hash: Option<Hash>, data := None, newData;
      ghost var seen: set<Hash> := {};
      WalkStart(d, g, k, newData, candidate);
      RestStart(d, g, newData);
      while true
        invariant ChainBlock(g, newData, hash, data) && size == |sizes.Keys|
        invariant Walk(d, g, k, newData, candidate, seen, RestOf(d, g, newData, hash), sizes)
        decreases ChainRank(d, hash)
      {
        var state;
        state, sizes, size :=
          CheckBlueCandidateWithChainBlock(newData, hash, data, candidate, sizes, size, parents, seen, d);
        if state == Blue {
          return Accepted(size, sizes);
        } else if state == Red {
          return Rejected;
        }
        seen := seen + Elems(data.blues);
        ChainStep(d, g, newData, hash, data);
        hash := Some(data.selectedParent);
        data := ghostdag[data.selectedParent];
      }
    }

    /** The data of a block with the given parents, exactly as the definition gives them: its mergeset
        coloured greedily in ascending blue work, each block blue exactly if the blue set stays a
        k-cluster, with score, work and sizes as counted plainly. */
    method Ghostdag(parents: seq<Hash>, ghost d: Dag) returns (data: Data)
      requires Valid(d) && parents != [] && Elems(parents) <= d.Blocks()
               && NoneBelowHeaviest(d, ghostdag, Elems(parents))
      ensures Finished(d, ghostdag, k, Elems(parents), data)
      ensures Naive(d, ghostdag, works, k, Elems(parents), data)
    {
      hide *;
      ghost var g, ps := ghostdag, Elems(parents);
      ManagerFacts(this, d);
      KnownParents(parents, g);
      var selectedParent := FindSelectedParent(parents);
      HeaviestParent(d, g, parents, selectedParent);
      data := WithSelectedParent(selectedParent);
      StartsWith(selectedParent);
      PartialStart(d, g, k, ps, selectedParent);
      var orderedMergeset := OrderedMergesetWithoutSelectedParent(selectedParent, parents, d);
      ghost var merged := orderedMergeset;
      SearchExact(d, ps, selectedParent);
      ghost var s := BlueSet(d, g, selectedParent) + {selectedParent};
      ColouredNone(d, g, k, ps, data, merged, s);
      for i := 0 to |orderedMergeset|
        invariant ColouredUpTo(d, g, k, ps, data, merged, i, s) && data.selectedParent == selectedParent
      {
        var candidate := orderedMergeset[i];
        CandidateReady(d, g, k, ps, data, merged, i, s);
        var output := CheckBlueCandidate(data, candidate, ps, d);
        ghost var before := data;
        if output.Accepted? {
          SizesFit(d, g, k, data, candidate, output.sizes);
          data := data.(blues := data.blues + [candidate],
                        sizes := Raised(data.sizes, candidate, output.size, output.sizes));
          BlueStep(d, g, k, ps, before, merged, i, s, output.size, output.sizes, data);
        } else {
          data := data.(reds := data.reds + [candidate]);
          RedStep(d, g, k, ps, before, merged, i, s, data);
        }
      }
      ghost var coloured := data;
      BluesKnown(this, d, ps, data, merged, s);
      data := data.(blueScore := ghostdag[selectedParent].blueScore + |data.blues|,
                    blueWork := ghostdag[selectedParent].blueWork + SumWork(works, data.blues));
      FinishedNow(d, g, k, works, ps, coloured, data, merged, s);
      NaiveNow(d, g, k, works, ps, data, merged, s);
    }
  }

  // ----- the state of a check -----

  /** All that a check of `candidate` may rely on. */
  ghost predicate Colourable(d: Dag, g: Colours, k: nat, parents: set<Hash>, data: Data, candidate: Hash) {
    && Partial(d, g, k, parents, data) && Candidate(d, g, parents, data, candidate)
    && parents <= d.Blocks() && candidate in d.Blocks()
  }

  lemma ColourableFacts(d: Dag, g: Colours, k: nat, parents: set<Hash>, data: Data, candidate: Hash)
    requires Colourable(d, g, k, parents, data, candidate)
    ensures Partial(d, g, k, parents, data) && Chained(d, g) && data.selectedParent in g
            && Candidate(d, g, parents, data, candidate)
    ensures candidate in d.Blocks() && |data.blues| <= k + 1
  {
    hide Chained, Exact, Candidate;
  }

  lemma ManagerFacts(m: GhostdagManager, d: Dag)
    requires m.Valid(d)
    ensures m.k < 255 && Coloured(d, m.ghostdag, m.k) && Chained(d, m.ghostdag) && WorkGrows(d, m.ghostdag)
    ensures d.Valid() && m.genesis == d.Root() && m.reachability.Serves(d) && m.ghostdag.Keys == d.Blocks()
  {
    ColouredChained(d, m.ghostdag, m.k);
  }

  lemma ManagerWorks(m: GhostdagManager, d: Dag)
    requires m.Valid(d)
    ensures m.works.Keys == d.Blocks() && Computed(d, m.ghostdag, m.works, m.k)
  {
    hide Coloured, Computed, ReachabilityService.Serves;
  }

  /** `data` are those of the chain block `hash`, or of the new block. */
  ghost predicate ChainBlock(g: Colours, newData: Data, hash: Option<Hash>, data: Data) {
    if hash.None? then data == newData else hash.value in g && data == g[hash.value]
  }

  /** The blues not looked at before the chain block `hash`. */
  ghost function RestOf(d: Dag, g: Colours, newData: Data, hash: Option<Hash>): set<Hash>
    requires Chained(d, g) && newData.selectedParent in g
  {
    if hash.None? then BlueOf(d, g, newData)
    else if hash.value in g then BlueSet(d, g, hash.value)
    else {}
  }

  ghost function ChainRank(d: Dag, hash: Option<Hash>): nat {
    if hash.None? then d.Size() + 1 else d.Rank(hash.value)
  }

  lemma HashKnown(d: Dag, g: Colours, newData: Data, hash: Option<Hash>, data: Data)
    requires Chained(d, g) && ChainBlock(g, newData, hash, data) && hash.Some? && newData.selectedParent in g
    ensures hash.value in g && hash.value in d.Blocks() && RestOf(d, g, newData, hash) == BlueSet(d, g, hash.value)
  {
  }

  /** If the candidate is in the future of a chain block, it is in the future of the blues of that block. */
  lemma RestBelow(d: Dag, g: Colours, k: nat, newData: Data, h: Hash, c: Hash)
    requires Coloured(d, g, k) && Chained(d, g) && h in g && Reaches(d, h, c)
    ensures forall x :: x in BlueSet(d, g, h) ==> Reaches(d, x, c)
  {
    BlueInPast(d, g, k, h);
    forall x | x in BlueSet(d, g, h) ensures Reaches(d, x, c) {
      ReachesTrans(d, x, h, c);
    }
  }

  /** Genesis reaches every candidate, so a block that does not is no genesis. */
  lemma RestClean(d: Dag, g: Colours, k: nat, parents: set<Hash>, newData: Data, hash: Option<Hash>, data: Data,
                  c: Hash)
    requires Coloured(d, g, k) && Colourable(d, g, k, parents, newData, c) && ChainBlock(g, newData, hash, data)
    requires hash.Some? ==> !Reaches(d, hash.value, c)
    requires Chained(d, g) && newData.selectedParent in g
    ensures hash != Some(d.Root()) && data.selectedParent in g && Clean(d, g, data)
    ensures RestOf(d, g, newData, hash) == BlueOf(d, g, data) && RestOf(d, g, newData, hash) <= d.Blocks()
    ensures NoDup(data.blues) && Elems(data.blues) <= RestOf(d, g, newData, hash)
  {
    RootReaches(d, c);
    hide Coloured;
    if hash.Some? {
      StoredClean(d, g, k, hash.value);
      BlueInPast(d, g, k, hash.value);
      PastIn(d, hash.value);
    } else {
      PartialClean(d, g, k, parents, newData);
      PartialInBlocks(d, g, k, parents, newData);
    }
  }

  lemma PartialInBlocks(d: Dag, g: Colours, k: nat, parents: set<Hash>, data: Data)
    requires Partial(d, g, k, parents, data) && parents <= d.Blocks()
    ensures BlueOf(d, g, data) <= d.Blocks()
  {
    var sp := data.selectedParent;
    PastIn(d, sp);
    forall x | x in data.blues ensures x in d.Blocks() {
      var i :| 0 <= i < |data.blues| && data.blues[i] == x;
      if i > 0 {
        assert data.blues[1..][i - 1] == x && x in Elems(data.blues[1..]);
        MergeSetMember(d, parents, sp, x);
        if x !in parents {
          assert x in d.PastOf(parents);
          var q :| q in parents && x in d.Past(q);
          PastIn(d, q);
        }
      }
    }
  }

  lemma WalkFirst(seen: set<Hash>, rest: set<Hash>, blues: seq<Hash>)
    ensures seen + Elems(blues[..0]) == seen && rest - Elems(blues[..0]) == rest
    ensures blues[..|blues|] == blues
  {
  }

  lemma WalkAt(seen: set<Hash>, rest: set<Hash>, blues: seq<Hash>, i: nat)
    requires i < |blues| && NoDup(blues) && Elems(blues) <= rest
    ensures blues[i] in rest - Elems(blues[..i]) && blues[i] in rest
    ensures seen + Elems(blues[..i + 1]) == seen + Elems(blues[..i]) + {blues[i]}
    ensures rest - Elems(blues[..i + 1]) == rest - Elems(blues[..i]) - {blues[i]}
  {
    ElemsPrefix(blues, i);
  }

  lemma WalkLast(d: Dag, g: Colours, seen: set<Hash>, rest: set<Hash>, data: Data)
    requires Chained(d, g) && data.selectedParent in g && Clean(d, g, data) && rest == BlueOf(d, g, data)
    ensures rest - Elems(data.blues) == BlueSet(d, g, data.selectedParent)
  {
  }

  lemma WalkBound(d: Dag, g: Colours, k: nat, data: Data, c: Hash, seen: set<Hash>, rest: set<Hash>, m: map<Hash,
                  KType>)
    requires Chained(d, g) && data.selectedParent in g && Walk(d, g, k, data, c, seen, rest, m)
    ensures |m.Keys| <= k
  {
  }

  lemma RestStart(d: Dag, g: Colours, newData: Data)
    requires Chained(d, g) && newData.selectedParent in g
    ensures RestOf(d, g, newData, None) == BlueOf(d, g, newData) && ChainBlock(g, newData, None, newData)
  {
  }

  lemma ChainStep(d: Dag, g: Colours, newData: Data, hash: Option<Hash>, data: Data)
    requires Chained(d, g) && ChainBlock(g, newData, hash, data) && hash != Some(d.Root()) && data.selectedParent in g
    requires newData.selectedParent in g
    ensures ChainBlock(g, newData, Some(data.selectedParent), g[data.selectedParent])
    ensures RestOf(d, g, newData, Some(data.selectedParent)) == BlueSet(d, g, data.selectedParent)
    ensures ChainRank(d, Some(data.selectedParent)) < ChainRank(d, hash)
  {
    if hash.Some? { assert Linked(d, g, hash.value); }
    RankBound(d, data.selectedParent);
  }

  // ----- the state of a mergeset search -----

  lemma SearchStart(d: Dag, parents: set<Hash>, sp: Hash, queue: seq<Hash>)
    requires Elems(queue) == parents - {sp}
    ensures Searching(d, parents, sp, Elems(queue), queue, {})
  {
  }

  lemma NothingQueued(d: Dag, parents: set<Hash>, sp: Hash, found: set<Hash>, queue: seq<Hash>)
    requires Searching(d, parents, sp, found, queue, {}) && queue == []
    ensures Searching(d, parents, sp, found, [], {})
  {
  }

  lemma StillMerged(d: Dag, parents: set<Hash>, sp: Hash, found: set<Hash>, queue: seq<Hash>, open: set<Hash>, x: Hash)
    requires Searching(d, parents, sp, found, queue, open) && x in found
    ensures x in MergeSet(d, parents, sp) + (parents - {sp})
  {
  }

  lemma AllHandled(d: Dag, sp: Hash, found: set<Hash>, x: Hash, parents: seq<Hash>)
    requires Elems(parents) == d.Parents(x)
    requires forall j :: 0 <= j < |parents| ==> parents[j] in found || Reaches(d, parents[j], sp)
    ensures Handled(d, sp, found, x)
  {
    forall p | p in d.Parents(x) ensures p in found || Reaches(d, p, sp) {
      var j :| 0 <= j < |parents| && parents[j] == p;
    }
  }

  // ----- the state of a colouring -----

  /** `blues` and `reds` divide the first `i` merged blocks, in their order. */
  ghost predicate Divided(g: Colours, blues: seq<Hash>, reds: seq<Hash>, merged: seq<Hash>, i: nat)
    requires i <= |merged|
  {
    && Elems(blues) + Elems(reds) == Elems(merged[..i]) && Elems(blues) !! Elems(reds)
    && Ascending(g, blues) && Ascending(g, reds)
  }

  /** The first `i` merged blocks are coloured as the greedy colouring does. */
  ghost predicate ColouredUpTo(d: Dag, g: Colours, k: nat, parents: set<Hash>, data: Data, merged: seq<Hash>, i: nat,
                               s: set<Hash>)
  {
    && Partial(d, g, k, parents, data) && Ascending(g, merged) && i <= |merged|
    && Elems(merged) == MergeSet(d, parents, data.selectedParent)
    && s == BlueSet(d, g, data.selectedParent) + {data.selectedParent}
    && data.blues == [data.selectedParent] + GreedyBlues(d, s, merged[..i], k)
    && data.sizes.Keys == Sized(d, BlueOf(d, g, data), Elems(data.blues))
    && Divided(g, data.blues[1..], data.reds, merged, i)
  }

  lemma KnownParents(parents: seq<Hash>, g: Colours)
    requires Elems(parents) <= g.Keys
    ensures forall i :: 0 <= i < |parents| ==> parents[i] in g
  {
    forall i | 0 <= i < |parents| ensures parents[i] in g { assert parents[i] in Elems(parents); }
  }

  lemma StartsWith(selectedParent: Hash)
    ensures WithSelectedParent(selectedParent).selectedParent == selectedParent
  {
  }

  lemma HeaviestParent(d: Dag, g: Colours, parents: seq<Hash>, sp: Hash)
    requires WorkGrows(d, g) && sp in parents && Elems(parents) <= g.Keys && NoneBelowHeaviest(d, g, Elems(parents))
    requires forall i :: 0 <= i < |parents| ==> parents[i] in g
    requires forall i :: 0 <= i < |parents| ==> parents[i] == sp || Less(g, parents[i], sp)
    ensures sp in g && sp in Elems(parents) && Dominates(d, Elems(parents), sp) && Heaviest(g, Elems(parents), sp)
    ensures forall p :: p in Elems(parents) && p != sp ==> p !in d.Past(sp)
    ensures forall p :: p in Elems(parents) ==> p in g && g[p].blueWork <= g[sp].blueWork
  {
    hide Dominates, WorkGrows;
    forall p | p in Elems(parents) ensures g[p].blueWork <= g[sp].blueWork && (p == sp || Less(g, p, sp)) {
      var i :| 0 <= i < |parents| && parents[i] == p;
    }
    MaxDominates(d, g, Elems(parents), sp);
  }

  lemma ColouredNone(d: Dag, g: Colours, k: nat, parents: set<Hash>, data: Data, merged: seq<Hash>, s: set<Hash>)
    requires Partial(d, g, k, parents, data) && data.selectedParent in g && Chained(d, g)
             && data == WithSelectedParent(data.selectedParent)
    requires Ascending(g, merged) && Elems(merged) == MergeSet(d, parents, data.selectedParent)
    requires s == BlueSet(d, g, data.selectedParent) + {data.selectedParent}
    ensures ColouredUpTo(d, g, k, parents, data, merged, 0, s)
  {
    hide Partial, MergeSet, BlueSet, Chained, Sized, BlueOf, Less;
    SizedFirst(d, g, k, parents, data);
  }

  lemma SizedFirst(d: Dag, g: Colours, k: nat, parents: set<Hash>, data: Data)
    requires Partial(d, g, k, parents, data) && data == WithSelectedParent(data.selectedParent)
    ensures data.sizes.Keys == Sized(d, BlueOf(d, g, data), Elems(data.blues))
  {
    hide Exact, MergeSet, Chained, BlueSet;
    var sp := data.selectedParent;
    assert Elems(data.blues) == {sp};
    forall x | x in BlueSet(d, g, sp) ensures AnticoneIn(d, x, {sp}) == {} {
      assert Reaches(d, x, sp);
    }
  }

  /** A new blue is recorded, and so is every blue in its anticone. */
  lemma SizedMore(d: Dag, s: set<Hash>, blues: set<Hash>, c: Hash)
    requires blues <= s && c !in s
    ensures Sized(d, s + {c}, blues + {c}) == Sized(d, s, blues) + {c} + AnticoneIn(d, c, s)
  {
    forall x | x in s
      ensures AnticoneIn(d, x, blues + {c}) == AnticoneIn(d, x, blues) + (if Anticone(d, c, x) then {c} else {}) {}
  }

  lemma CandidateReady(d: Dag, g: Colours, k: nat, parents: set<Hash>, data: Data, merged: seq<Hash>, i: nat,
                       s: set<Hash>)
    requires Coloured(d, g, k) && ColouredUpTo(d, g, k, parents, data, merged, i, s) && i < |merged|
             && parents <= d.Blocks()
    ensures Colourable(d, g, k, parents, data, merged[i]) && Chained(d, g) && data.selectedParent in g
  {
    hide Coloured, Exact, Candidate, BlueSet, MergeSet, KCluster;
    assert Elems(data.blues[1..]) <= Elems(merged[..i]);
    NextCandidate(d, g, k, parents, data, merged, i);
    ColouredChained(d, g, k);
    assert merged[i] in g;
  }

  lemma SizesFit(d: Dag, g: Colours, k: nat, data: Data, c: Hash, m: map<Hash, KType>)
    requires Chained(d, g) && data.selectedParent in g && Affected(d, g, k, data, c, m) && k <= 255
    ensures forall x :: x in m ==> m[x] < 255
  {
  }

  lemma AscendingAppend(g: Colours, s: seq<Hash>, merged: seq<Hash>, i: nat)
    requires Ascending(g, merged) && Ascending(g, s) && i < |merged| && Elems(s) <= Elems(merged[..i])
    ensures Ascending(g, s + [merged[i]])
  {
    hide Less;
    var r := s + [merged[i]];
    forall j, m | 0 <= j < m < |r| ensures Less(g, r[j], r[m]) {
      if m == |s| {
        assert s[j] in Elems(s);
        var q :| 0 <= q < i && merged[..i][q] == s[j];
      }
    }
  }

  /** The blue set so far is that of the greedy colouring so far. */
  lemma GreedySet(d: Dag, g: Colours, k: nat, parents: set<Hash>, data: Data, merged: seq<Hash>, i: nat, s: set<Hash>)
    requires ColouredUpTo(d, g, k, parents, data, merged, i, s) && Chained(d, g) && data.selectedParent in g
    ensures BlueOf(d, g, data) == s + Elems(GreedyBlues(d, s, merged[..i], k))
  {
    hide Partial, MergeSet, BlueSet, Chained, GreedyBlues;
    var elder := GreedyBlues(d, s, merged[..i], k);
    assert data.blues[1..] == elder;
    assert Elems(data.blues) == {data.selectedParent} + Elems(elder);
  }

  lemma GreedyStep(d: Dag, g: Colours, k: nat, parents: set<Hash>, data: Data, merged: seq<Hash>, i: nat, s: set<Hash>)
    requires ColouredUpTo(d, g, k, parents, data, merged, i, s) && Chained(d, g) && data.selectedParent in g
             && i < |merged|
    ensures GreedyBlues(d, s, merged[..i + 1], k)
            == GreedyBlues(d, s, merged[..i], k) + if Accepts(d, g, k, data, merged[i]) then [merged[i]] else []
  {
    hide ColouredUpTo, BlueOf, KCluster, Chained, GreedyBlues, Elems;
    GreedySet(d, g, k, parents, data, merged, i, s);
    GreedyNext(d, s, merged, i, k);
  }

  lemma GreedyNext(d: Dag, s: set<Hash>, merged: seq<Hash>, i: nat, k: nat)
    requires i < |merged|
    ensures var elder := GreedyBlues(d, s, merged[..i], k);
            GreedyBlues(d, s, merged[..i + 1], k)
            == elder + if KCluster(d, s + Elems(elder) + {merged[i]}, k) then [merged[i]] else []
  {
    hide KCluster, Elems;
    assert merged[..i + 1][..i] == merged[..i];
  }

  /** The next merged block has no colour yet, and sorts behind all that have. */
  lemma DividedStep(g: Colours, blues: seq<Hash>, reds: seq<Hash>, merged: seq<Hash>, i: nat)
    requires Ascending(g, merged) && i < |merged| && Divided(g, blues, reds, merged, i)
    ensures Divided(g, blues + [merged[i]], reds, merged, i + 1) && Divided(g, blues, reds + [merged[i]], merged, i + 1)
  {
    var c := merged[i];
    AscendingDistinct(g, merged);
    hide Ascending, Elems;
    ElemsPrefix(merged, i);
    ElemsAppend(blues, c);
    ElemsAppend(reds, c);
    AscendingAppend(g, blues, merged, i);
    AscendingAppend(g, reds, merged, i);
  }

  lemma BlueStep(d: Dag, g: Colours, k: KType, parents: set<Hash>, data: Data, merged: seq<Hash>, i: nat, s: set<Hash>,
                 n: KType, m: map<Hash, KType>, data': Data)
    requires ColouredUpTo(d, g, k, parents, data, merged, i, s) && i < |merged| && |data.blues| <= k
    requires Colourable(d, g, k, parents, data, merged[i]) && Chained(d, g) && data.selectedParent in g
    requires Affected(d, g, k, data, merged[i], m) && n == |m.Keys| && Accepts(d, g, k, data, merged[i])
    requires forall x :: x in m ==> m[x] < 255
    requires data' == data.(blues := data.blues + [merged[i]], sizes := Raised(data.sizes, merged[i], n, m))
    ensures ColouredUpTo(d, g, k, parents, data', merged, i + 1, s)
  {
    hide Partial, MergeSet, BlueSet, Chained, GreedyBlues, Affected, Accepts, Raised, Colourable, Ascending, Elems,
         Divided, BlueOf, Sized, Candidate;
    var c := merged[i];
    ColourableFacts(d, g, k, parents, data, c);
    SizedStep(d, g, k, parents, data, c, n, m, data');
    PartialFacts(d, g, k, parents, data);
    BlueAdded(d, g, k, parents, data, c, n, m, data');
    GreedyStep(d, g, k, parents, data, merged, i, s);
    DividedStep(g, data.blues[1..], data.reds, merged, i);
    assert data'.blues[1..] == data.blues[1..] + [c];
  }

  lemma SameBlue(d: Dag, g: Colours, data: Data, data': Data)
    requires Chained(d, g) && data.selectedParent in g && data'.selectedParent == data.selectedParent
    requires data'.blues == data.blues
    ensures BlueOf(d, g, data') == BlueOf(d, g, data)
  {
  }

  lemma SizedStep(d: Dag, g: Colours, k: KType, parents: set<Hash>, data: Data, c: Hash, n: KType, m: map<Hash, KType>,
                  data': Data)
    requires Partial(d, g, k, parents, data) && Chained(d, g) && data.selectedParent in g
    requires Candidate(d, g, parents, data, c) && Affected(d, g, k, data, c, m)
    requires data.sizes.Keys == Sized(d, BlueOf(d, g, data), Elems(data.blues)) && forall x :: x in m ==> m[x] < 255
    requires data' == data.(blues := data.blues + [c], sizes := Raised(data.sizes, c, n, m))
    ensures data'.sizes.Keys == Sized(d, BlueOf(d, g, data'), Elems(data'.blues))
  {
    hide Chained, Exact, AnticoneIn, Anticone, MergeSet, Sized, BlueSet, Elems, Candidate;
    CandidateNew(d, g, parents, data, c);
    BlueOfAppend(d, g, data, data', c);
    ElemsAppend(data.blues, c);
    SizedMore(d, BlueOf(d, g, data), Elems(data.blues), c);
    assert data'.sizes.Keys == data.sizes.Keys + {c} + m.Keys;
  }

  lemma RedStep(d: Dag, g: Colours, k: nat, parents: set<Hash>, data: Data, merged: seq<Hash>, i: nat, s: set<Hash>,
                data': Data)
    requires ColouredUpTo(d, g, k, parents, data, merged, i, s) && i < |merged|
    requires Chained(d, g) && data.selectedParent in g && !Accepts(d, g, k, data, merged[i])
    requires data' == data.(reds := data.reds + [merged[i]])
    ensures ColouredUpTo(d, g, k, parents, data', merged, i + 1, s)
  {
    hide Partial, MergeSet, BlueSet, Chained, GreedyBlues, Accepts, Ascending, Elems, Divided, BlueOf, Sized;
    PartialFacts(d, g, k, parents, data);
    PartialSame(d, g, k, parents, data, data');
    SameBlue(d, g, data, data');
    GreedyStep(d, g, k, parents, data, merged, i, s);
    DividedStep(g, data.blues[1..], data.reds, merged, i);
  }

  lemma BluesKnown(m: GhostdagManager, d: Dag, parents: set<Hash>, data: Data, merged: seq<Hash>, s: set<Hash>)
    requires m.Valid(d) && parents <= d.Blocks() && ColouredUpTo(d, m.ghostdag, m.k, parents, data, merged, |merged|, s)
    ensures data.selectedParent in m.ghostdag
    ensures forall i :: 0 <= i < |data.blues| ==> data.blues[i] in m.works && m.works[data.blues[i]] >= 1
  {
    hide Coloured, MergeSet, BlueSet, GreedyBlues, Partial, BlueOf, Divided, ReachabilityService.Serves;
    PartialFacts(d, m.ghostdag, m.k, parents, data);
    PartialInBlocks(d, m.ghostdag, m.k, parents, data);
    BluesBlue(d, m.ghostdag, data);
  }

  lemma BluesBlue(d: Dag, g: Colours, data: Data)
    requires Chained(d, g) && data.selectedParent in g
    ensures forall i :: 0 <= i < |data.blues| ==> data.blues[i] in BlueOf(d, g, data)
  {
    forall i | 0 <= i < |data.blues| ensures data.blues[i] in BlueOf(d, g, data) {
      assert data.blues[i] in Elems(data.blues);
    }
  }

  lemma FinishedNow(d: Dag, g: Colours, k: KType, works: map<Hash, nat>, parents: set<Hash>, coloured: Data,
                    data: Data, merged: seq<Hash>, s: set<Hash>)
    requires ColouredUpTo(d, g, k, parents, coloured, merged, |merged|, s)
    requires coloured.selectedParent in parents && coloured.selectedParent in g
             && Heaviest(g, parents, coloured.selectedParent)
    requires forall p :: p in parents ==> p in g && g[p].blueWork <= g[coloured.selectedParent].blueWork
    requires forall i :: 0 <= i < |coloured.blues| ==> coloured.blues[i] in works && works[coloured.blues[i]] >= 1
    requires data == coloured.(blueScore := g[coloured.selectedParent].blueScore + |coloured.blues|,
                               blueWork := g[coloured.selectedParent].blueWork + SumWork(works, coloured.blues))
    ensures Finished(d, g, k, parents, data) && ColouredUpTo(d, g, k, parents, data, merged, |merged|, s)
  {
    hide BlueSet, GreedyBlues, MergeSet, Ascending, BlueOf, Sized, Chained, Exact, SumWork, Elems, Less;
    UpToSame(d, g, k, parents, coloured, data, merged, s);
    SumWorkPositive(works, data.blues);
    MergesNow(d, g, k, parents, data, merged, s);
  }

  lemma UpToSame(d: Dag, g: Colours, k: nat, parents: set<Hash>, coloured: Data, data: Data, merged: seq<Hash>,
                 s: set<Hash>)
    requires ColouredUpTo(d, g, k, parents, coloured, merged, |merged|, s)
    requires data.selectedParent == coloured.selectedParent && data.blues == coloured.blues
    requires data.reds == coloured.reds && data.sizes == coloured.sizes
    ensures ColouredUpTo(d, g, k, parents, data, merged, |merged|, s) && Partial(d, g, k, parents, data)
    ensures |data.blues| <= k + 1
  {
    hide BlueSet, GreedyBlues, Partial, MergeSet, Ascending, BlueOf, Sized, Chained, Divided, Elems;
    PartialFacts(d, g, k, parents, coloured);
    PartialSame(d, g, k, parents, coloured, data);
    SameBlue(d, g, coloured, data);
  }

  lemma MergesNow(d: Dag, g: Colours, k: KType, parents: set<Hash>, data: Data, merged: seq<Hash>, s: set<Hash>)
    requires ColouredUpTo(d, g, k, parents, data, merged, |merged|, s) && |data.blues| <= k + 1
    requires Heaviest(g, parents, data.selectedParent)
    ensures Merges(d, g, parents, data)
  {
    hide BlueSet, GreedyBlues, Partial, MergeSet, Ascending, BlueOf, Sized, Chained, Heaviest, Elems;
    assert merged[..|merged|] == merged;
  }

  /** Coloured to the end, the data are what the definition gives. */
  lemma NaiveNow(d: Dag, g: Colours, k: KType, works: map<Hash, nat>, parents: set<Hash>, data: Data,
                 merged: seq<Hash>, s: set<Hash>)
    requires Coloured(d, g, k) && Finished(d, g, k, parents, data)
    requires ColouredUpTo(d, g, k, parents, data, merged, |merged|, s)
    requires data.selectedParent in g && (forall i :: 0 <= i < |data.blues| ==> data.blues[i] in works)
    requires data.blueWork == g[data.selectedParent].blueWork + SumWork(works, data.blues)
    ensures Naive(d, g, works, k, parents, data)
  {
    hide BlueSet, GreedyBlues, Partial, MergeSet, BlueOf, Sized, Coloured, Chained, Exact, SumWork;
    var sp := data.selectedParent;
    PartialFacts(d, g, k, parents, data);
    FinishedBlue(d, g, k, parents, data);
    assert merged[..|merged|] == merged;
    MergedKnown(g, merged);
    AscendingUnique(g, merged, Sorted(g, Elems(merged)));
    SelectedNotMerged(d, parents, sp);
    assert Elems(data.blues) == {sp} + Elems(data.blues[1..]) by { assert data.blues == [sp] + data.blues[1..]; }
    AscendingUnique(g, data.reds, Sorted(g, Elems(merged) - Elems(data.blues)));
    SizesExact(d, g, k, data);
  }

  lemma SelectedNotMerged(d: Dag, parents: set<Hash>, sp: Hash)
    ensures sp !in MergeSet(d, parents, sp)
  {
  }

  lemma MergedKnown(g: Colours, merged: seq<Hash>)
    requires Ascending(g, merged)
    ensures Elems(merged) <= g.Keys
  {
  }

  lemma SizesExact(d: Dag, g: Colours, k: nat, data: Data)
    requires Chained(d, g) && data.selectedParent in g && Exact(d, g, data, k)
    requires data.sizes.Keys == Sized(d, BlueOf(d, g, data), Elems(data.blues))
    ensures NaiveSizes(d, g, data)
  {
    hide Chained, BlueOf;
    forall x | x in data.sizes ensures data.sizes[x] == |AnticoneIn(d, x, BlueOf(d, g, data))| {
      assert ExactAt(d, g, data, k, x);
    }
  }
}
