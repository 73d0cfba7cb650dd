/** Adding a block to the selected-parent tree. */
module TreeGrowth {
  import opened Hashes
  import opened Intervals
  import opened ReachabilityTree
  import opened ReachabilityStore
  import opened ReclaimWalk
  import opened Reindexing
  import opened Capacity
  import opened Insertion

  /** What every operation on the store keeps: labels that mirror the tree, and a lean chain
      down to the reindex root. */
  ghost predicate Sound(t: Tree, iv: Labels, root: Hash, slack: nat) {
    Good(t, iv, NONE) && root in t.nodes && LeanChain(t, iv, root, slack, NONE)
  }

  lemma GrownSound(t: Tree, t': Tree, iv: Labels, b: Hash, p: Hash, i: Interval, root: Hash, slack: nat)
    requires Grown(t, t', b, p) && Sound(t, iv, root, slack)
    requires !IsEmpty(iv[p]) && Placed(t, iv, p) && Appended(t, iv, p, i)
    ensures iv[b := i].Keys == t'.nodes.Keys && iv[b := i][t.origin] == iv[t.origin]
    ensures !IsEmpty(i) ==> Sound(t', iv[b := i], root, slack)
    ensures IsEmpty(i) ==> Newcomer(t', iv[b := i], b, root, slack)
  {
    hide Appended, Good, LeanChain, Grown, Placed, Tree.WF, Newcomer;
    GrownFacts(t, t', b, p);
    GrownNode(t, t', b, p, p);
    GrownGood(t, t', iv, b, p, i);
    GrownLean(t, t', iv, b, p, i, root, slack);
    if IsEmpty(i) {
      NewcomerNow(t', iv[b := i], b, root, slack);
    }
  }

  lemma NewcomerNow(t: Tree, iv: Labels, n: Hash, root: Hash, slack: nat)
    requires Good(t, iv, n) && n in t.nodes && n != t.origin && t.Children(n) == [] && IsEmpty(iv[n])
    requires t.Children(t.Parent(n)) != [] && t.Children(t.Parent(n))[|t.Children(t.Parent(n))| - 1] == n
    requires root in t.nodes && root != n && LeanChain(t, iv, root, slack, NONE)
    ensures Newcomer(t, iv, n, root, slack)
  {
    hide Good, LeanChain;
  }

  lemma SoundFacts(t: Tree, iv: Labels, root: Hash, slack: nat)
    requires Sound(t, iv, root, slack)
    ensures t.WF() && iv.Keys == t.nodes.Keys && t.origin in t.nodes && root in t.nodes
  {
  }

  lemma NewcomerRoom(t: Tree, iv: Labels, n: Hash, root: Hash, slack: nat)
    requires Newcomer(t, iv, n, root, slack) && Roomy(|t.nodes|, slack, Size(iv[t.origin]))
    ensures root in t.nodes && RootRoom(t, iv, root, slack)
  {
    hide Good, LeanChain, RootRoom, Roomy;
    RoomyRoot(t, iv, n, root, slack);
  }

  /** Appends `newBlock` to the children of `parent`, with half of the labels left there, or
      with labels made free by a reindex. */
  method AddTreeBlock(store: Store, newBlock: Hash, parent: Hash, slack: nat) returns (r: Result<()>)
    requires Sound(store.tree, store.interval, store.reindexRoot, slack) && newBlock != NONE
    requires Roomy(|store.tree.nodes| + 1, slack, Size(store.interval[store.tree.origin]))
    modifies store`tree, store`interval, store`futureCovering
    ensures parent !in old(store.tree.nodes) ==>
              r == Err(KeyNotFound) && unchanged(store`tree) && unchanged(store`interval)
                && unchanged(store`futureCovering)
    ensures parent in old(store.tree.nodes) && newBlock in old(store.tree.nodes) ==> r == Err(KeyAlreadyExists)
    ensures parent in old(store.tree.nodes) && newBlock !in old(store.tree.nodes) ==>
              && r == Ok(())
              && store.tree == old(store.tree).Insert(newBlock, parent)
              && store.futureCovering == old(store.futureCovering)[newBlock := []]
              && Sound(store.tree, store.interval, store.reindexRoot, slack)
              && store.interval[store.tree.origin] == old(store.interval[store.tree.origin])
  {
    hide *;
    SoundFacts(store.tree, store.interval, store.reindexRoot, slack);
    if parent !in store.tree.nodes {
      return Err(KeyNotFound);
    }
    ghost var t, iv := store.tree, store.interval;
    LastPlaced(t, iv, store.reindexRoot, slack, parent);
    var remaining := RemainingAfter(store.tree, store.interval, parent);
    var height := store.tree.Height(parent);
    store.tree := store.tree.AppendChild(newBlock, parent);
    AppendedKeys(t, newBlock, parent);
    if newBlock in store.tree.nodes {
      return Err(KeyAlreadyExists);
    }
    var allocation := Allocate(remaining);
    store.tree := store.tree.InsertNode(newBlock, parent, height + 1);
    store.interval := store.interval[newBlock := allocation];
    store.futureCovering := store.futureCovering[newBlock := []];
    BlockAdded(t, store.tree, iv, newBlock, parent, allocation, store.reindexRoot, slack);
    if IsEmpty(remaining) {
      var context := new ReindexContext(store, slack);
      ContextReady(context);
      var outcome := context.ReindexIntervals(newBlock, store.reindexRoot);
      MakeSound(store.tree, store.interval, store.reindexRoot, slack);
    }
    r := Ok(());
  }

  /** The whole of an empty interval, or half of one that is not. */
  method Allocate(remaining: Interval) returns (i: Interval)
    ensures i.start == remaining.start && i.end <= remaining.end
    ensures Size(i) == if IsEmpty(remaining) then 0 else HalfF32(Size(remaining))
    ensures IsEmpty(i) <==> IsEmpty(remaining)
  {
    hide HalfF32;
    if IsEmpty(remaining) {
      return remaining;
    }
    var left, right := SplitHalf(remaining);
    i := left;
  }

  lemma AppendedKeys(t: Tree, b: Hash, p: Hash)
    requires p in t.nodes
    ensures t.AppendChild(b, p).nodes.Keys == t.nodes.Keys
  {
  }

  lemma LastPlaced(t: Tree, iv: Labels, root: Hash, slack: nat, p: Hash)
    requires Sound(t, iv, root, slack) && p in t.nodes
    ensures t.WF() && iv.Keys == t.nodes.Keys && !IsEmpty(iv[p])
    ensures t.Children(p) != [] ==> StrictlyContains(iv[p], iv[t.Children(p)[|t.Children(p)| - 1]])
  {
    assert Placed(t, iv, p);
  }

  lemma BlockAdded(t: Tree, t': Tree, iv: Labels, b: Hash, p: Hash, i: Interval, root: Hash, slack: nat)
    requires Sound(t, iv, root, slack) && p in t.nodes && b !in t.nodes && b != NONE
    requires t' == t.AppendChild(b, p).InsertNode(b, p, t.Height(p) + 1)
    requires t.WF() && iv.Keys == t.nodes.Keys && !IsEmpty(iv[p])
    requires t.Children(p) != [] ==> StrictlyContains(iv[p], iv[t.Children(p)[|t.Children(p)| - 1]])
    requires i.start == RemainingAfter(t, iv, p).start && i.end <= RemainingAfter(t, iv, p).end
    requires Roomy(|t.nodes| + 1, slack, Size(iv[t.origin]))
    ensures t' == t.Insert(b, p) && t'.WF() && t'.origin == t.origin && t'.origin in t'.nodes
    ensures iv[b := i].Keys == t'.nodes.Keys && iv[b := i][t.origin] == iv[t.origin]
    ensures !IsEmpty(i) ==> Sound(t', iv[b := i], root, slack)
    ensures IsEmpty(i) ==>
              Newcomer(t', iv[b := i], b, root, slack) && root in t'.nodes && RootRoom(t', iv[b := i], root, slack)
  {
    assert t' == t.Insert(b, p);
    assert Placed(t, iv, p) && Appended(t, iv, p, i);
    hide *;
    InsertGrows(t, b, p);
    GrownFacts(t, t', b, p);
    GrownSound(t, t', iv, b, p, i, root, slack);
    if IsEmpty(i) {
      NewcomerRoom(t', iv[b := i], b, root, slack);
    }
  }

  lemma ContextReady(c: ReindexContext)
    requires c.store.tree.WF() && c.store.interval.Keys == c.store.tree.nodes.Keys && c.subtreeSizes == map[]
    ensures c.Ready()
  {
  }

  lemma MakeSound(t: Tree, iv: Labels, root: Hash, slack: nat)
    requires Good(t, iv, NONE) && root in t.nodes && LeanChain(t, iv, root, slack, NONE)
    ensures Sound(t, iv, root, slack)
  {
    hide Good, LeanChain;
  }

  lemma SoundGood(t: Tree, iv: Labels, root: Hash, slack: nat)
    requires Sound(t, iv, root, slack)
    ensures Good(t, iv, NONE) && root in t.nodes && LeanChain(t, iv, root, slack, NONE)
  {
    hide Good, LeanChain;
  }
}
