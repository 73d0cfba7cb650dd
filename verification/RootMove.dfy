/** Choosing a new reindex root and moving to it. */
module RootMovement {
  import opened Hashes
  import opened Intervals
  import opened ReachabilityTree
  import opened ReachabilityStore
  import opened DescendantSearch
  import opened Reindexing
  import opened Capacity
  import opened Concentration
  import opened TreeGrowth

  /** Interval containment decides ancestry. */
  method IsChainAncestorOf(store: Store, block: Hash, queried: Hash) returns (r: bool)
    requires Good(store.tree, store.interval, NONE) && block in store.tree.nodes && queried in store.tree.nodes
    ensures r <==> store.tree.Anc(block, queried)
  {
    ContainmentIsAncestry(store.tree, store.interval, NONE, block, queried);
    r := Contains(store.interval[block], store.interval[queried]);
  }

  /** The child of `ancestor` on the way to `descendant`; an error unless `descendant` is a
      strict descendant. */
  method NextChainAncestor(store: Store, descendant: Hash, ancestor: Hash) returns (r: Result<Hash>)
    requires Good(store.tree, store.interval, NONE) && descendant in store.tree.nodes && ancestor in store.tree.nodes
    ensures descendant != ancestor && store.tree.Anc(ancestor, descendant) ==>
              && r.Ok? && r.value in store.tree.nodes && r.value != store.tree.origin
              && store.tree.Parent(r.value) == ancestor && store.tree.Anc(r.value, descendant)
    ensures !(descendant != ancestor && store.tree.Anc(ancestor, descendant)) ==> r == Err(BadQuery)
  {
    if descendant == ancestor {
      return Err(BadQuery);
    }
    var below := IsChainAncestorOf(store, ancestor, descendant);
    if !below {
      return Err(BadQuery);
    }
    GoodPath(store.tree, store.interval, descendant, ancestor);
    r := NextChainAncestorUnchecked(store.tree, store.interval, descendant, ancestor);
  }

  lemma GoodPath(t: Tree, iv: Labels, d: Hash, a: Hash)
    requires Good(t, iv, NONE) && d in t.nodes && a in t.nodes
    ensures t.WF() && iv.Keys == t.nodes.Keys && !IsEmpty(iv[d]) && InOrder(t, iv, a) && PathPlaced(t, iv, a, d)
  {
    assert Placed(t, iv, a);
  }

  /** Children end before their parent does. */
  lemma NoChildMeets(t: Tree, iv: Labels, a: Hash)
    requires Good(t, iv, NONE) && a in t.nodes
    ensures forall c :: c in t.nodes && c != t.origin && t.Parent(c) == a ==> !Meets(iv[c], iv[a])
  {
    forall c | c in t.nodes && c != t.origin && t.Parent(c) == a ensures !Meets(iv[c], iv[a]) {
      assert Placed(t, iv, a);
      var k :| 0 <= k < |t.Children(a)| && t.Children(a)[k] == c;
    }
  }

  /** The deepest common ancestor of `block` and the reindex root. */
  method FindCommonTreeAncestor(store: Store, block: Hash, reindexRoot: Hash) returns (common: Hash)
    requires Good(store.tree, store.interval, NONE) && block in store.tree.nodes && reindexRoot in store.tree.nodes
    ensures common in store.tree.nodes && store.tree.Anc(common, block) && store.tree.Anc(common, reindexRoot)
    ensures forall x :: x in store.tree.nodes && store.tree.Anc(x, block) && store.tree.Anc(x, reindexRoot) ==>
                          store.tree.Anc(x, common)
  {
    var t := store.tree;
    GoodPath(t, store.interval, block, block);
    hide Good, Tree.WF;
    common := block;
    while true
      invariant common in t.nodes && t.Anc(common, block)
      invariant forall x :: x in t.nodes && t.Anc(x, block) && t.Anc(x, reindexRoot) ==> t.Anc(x, common)
      decreases t.Height(common)
    {
      var above := IsChainAncestorOf(store, common, reindexRoot);
      if above {
        return;
      }
      OriginAnc(t, reindexRoot);
      var parent := t.Parent(common);
      assert t.Anc(parent, common);
      AncTrans(t, parent, common, block);
      common := parent;
    }
  }

  /** The hint is on another branch and not far enough ahead to switch to it. */
  predicate KeepsRoot(t: Tree, current: Hash, hint: Hash, slack: nat)
    requires current in t.nodes && hint in t.nodes
  {
    t.Height(hint) < t.Height(current) || t.Height(hint) - t.Height(current) < slack
  }

  /** `next` is the block at depth `depth` above the hint, but not above `from`. */
  ghost predicate RootFor(t: Tree, from: Hash, next: Hash, hint: Hash, depth: nat)
    requires t.WF() && hint in t.nodes
  {
    && from in t.nodes && next in t.nodes && t.Anc(from, next) && t.Anc(next, hint)
    && t.Height(hint) <= t.Height(next) + depth
    && (next != from ==> t.Height(hint) == t.Height(next) + depth)
  }

  /** The move starts at the current root or, after a reorganisation, at the block where the
      chains part. */
  ghost predicate MoveStart(t: Tree, current: Hash, hint: Hash, from: Hash)
    requires t.WF() && current in t.nodes && hint in t.nodes
  {
    && from in t.nodes && t.Anc(from, current) && t.Anc(from, hint)
    && forall x :: x in t.nodes && t.Anc(x, current) && t.Anc(x, hint) ==> t.Anc(x, from)
  }

  method FindNextReindexRoot(store: Store, current: Hash, hint: Hash, reindexDepth: nat, reindexSlack: nat)
    returns (r: Result<(Hash, Hash)>)
    requires Good(store.tree, store.interval, NONE) && current in store.tree.nodes
    ensures hint !in store.tree.nodes <==> r == Err(KeyNotFound)
    ensures hint in store.tree.nodes && !store.tree.Anc(current, hint)
            && KeepsRoot(store.tree, current, hint, reindexSlack) ==>
              r == Ok((current, current))
    ensures hint in store.tree.nodes
            && (store.tree.Anc(current, hint) || !KeepsRoot(store.tree, current, hint, reindexSlack)) ==>
              if hint == current || reindexDepth == 0 then r == Err(BadQuery)
              else
                && r.Ok? && MoveStart(store.tree, current, hint, r.value.0)
                && RootFor(store.tree, r.value.0, r.value.1, hint, reindexDepth)
  {
    var t := store.tree;
    GoodPath(t, store.interval, current, current);
    hide Good, Tree.WF;
    var ancestor, next := current, current;
    if hint !in t.nodes {
      return Err(KeyNotFound);
    }
    var hintHeight := t.Height(hint);
    var onChain := IsChainAncestorOf(store, current, hint);
    if !onChain {
      var currentHeight := t.Height(current);
      if hintHeight < currentHeight || hintHeight - currentHeight < reindexSlack {
        return Ok((current, current));
      }
      ancestor := FindCommonTreeAncestor(store, hint, current);
      next := ancestor;
      if ancestor == hint { AncHeight(t, hint, current); }
    }
    assert MoveStart(t, current, hint, ancestor);
    AncHeight(t, ancestor, hint);
    hide MoveStart;
    while true
      invariant next in t.nodes && t.Anc(ancestor, next) && t.Anc(next, hint) && t.Height(next) <= hintHeight
      invariant next != ancestor ==> hintHeight >= t.Height(next) + reindexDepth
      decreases hintHeight - t.Height(next)
    {
      GoodPath(t, store.interval, hint, next);
      if next == hint { NoChildMeets(t, store.interval, hint); }
      var step := NextChainAncestorUnchecked(t, store.interval, hint, next);
      if step.Err? {
        return Err(step.error);
      }
      var child := step.value;
      AncHeight(t, child, hint);
      var childHeight := t.Height(child);
      if hintHeight < childHeight {
        return Err(DataInconsistency);
      }
      if hintHeight - childHeight < reindexDepth {
        break;
      }
      assert t.Anc(next, child);
      AncTrans(t, ancestor, next, child);
      next := child;
    }
    r := Ok((ancestor, next));
  }

  lemma ChildIndex(t: Tree, p: Hash, c: Hash) returns (at: nat)
    requires t.WF() && c in t.nodes && c != t.origin && t.Parent(c) == p
    ensures at < |t.Children(p)| && t.Children(p)[at] == c && t.Height(c) == t.Height(p) + 1
  {
    at :| 0 <= at < |t.Children(p)| && t.Children(p)[at] == c;
  }

  lemma ContextKeys(c: ReindexContext)
    requires c.Ready()
    ensures c.store.interval.Keys == c.store.tree.nodes.Keys && c.store.tree.origin in c.store.interval
  {
  }

  lemma MoveFacts(t: Tree, current: Hash, hint: Hash, from: Hash, next: Hash, depth: nat)
    requires t.WF() && current in t.nodes && hint in t.nodes
    requires MoveStart(t, current, hint, from) && RootFor(t, from, next, hint, depth)
    ensures from in t.nodes && next in t.nodes && t.Anc(from, current) && t.Anc(from, next)
            && t.Height(from) <= t.Height(next)
  {
    AncHeight(t, from, next);
  }

  /** Moves the reindex root towards the hint, if it is time to. The labels keep mirroring the
      tree, the chain to the new root is lean, and the origin keeps its interval. */
  method TryAdvancingReindexRoot(store: Store, hint: Hash, reindexDepth: nat, reindexSlack: nat) returns (r: Result<()>)
    requires Sound(store.tree, store.interval, store.reindexRoot, reindexSlack)
    requires Roomy(|store.tree.nodes|, reindexSlack, Size(store.interval[store.tree.origin]))
    modifies store`interval, store`reindexRoot
    ensures Sound(store.tree, store.interval, store.reindexRoot, reindexSlack)
    ensures store.interval[store.tree.origin] == old(store.interval[store.tree.origin])
    ensures r.Err? ==> unchanged(store)
    ensures hint !in store.tree.nodes <==> r == Err(KeyNotFound)
    ensures hint in store.tree.nodes ==>
              var root := old(store.reindexRoot);
              if !store.tree.Anc(root, hint) && KeepsRoot(store.tree, root, hint, reindexSlack)
                then r.Ok? && unchanged(store)
              else if hint == root || reindexDepth == 0 then r == Err(BadQuery)
              else r.Ok? && exists from :: MoveStart(store.tree, root, hint, from)
                                           && RootFor(store.tree, from, store.reindexRoot, hint, reindexDepth)
  {
    hide *;
    var t := store.tree;
    ghost var iv := store.interval;
    SoundFacts(t, iv, store.reindexRoot, reindexSlack);
    SoundGood(t, iv, store.reindexRoot, reindexSlack);
    var current := store.reindexRoot;
    var found := FindNextReindexRoot(store, current, hint, reindexDepth, reindexSlack);
    if found.Err? {
      return Err(found.error);
    }
    var ancestor, next := found.value.0, found.value.1;
    if current == next {
      return Ok(());
    }
    MoveFacts(t, current, hint, ancestor, next, reindexDepth);
    MovingStart(t, iv, current, reindexSlack, ancestor, next);
    while ancestor != next
      invariant Moving(t, store.interval, ancestor, next, reindexSlack)
      invariant t.origin in store.interval && store.interval[t.origin] == iv[t.origin]
      invariant ancestor in t.nodes && next in t.nodes && t.Height(ancestor) <= t.Height(next)
      decreases t.Height(next) - t.Height(ancestor)
    {
      ghost var before := store.interval;
      MovingPath(t, before, ancestor, next, reindexSlack);
      var step := NextChainAncestorUnchecked(t, store.interval, next, ancestor);
      var child := step.value;
      AncHeight(t, child, next);
      ghost var at := ChildIndex(t, ancestor, child);
      MovingReady(t, before, ancestor, at, next, reindexSlack);
      var context := new ReindexContext(store, reindexSlack);
      ContextReady(context);
      var done := context.ConcentrateInterval(ancestor, child, child == next);
      ContextKeys(context);
      MovingStep(t, before, store.interval, ancestor, at, next, reindexSlack);
      ancestor := child;
    }
    MovingEnd(t, store.interval, next, reindexSlack);
    store.reindexRoot := next;
    MakeSound(t, store.interval, next, reindexSlack);
    r := Ok(());
  }
}
