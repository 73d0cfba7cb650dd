/** Laying out a whole subtree inside a new interval. */
module Propagation {
  import opened Hashes
  import opened Intervals
  import opened ReachabilityTree
  import opened SubtreeCount

  function SizesOf(sizes: map<Hash, nat>, cs: seq<Hash>): (r: seq<nat>)
    requires forall i :: 0 <= i < |cs| ==> cs[i] in sizes
    ensures |r| == |cs| && forall i :: 0 <= i < |cs| ==> r[i] == sizes[cs[i]]
  {
    if cs == [] then [] else SizesOf(sizes, cs[..|cs| - 1]) + [sizes[cs[|cs| - 1]]]
  }

  lemma {:induction false} SumSizesOf(t: Tree, sizes: map<Hash, nat>, cs: seq<Hash>)
    requires t.WF() && SizesOk(t, sizes)
    requires forall i :: 0 <= i < |cs| ==> cs[i] in sizes
    ensures Sum(SizesOf(sizes, cs)) == t.SumSizes(cs)
  {
    if cs != [] {
      SumSizesOf(t, sizes, cs[..|cs| - 1]);
      assert SizesOf(sizes, cs)[..|cs| - 1] == SizesOf(sizes, cs[..|cs| - 1]);
    }
  }

  /** Only strict descendants of `block` may have changed labels. */
  ghost predicate OutsideSame(t: Tree, block: Hash, iv: Labels, iv': Labels)
    requires t.WF() && iv.Keys == t.nodes.Keys && iv'.Keys == t.nodes.Keys
  {
    forall x :: x in t.nodes && !(x != block && t.Anc(block, x)) ==> iv'[x] == iv[x]
  }

  /** The breadth-first layout: `done` blocks have their children laid out, `waiting` blocks
      have room for their own subtree. */
  ghost predicate Layout(t: Tree, block: Hash, iv: Labels, waiting: set<Hash>, done: set<Hash>)
    requires t.WF() && iv.Keys == t.nodes.Keys
  {
    && LayoutRegion(t, block, waiting, done)
    && (forall q :: q in waiting ==> t.SubtreeSize(q) <= Size(iv[q]))
    && (forall q :: q in done ==> LaidOut(t, iv, waiting + done, q))
  }

  ghost predicate LayoutRegion(t: Tree, block: Hash, waiting: set<Hash>, done: set<Hash>)
    requires t.WF()
  {
    && waiting + done <= t.nodes.Keys && waiting !! done
    && block in waiting + done
    && (forall q :: q in waiting + done ==> t.Anc(block, q) && (q != block ==> t.Parent(q) in done))
  }

  ghost predicate LaidOut(t: Tree, iv: Labels, seen: set<Hash>, q: Hash)
    requires t.WF() && iv.Keys == t.nodes.Keys && q in t.nodes
  {
    && Placed(t, iv, q) && !IsEmpty(iv[q])
    && forall i :: 0 <= i < |t.Children(q)| ==> t.Children(q)[i] in seen
  }

  /** `iv'` gives the children of `c` the labels `parts` and leaves all else alone. */
  ghost predicate Assigned(t: Tree, c: Hash, parts: seq<Interval>, iv: Labels, iv': Labels)
    requires t.WF() && c in t.nodes && |parts| == |t.Children(c)|
    requires iv.Keys == t.nodes.Keys && iv'.Keys == t.nodes.Keys
  {
    && (forall i :: 0 <= i < |parts| ==> iv'[t.Children(c)[i]] == parts[i])
    && (forall x :: x in t.nodes && x !in t.Children(c) ==> iv'[x] == iv[x])
  }

  lemma LayChildren(t: Tree, c: Hash, iv: Labels, iv': Labels, parts: seq<Interval>)
    requires t.WF() && iv.Keys == t.nodes.Keys && iv'.Keys == t.nodes.Keys
    requires c in t.nodes && !IsEmpty(iv[c]) && |parts| == |t.Children(c)|
    requires Assigned(t, c, parts, iv, iv')
    requires Tiles(DecreaseEnd(iv[c], 1), parts)
    requires forall k :: 0 <= k < |parts| ==> Contains(DecreaseEnd(iv[c], 1), parts[k])
    ensures Placed(t, iv', c) && iv'[c] == iv[c]
  {
    ChildSet(t, c, c);
    assert t.NodeWF(c);
    assert iv'[c] == iv[c];
    forall i, j | 0 <= i && j == i + 1 && j < |t.Children(c)| ensures Adjacent(t, iv', c, i, j) {
      assert parts[j].start == parts[j - 1].end + 1;
    }
  }

  lemma LeafLaid(t: Tree, c: Hash, iv: Labels)
    requires t.WF() && iv.Keys == t.nodes.Keys && c in t.nodes && t.Children(c) == []
    ensures Placed(t, iv, c) && Assigned(t, c, [], iv, iv)
  {
  }

  lemma SumPositive(t: Tree, cs: seq<Hash>)
    requires t.WF() && cs != [] && cs[|cs| - 1] in t.nodes
    ensures t.SumSizes(cs) > 0
  {
    SubtreePositive(t, cs[|cs| - 1]);
  }

  lemma RegionStep(t: Tree, block: Hash, waiting: set<Hash>, done: set<Hash>, c: Hash)
    requires t.WF() && LayoutRegion(t, block, waiting, done) && c in waiting
    ensures Elems(t.Children(c)) !! waiting + done && NoDup(t.Children(c))
    ensures LayoutRegion(t, block, waiting - {c} + Elems(t.Children(c)), done + {c})
  {
    var cs := t.Children(c);
    ChildSet(t, c, c);
    forall x | x in Elems(cs)
      ensures x !in waiting && x !in done && x in t.nodes && t.Anc(block, x) && t.Parent(x) == c {
      var i :| 0 <= i < |cs| && cs[i] == x;
      ChildDesc(t, c, i);
      AncTrans(t, block, c, x);
      if x == block { AncHeight(t, block, c); }
    }
  }

  lemma LayoutStep(t: Tree, block: Hash, iv: Labels, iv': Labels, parts: seq<Interval>,
                   waiting: set<Hash>, done: set<Hash>, c: Hash)
    requires t.WF() && iv.Keys == t.nodes.Keys && iv'.Keys == t.nodes.Keys
    requires Layout(t, block, iv, waiting, done) && c in waiting
    requires |parts| == |t.Children(c)| && Assigned(t, c, parts, iv, iv')
    requires Placed(t, iv', c) && !IsEmpty(iv'[c])
    requires forall k :: 0 <= k < |parts| ==> Size(parts[k]) >= t.SubtreeSize(t.Children(c)[k])
    ensures Elems(t.Children(c)) !! waiting + done && NoDup(t.Children(c))
    ensures Layout(t, block, iv', waiting - {c} + Elems(t.Children(c)), done + {c})
  {
    var cs := t.Children(c);
    RegionStep(t, block, waiting, done, c);
    var waiting', done' := waiting - {c} + Elems(cs), done + {c};
    assert waiting + done <= waiting' + done' && Elems(cs) <= waiting' + done';
    forall q | q in waiting' ensures t.SubtreeSize(q) <= Size(iv'[q]) {
      if q in Elems(cs) {
        var i :| 0 <= i < |cs| && cs[i] == q;
      }
    }
    forall q | q in done' ensures LaidOut(t, iv', waiting' + done', q) {
      if q in done {
        assert LaidOut(t, iv, waiting + done, q);
        assert q !in Elems(cs);
        StillPlaced(t, c, parts, iv, iv', q);
      } else {
        assert forall i :: 0 <= i < |cs| ==> cs[i] in Elems(cs);
      }
    }
  }

  /** Moving the children of `c` does not disturb the layout of a block that is neither `c`
      nor one of those children. */
  lemma StillPlaced(t: Tree, c: Hash, parts: seq<Interval>, iv: Labels, iv': Labels, q: Hash)
    requires t.WF() && iv.Keys == t.nodes.Keys && iv'.Keys == t.nodes.Keys
    requires c in t.nodes && q in t.nodes && q != c && q !in t.Children(c)
    requires |parts| == |t.Children(c)| && Assigned(t, c, parts, iv, iv')
    requires Placed(t, iv, q)
    ensures Placed(t, iv', q) && iv'[q] == iv[q]
  {
    var cs := t.Children(q);
    forall i | 0 <= i < |cs| ensures iv'[cs[i]] == iv[cs[i]] {
      ChildSet(t, c, cs[i]);
      ChildSet(t, q, cs[i]);
    }
    forall i, j | 0 <= i && j == i + 1 && j < |cs| ensures Adjacent(t, iv', q, i, j) {
      assert Adjacent(t, iv, q, i, j);
    }
  }

  lemma StepOutside(t: Tree, block: Hash, c: Hash, parts: seq<Interval>, iv0: Labels, iv: Labels, iv': Labels)
    requires t.WF() && iv0.Keys == t.nodes.Keys && iv.Keys == t.nodes.Keys && iv'.Keys == t.nodes.Keys
    requires c in t.nodes && t.Anc(block, c) && |parts| == |t.Children(c)| && Assigned(t, c, parts, iv, iv')
    requires OutsideSame(t, block, iv0, iv)
    ensures OutsideSame(t, block, iv0, iv')
  {
    forall x | x in t.nodes && !(x != block && t.Anc(block, x)) ensures iv'[x] == iv0[x] {
      if x in t.Children(c) {
        var i :| 0 <= i < |t.Children(c)| && t.Children(c)[i] == x;
        ChildDesc(t, c, i);
        AncTrans(t, block, c, x);
        AncHeight(t, block, c);
      }
    }
  }

  lemma {:induction false} CachedSubtree(t: Tree, sizes: map<Hash, nat>, block: Hash, x: Hash)
    requires t.WF() && SizesOk(t, sizes) && block in sizes && x in t.nodes && t.Anc(block, x)
    ensures x in sizes
    decreases t.Height(x)
  {
    if x != block {
      CachedSubtree(t, sizes, block, t.Parent(x));
      ChildSet(t, t.Parent(x), x);
    }
  }

  lemma LayoutStart(t: Tree, iv: Labels, block: Hash)
    requires t.WF() && iv.Keys == t.nodes.Keys && block in t.nodes && t.SubtreeSize(block) <= Size(iv[block])
    ensures Layout(t, block, iv, {block}, {})
    ensures OutsideSame(t, block, iv, iv)
  {
  }

  lemma LayoutMember(t: Tree, block: Hash, iv: Labels, waiting: set<Hash>, done: set<Hash>, c: Hash)
    requires t.WF() && iv.Keys == t.nodes.Keys && Layout(t, block, iv, waiting, done) && c in waiting
    ensures c in t.nodes && c !in done && t.Anc(block, c) && t.SubtreeSize(c) <= Size(iv[c]) && !IsEmpty(iv[c])
  {
    SubtreePositive(t, c);
  }

  lemma LayoutEnd(t: Tree, block: Hash, iv: Labels, done: set<Hash>)
    requires t.WF() && iv.Keys == t.nodes.Keys && Layout(t, block, iv, {}, done)
    ensures SubtreeGood(t, iv, block)
  {
    forall x | x in t.nodes && t.Anc(block, x) ensures Placed(t, iv, x) && !IsEmpty(iv[x]) {
      AllLaidOut(t, block, iv, done, x);
      assert LaidOut(t, iv, {} + done, x);
    }
  }

  /** When nothing waits, every block of the subtree has been laid out. */
  lemma {:induction false} AllLaidOut(t: Tree, block: Hash, iv: Labels, done: set<Hash>, x: Hash)
    requires t.WF() && iv.Keys == t.nodes.Keys && x in t.nodes && t.Anc(block, x)
    requires Layout(t, block, iv, {}, done)
    ensures x in done
    decreases t.Height(x)
  {
    if x != block {
      AllLaidOut(t, block, iv, done, t.Parent(x));
      assert LaidOut(t, iv, {} + done, t.Parent(x));
      ChildSet(t, t.Parent(x), x);
    }
  }
}

/** Reallocation of reachability intervals. */
module Reindexing {
  import opened Options
  import opened Hashes
  import opened Intervals
  import opened ReachabilityTree
  import opened ReachabilityStore
  import opened SubtreeCount
  import opened Propagation
  import opened Gaps
  import opened Levels
  import opened ReclaimWalk
  import opened DescendantSearch
  import opened Concentration

  /** Splits the children around `pivot`; an error if it is not among them. */
  method SplitChildren(children: seq<Hash>, pivot: Hash) returns (r: Option<nat>)
    ensures r.None? <==> pivot !in children
    ensures r.Some? ==> r.value < |children| && children[r.value] == pivot && pivot !in children[..r.value]
  {
    for i := 0 to |children|
      invariant pivot !in children[..i]
    {
      if children[i] == pivot {
        return Some(i);
      }
    }
    return None;
  }

  /** `Overflow`: the tree ran out of labels. */
  datatype Outcome = Done | Overflow

  /** The context of one reindex operation. */
  class ReindexContext {
    const store: Store
    const slack: nat
    var subtreeSizes: map<Hash, nat>

    constructor (store: Store, slack: nat)
      ensures this.store == store && this.slack == slack && subtreeSizes == map[]
    {
      this.store := store;
      this.slack := slack;
      subtreeSizes := map[];
    }

    ghost predicate Ready()
      reads this, store
    {
      store.tree.WF() && store.interval.Keys == store.tree.nodes.Keys && SizesOk(store.tree, subtreeSizes)
    }

    /** Fills the cache for `block` and its whole subtree. */
    method CountSubtrees(block: Hash)
      requires Ready() && block in store.tree.nodes
      modifies this`subtreeSizes
      ensures Ready() && block in subtreeSizes
    {
      hide Traversal, Elems, NoDup, Tree.WF;
      if block in subtreeSizes {
        return;
      }
      var t := store.tree;
      var queue := [block];
      var counts: map<Hash, nat> := map[];
      ghost var open: set<Hash>, done: set<Hash> := {}, {};
      Start(t, block, subtreeSizes);
      ElemsSingle(block);
      while queue != []
        invariant NoDup(queue)
        invariant Traversal(t, block, subtreeSizes, counts, Elems(queue), open, done, NONE)
        decreases |t.nodes.Keys - (open + done)|
      {
        var current := queue[0];
        ghost var waiting, left := Elems(queue), t.nodes.Keys - (open + done);
        PopFront(queue);
        Queued(t, block, subtreeSizes, counts, waiting, open, done, current);
        var children := t.Children(current);
        queue := queue[1..];
        if children != [] && current !in subtreeSizes {
          Expand(t, block, subtreeSizes, counts, waiting, open, done, current);
          open := open + {current};
          Extend(queue, children);
          queue := queue + children;
        } else {
          ghost var before := subtreeSizes;
          if children == [] {
            subtreeSizes := subtreeSizes[current := 1];
          }
          Pop(t, block, before, counts, waiting, open, done, current, subtreeSizes);
          done := done + {current};
          open, done, counts := PushUp(t, block, current, Elems(queue), open, done, counts);
        }
        assert t.nodes.Keys - (open + done) == left - {current};
      }
      ElemsEmpty();
      Finished(t, block, subtreeSizes, counts, open, done);
    }

    /** Gives the children of `c` their new labels. */
    method SetChildren(c: Hash, parts: seq<Interval>)
      requires Ready() && c in store.tree.nodes && |parts| == |store.tree.Children(c)|
      modifies store`interval
      ensures Ready() && Assigned(store.tree, c, parts, old(store.interval), store.interval)
    {
      var children := store.tree.Children(c);
      ChildSet(store.tree, c, c);
      for i := 0 to |children|
        invariant Ready()
        invariant forall j :: 0 <= j < i ==> store.interval[children[j]] == parts[j]
        invariant forall x :: x in store.tree.nodes && x !in children ==> store.interval[x] == old(store.interval)[x]
      {
        store.interval := store.interval[children[i] := parts[i]];
      }
    }

    /** Divides the interval of `c` among its children. */
    method LayOutChildren(c: Hash) returns (ghost parts: seq<Interval>)
      requires Ready() && c in subtreeSizes && c in store.tree.nodes
      requires store.tree.SubtreeSize(c) <= Size(store.interval[c])
      modifies store`interval
      ensures Ready() && |parts| == |store.tree.Children(c)|
      ensures Assigned(store.tree, c, parts, old(store.interval), store.interval)
      ensures Placed(store.tree, store.interval, c) && !IsEmpty(store.interval[c])
      ensures forall k :: 0 <= k < |parts| ==> Size(parts[k]) >= store.tree.SubtreeSize(store.tree.Children(c)[k])
    {
      hide Assigned, Placed, Tree.WF, Tree.SubtreeSize;
      var t := store.tree;
      ghost var iv := store.interval;
      var children := t.Children(c);
      SubtreeSizeRec(t, c);
      if children == [] {
        parts := [];
        LeafLaid(t, c, iv);
        return;
      }
      SumSizesOf(t, subtreeSizes, children);
      SumPositive(t, children);
      var sizes := SizesOf(subtreeSizes, children);
      var intervals := SplitExponential(ChildrenCapacity(store.interval, c), sizes);
      SetChildren(c, intervals);
      parts := intervals;
      LayChildren(t, c, iv, store.interval, parts);
    }

    /** Lays out the whole subtree of `block` inside the interval of `block`. */
    method PropagateInterval(block: Hash)
      requires Ready() && block in store.tree.nodes
      requires store.tree.SubtreeSize(block) <= Size(store.interval[block])
      modifies this`subtreeSizes, store`interval
      ensures Ready()
      ensures SubtreeGood(store.tree, store.interval, block)
      ensures OutsideSame(store.tree, block, old(store.interval), store.interval)
    {
      hide Layout, OutsideSame, SubtreeGood, Assigned, Placed, SizesOk, Elems, NoDup, Tree.WF;
      CountSubtrees(block);
      var t := store.tree;
      var queue := [block];
      ghost var iv0, done: set<Hash> := store.interval, {};
      LayoutStart(t, iv0, block);
      ElemsSingle(block);
      while queue != []
        invariant Ready() && block in subtreeSizes
        invariant NoDup(queue)
        invariant Layout(t, block, store.interval, Elems(queue), done)
        invariant OutsideSame(t, block, iv0, store.interval)
        decreases |t.nodes.Keys - done|
      {
        var current := queue[0];
        ghost var waiting, left, iv := Elems(queue), t.nodes.Keys - done, store.interval;
        PopFront(queue);
        LayoutMember(t, block, iv, waiting, done, current);
        CachedSubtree(t, subtreeSizes, block, current);
        ghost var parts := LayOutChildren(current);
        LayoutStep(t, block, iv, store.interval, parts, waiting, done, current);
        StepOutside(t, block, current, parts, iv0, iv, store.interval);
        Extend(queue[1..], t.Children(current));
        queue := queue[1..] + t.Children(current);
        done := done + {current};
        assert t.nodes.Keys - done == left - {current};
      }
      ElemsEmpty();
      LayoutEnd(t, block, store.interval, done);
    }

    /** Moves the interval of `block` and lays out its subtree anew. */
    method ApplyAndPropagate(block: Hash, i: Interval)
      requires Ready() && block in store.tree.nodes && store.tree.SubtreeSize(block) <= Size(i)
      modifies this`subtreeSizes, store`interval
      ensures Ready() && store.interval[block] == i
      ensures SameOutside(store.tree, block, old(store.interval), store.interval)
      ensures SubtreeGood(store.tree, store.interval, block)
    {
      hide SubtreeGood, SizesOk, OutsideSame, SameOutside;
      ghost var iv := store.interval;
      store.interval := store.interval[block := i];
      PropagateInterval(block);
      OutsideOfUpdate(store.tree, block, i, iv, store.interval);
    }

    /** One step of sibling shifting, on either side of the gap `g`: the `k`-th child is moved
        by `offset`, and the gap passes to the other side of it. */
    method ShiftChild(p: Hash, k: nat, ghost g: nat, ghost g': nat, i: Interval, ghost offset: nat, ghost n: Hash)
      requires Ready() && GoodButGap(store.tree, store.interval, n, p, g, offset)
      requires k < |store.tree.Children(p)| && 0 < g < |store.tree.Children(p)|
      requires !(n in store.tree.nodes && store.tree.Anc(store.tree.Children(p)[k], n))
      requires var was := store.interval[store.tree.Children(p)[k]];
               || (k + 1 == g && g' == k && i.start == was.start + offset && i.end == was.end + offset)
               || (k == g && g' == k + 1 && i.start == was.start - offset && i.end == was.end - offset)
      modifies this`subtreeSizes, store`interval
      ensures Ready() && GoodButGap(store.tree, store.interval, n, p, g', offset)
      ensures SameOutside(store.tree, store.tree.Children(p)[k], old(store.interval), store.interval)
      ensures store.interval[store.tree.Children(p)[k]] == i
    {
      hide SubtreeGood, SizesOk, SameOutside, Others, GapPlaced;
      ghost var t, iv := store.tree, store.interval;
      var c := store.tree.Children(p)[k];
      FullyGood(t, iv, n, p, c);
      ApplyAndPropagate(c, i);
      RelabelOthers(t, c, n, iv, store.interval);
      SiblingsSame(t, p, k, iv, store.interval);
      GapMoved(t, iv, store.interval, p, k, g, g', offset);
    }

    /** The last step: the allocation block takes the gap `g`, which closes it. */
    method StretchChild(p: Hash, k: nat, ghost g: nat, i: Interval, ghost offset: nat, ghost n: Hash)
      requires Ready() && GoodButGap(store.tree, store.interval, n, p, g, offset)
      requires k < |store.tree.Children(p)| && 0 < g < |store.tree.Children(p)|
      requires n in store.tree.nodes ==> store.tree.Anc(store.tree.Children(p)[k], n)
      requires var was := store.interval[store.tree.Children(p)[k]];
               || (k + 1 == g && i.start == was.start && i.end == was.end + offset)
               || (k == g && i.start == was.start - offset && i.end == was.end)
      requires store.tree.SubtreeSize(store.tree.Children(p)[k]) <= Size(i)
      modifies this`subtreeSizes, store`interval
      ensures Ready() && Good(store.tree, store.interval, NONE)
      ensures SameOutside(store.tree, store.tree.Children(p)[k], old(store.interval), store.interval)
      ensures store.interval[store.tree.Children(p)[k]] == i
    {
      hide SubtreeGood, SizesOk, SameOutside, GapPlaced, Placed;
      ghost var t, iv := store.tree, store.interval;
      var c := store.tree.Children(p)[k];
      ApplyAndPropagate(c, i);
      RelabelOthers(t, c, n, iv, store.interval);
      SiblingsSame(t, p, k, iv, store.interval);
      GapClosed(t, iv, store.interval, p, k, g, offset);
      assert Others(t, store.interval, NONE, p);
      NoGap(t, store.interval, NONE, p, g, 0);
    }

    /** Shifts the siblings before `current` up into the `offset` labels freed in front of it,
        until `allocationBlock` is reached, which takes them. */
    method OffsetSiblingsBefore(allocationBlock: Hash, current: Hash, offset: nat, ghost n: Hash, ghost p: Hash,
                                ghost at: nat)
      requires Ready() && current in store.tree.nodes && current != store.tree.origin && p == store.tree.Parent(current)
      requires at < |store.tree.Children(p)| && store.tree.Children(p)[at] == current
      requires GoodButGap(store.tree, store.interval, n, p, at, offset)
      requires Movable(store.tree, store.interval, p, 0, at, allocationBlock, offset, n)
      modifies this`subtreeSizes, store`interval
      ensures Ready()
      ensures OffsetDone(store.tree, p, 0, at, allocationBlock, offset, n, old(store.interval), store.interval)
      ensures at > 0 ==>
                store.interval[store.tree.Children(p)[0]].start == old(store.interval)[store.tree.Children(p)[0]].start
                           + if allocationBlock in store.tree.Children(p)[..at] then 0 else offset
    {
      hide SizesOk, SameOutside, GoodButGap, ShiftedUp, OffsetDone, Good, Tree.WF;
      var t := store.tree;
      var parent := t.Parent(current);
      var children := t.Children(parent);
      var split := SplitChildren(children, current);
      var k := split.value;
      ChildIndexUnique(t, parent, k, at);
      ghost var iv0 := store.interval;
      ShiftedUpStart(t, parent, at, offset, n, iv0);
      while k > 0
        invariant Ready() && 0 <= k <= at
        invariant ShiftedUp(t, parent, k, at, offset, n, iv0, store.interval)
        invariant allocationBlock !in children[k..at]
      {
        ghost var iv := store.interval;
        ShiftedUpGap(t, parent, k, at, offset, n, iv0, iv);
        k := k - 1;
        assert MovableChild(t, iv0, children[k], allocationBlock, offset, n);
        if children[k] == allocationBlock {
          StretchChild(parent, k, k + 1, IncreaseEnd(store.interval[children[k]], offset), offset, n);
          ShiftedUpStretch(t, parent, k + 1, at, offset, n, iv0, iv, store.interval);
          assert children[..at][k] == allocationBlock;
          return;
        }
        ShiftChild(parent, k, k + 1, k, Increase(store.interval[children[k]], offset), offset, n);
        ShiftedUpStep(t, parent, k + 1, at, offset, n, iv0, iv, store.interval);
        assert children[k..at] == [children[k]] + children[k + 1..at];
      }
      assert children[0..at] == children[..at];
      ShiftedUpEnd(t, parent, at, allocationBlock, offset, n, iv0, store.interval);
    }

    /** Shifts the siblings behind `current` down into the `offset` labels freed behind it,
        until `allocationBlock` is reached, which takes them. */
    method OffsetSiblingsAfter(allocationBlock: Hash, current: Hash, offset: nat, ghost n: Hash, ghost p: Hash,
                               ghost at: nat)
      requires Ready() && current in store.tree.nodes && current != store.tree.origin && p == store.tree.Parent(current)
      requires at < |store.tree.Children(p)| && store.tree.Children(p)[at] == current
      requires GoodButGap(store.tree, store.interval, n, p, at + 1, offset)
      requires Movable(store.tree, store.interval, p, at + 1, |store.tree.Children(p)|, allocationBlock, offset, n)
      modifies this`subtreeSizes, store`interval
      ensures Ready()
      ensures OffsetDone(store.tree, p, at + 1, |store.tree.Children(p)|, allocationBlock, offset, n,
                         old(store.interval), store.interval)
      ensures var last := store.tree.Children(p)[|store.tree.Children(p)| - 1];
              at + 1 < |store.tree.Children(p)| ==>
                store.interval[last].end + (if allocationBlock in store.tree.Children(p)[at + 1..] then 0 else offset)
                == old(store.interval)[last].end
    {
      hide SizesOk, SameOutside, GoodButGap, ShiftedDown, OffsetDone, Good, Tree.WF;
      var t := store.tree;
      var parent := t.Parent(current);
      var children := t.Children(parent);
      var split := SplitChildren(children, current);
      var k := split.value + 1;
      ChildIndexUnique(t, parent, k - 1, at);
      ghost var iv0 := store.interval;
      ShiftedDownStart(t, parent, at, offset, n, iv0);
      while k < |children|
        invariant Ready() && at + 1 <= k <= |children|
        invariant ShiftedDown(t, parent, at, k, offset, n, iv0, store.interval)
        invariant allocationBlock !in children[at + 1..k]
      {
        ghost var iv := store.interval;
        ShiftedDownGap(t, parent, at, k, offset, n, iv0, iv);
        assert MovableChild(t, iv0, children[k], allocationBlock, offset, n);
        if children[k] == allocationBlock {
          StretchChild(parent, k, k, DecreaseStart(store.interval[children[k]], offset), offset, n);
          ShiftedDownStretch(t, parent, at, k, offset, n, iv0, iv, store.interval);
          assert children[at + 1..][k - at - 1] == allocationBlock;
          return;
        }
        ShiftChild(parent, k, k, k + 1, Decrease(store.interval[children[k]], offset), offset, n);
        ShiftedDownStep(t, parent, at, k, offset, n, iv0, iv, store.interval);
        assert children[at + 1..k + 1] == children[at + 1..k] + [children[k]];
        k := k + 1;
      }
      assert children[at + 1..|children|] == children[at + 1..];
      ShiftedDownEnd(t, parent, at, allocationBlock, offset, n, iv0, store.interval);
    }

    /** Trims `current` to `i`, laying out its subtree anew only if asked to. */
    method Trim(current: Hash, i: Interval, propagate: bool, ghost n: Hash, ghost p: Hash, ghost at: nat,
                ghost before: nat, ghost after: nat)
      requires Ready() && Good(store.tree, store.interval, n)
      requires current in store.tree.nodes && current != store.tree.origin && p == store.tree.Parent(current)
      requires at < |store.tree.Children(p)| && store.tree.Children(p)[at] == current
      requires !(n in store.tree.nodes && store.tree.Anc(current, n))
      requires i.start == store.interval[current].start + before && i.end + after == store.interval[current].end
      requires propagate ==> store.tree.SubtreeSize(current) <= Size(i)
      requires !propagate ==> && store.tree.Children(current) != []
                              && before <= SlackBefore(store.tree, store.interval, current)
                              && after <= SlackAfter(store.tree, store.interval, current)
      modifies this`subtreeSizes, store`interval
      ensures Ready() && Trimmed(store.tree, p, at, before, after, propagate, old(store.interval), store.interval)
      ensures before == 0 ==> GoodButGap(store.tree, store.interval, n, p, at + 1, after)
      ensures after == 0 ==> GoodButGap(store.tree, store.interval, n, p, at, before)
    {
      hide SubtreeGood, SizesOk, GoodButGap, Good, Placed;
      ghost var t, iv := store.tree, store.interval;
      assert store.interval.Keys == t.nodes.Keys;
      if propagate {
        ApplyAndPropagate(current, i);
      } else {
        TrimShallow(t, n, current, iv, i);
        store.interval := store.interval[current := i];
        assert t.Anc(current, current);
      }
      TrimGap(t, n, p, at, before, after, propagate, iv, store.interval);
    }

    /** Frees the first `offset` labels of `current` and hands them to the siblings before it. */
    method RaiseLevel(allocationBlock: Hash, current: Hash, offset: nat, propagate: bool, ghost n: Hash, ghost p: Hash,
                      ghost at: nat)
      requires Ready() && Good(store.tree, store.interval, n)
      requires current in store.tree.nodes && current != store.tree.origin && p == store.tree.Parent(current)
      requires at < |store.tree.Children(p)| && store.tree.Children(p)[at] == current
      requires !(n in store.tree.nodes && store.tree.Anc(current, n))
      requires MovableBeside(store.tree, Front, store.interval, p, at, allocationBlock, offset, n)
      requires propagate ==> store.tree.SubtreeSize(current) + offset <= Size(store.interval[current])
      requires !propagate ==>
                 store.tree.Children(current) != [] && offset <= Slack(store.tree, Front, store.interval, current)
      modifies this`subtreeSizes, store`interval
      ensures Ready()
              && Level(store.tree, Front, p, at, allocationBlock, offset, n, propagate, old(store.interval),
                       store.interval)
    {
      hide SizesOk, GoodButGap, Good, Movable, OffsetDone, LevelRaised, SubtreeGood, SameOutside;
      ghost var t, iv := store.tree, store.interval;
      SlackNonnegative(t, iv, n, current);
      Trim(current, IncreaseStart(store.interval[current], offset), propagate, n, p, at, offset, 0);
      ghost var iv1 := store.interval;
      MovableTrim(t, p, at, 0, at, allocationBlock, offset, n, iv, iv1);
      OffsetSiblingsBefore(allocationBlock, current, offset, n, p, at);
      RaisedLevel(t, p, at, allocationBlock, offset, n, propagate, iv, iv1, store.interval);
    }

    /** Frees the last `offset` labels of `current` and hands them to the siblings behind it. */
    method LowerLevel(allocationBlock: Hash, current: Hash, offset: nat, propagate: bool, ghost n: Hash, ghost p: Hash,
                      ghost at: nat)
      requires Ready() && Good(store.tree, store.interval, n)
      requires current in store.tree.nodes && current != store.tree.origin && p == store.tree.Parent(current)
      requires at < |store.tree.Children(p)| && store.tree.Children(p)[at] == current
      requires !(n in store.tree.nodes && store.tree.Anc(current, n))
      requires MovableBeside(store.tree, Back, store.interval, p, at, allocationBlock, offset, n)
      requires propagate ==> store.tree.SubtreeSize(current) + offset <= Size(store.interval[current])
      requires !propagate ==>
                 store.tree.Children(current) != [] && offset <= Slack(store.tree, Back, store.interval, current)
      modifies this`subtreeSizes, store`interval
      ensures Ready()
              && Level(store.tree, Back, p, at, allocationBlock, offset, n, propagate, old(store.interval),
                       store.interval)
    {
      hide SizesOk, GoodButGap, Good, Movable, OffsetDone, LevelLowered, SubtreeGood, SameOutside;
      ghost var t, iv := store.tree, store.interval;
      SlackNonnegative(t, iv, n, current);
      Trim(current, DecreaseEnd(store.interval[current], offset), propagate, n, p, at, 0, offset);
      ghost var iv1 := store.interval;
      MovableTrim(t, p, at, at + 1, |t.Children(p)|, allocationBlock, offset, n, iv, iv1);
      OffsetSiblingsAfter(allocationBlock, current, offset, n, p, at);
      LoweredLevel(t, p, at, allocationBlock, offset, n, propagate, iv, iv1, store.interval);
    }

    /** Walks from the chosen child towards the reindex root until the slack of the chain on
        the given side covers the request, or the root is reached. Returns where it stopped,
        the labels to free there, and the slack to leave at each block on the way back. */
    method ChooseTop(side: Side, allocationBlock: Hash, chosenChild: Hash, reindexRoot: Hash, required: nat,
                     ghost n: Hash)
      returns (top: Hash, offset: nat, pathSlackAlloc: nat)
      requires Ready()
      requires ReclaimReady(store.tree, side, store.interval, n, allocationBlock, chosenChild, reindexRoot, required,
                            slack)
      requires n in store.tree.nodes ==> store.tree.Children(n) == [] && !store.tree.Anc(chosenChild, n)
      ensures Plan(store.tree, side, store.interval, n, allocationBlock, chosenChild, top, reindexRoot, pathSlackAlloc,
                   required, slack).Valid()
      ensures offset == Owed(store.tree, side, store.interval, chosenChild, top, pathSlackAlloc, required)
      ensures top == reindexRoot ==> store.tree.SubtreeSize(top) + offset <= Size(store.interval[top])
    {
      hide SizesOk, Good, ReclaimReady, Plan.Valid, LeanChain, Times, InOrder, Tree.WF;
      var t, iv := store.tree, store.interval;
      ReadyFacts(t, side, iv, n, allocationBlock, chosenChild, reindexRoot, required, slack);
      var slackSum, pathLen := 0, 0;
      top := chosenChild;
      while top != reindexRoot
        invariant OnPath(t, chosenChild, top, reindexRoot)
        invariant slackSum == SlackSum(t, side, iv, chosenChild, top) < required
        invariant pathLen == t.Height(top) - t.Height(chosenChild)
        decreases t.Height(reindexRoot) - t.Height(top)
      {
        PathNext(t, iv, n, chosenChild, top, reindexRoot);
        SlackNonnegative(t, iv, n, top);
        assert Placed(t, iv, top);
        var slackHere := if side.Front? then Size(RemainingBefore(t, iv, top)) else Size(RemainingAfter(t, iv, top));
        assert slackHere == Slack(t, side, iv, top);
        slackSum := slackSum + slackHere;
        if slackSum >= required {
          PlanAt(t, side, iv, n, allocationBlock, chosenChild, top, reindexRoot, required, slack);
          TimesZero(pathLen);
          return top, slackHere - (slackSum - required), 0;
        }
        ghost var x := top;
        var step := NextChainAncestorUnchecked(t, iv, reindexRoot, top);
        top := step.value;
        AncTrans(t, chosenChild, x, top);
        AncHeight(t, top, reindexRoot);
        pathLen := pathLen + 1;
      }
      PlanAt(t, side, iv, n, allocationBlock, chosenChild, top, reindexRoot, required, slack);
      assert slack * pathLen == Times(slack, pathLen) by { TimesIs(slack, pathLen); }
      pathSlackAlloc := slack;
      SlackSumGrows(t, side, iv, n, chosenChild, chosenChild, top);
      offset := required + slack * pathLen - slackSum;
    }

    /** The level at which the walk to the root stopped. */
    method FreeTop(ghost w: Plan, side: Side, allocationBlock: Hash, current: Hash, reindexRoot: Hash, offset: nat)
      requires Ready() && w.Valid() && w.t == store.tree && w.labels == store.interval && w.side == side
      requires w.allocationBlock == allocationBlock && w.top == current && w.root == reindexRoot
      requires offset == Owed(w.t, w.side, w.labels, w.c0, w.top, w.alloc, w.required)
      requires current == reindexRoot ==> store.tree.SubtreeSize(current) + offset <= Size(store.interval[current])
      modifies this`subtreeSizes, store`interval
      ensures Ready() && WalkedTo(w, store.interval, current) && current in store.tree.nodes
              && current != store.tree.origin
      ensures store.tree.Parent(current) == store.tree.Parent(w.c0) <==> current == w.c0
    {
      hide SizesOk, Good, Plan.Valid, WalkedTo, Owed, Level, Slack, MovableBeside, OnPath;
      TopFacts(w);
      ghost var at := ChainChild(w.t, current);
      TopLevelReady(w, at, offset);
      if side.Front? {
        RaiseLevel(allocationBlock, current, offset, current == reindexRoot, w.n, w.t.Parent(current), at);
      } else {
        LowerLevel(allocationBlock, current, offset, current == reindexRoot, w.n, w.t.Parent(current), at);
      }
      FirstLevel(w, store.interval, at, offset);
      WalkedFacts(w, store.interval, current);
    }

    /** One level further back down the chain. */
    method FreeBelow(ghost w: Plan, side: Side, allocationBlock: Hash, above: Hash, pathSlackAlloc: nat)
      returns (current: Hash)
      requires Ready() && w.Valid() && w.t == store.tree && w.side == side
      requires w.allocationBlock == allocationBlock && w.alloc == pathSlackAlloc
      requires WalkedTo(w, store.interval, above) && above != w.c0 && above in store.tree.nodes
               && above != store.tree.origin
      modifies this`subtreeSizes, store`interval
      ensures Ready() && WalkedTo(w, store.interval, current) && current == store.tree.Parent(above)
              && current != store.tree.origin
      ensures store.tree.Parent(current) == store.tree.Parent(w.c0) <==> current == w.c0
    {
      hide SizesOk, Good, Plan.Valid, WalkedTo, Owed, Level, MovableBeside;
      ghost var iv := store.interval;
      var t := store.tree;
      current := t.Parent(above);
      NextOwed(w, iv, above, current);
      ghost var at := ChainChild(t, current);
      RemainingIs(w, iv, current);
      hide Slack, OnPath;
      var slackHere := if side.Front? then Size(RemainingBefore(t, store.interval, current))
                       else Size(RemainingAfter(t, store.interval, current));
      var offset := slackHere - pathSlackAlloc;
      NextLevelReady(w, iv, above, current, at, offset);
      if side.Front? {
        RaiseLevel(allocationBlock, current, offset, false, w.n, t.Parent(current), at);
      } else {
        LowerLevel(allocationBlock, current, offset, false, w.n, t.Parent(current), at);
      }
      NextLevel(w, iv, store.interval, above, current, at, offset);
      WalkedFacts(w, store.interval, current);
    }

    /** Gives `allocationBlock`, left of the chain, `requiredAllocation` more labels taken from the
        front of the chain blocks. */
    method ReclaimIntervalBefore(allocationBlock: Hash, commonAncestor: Hash, chosenChild: Hash, reindexRoot: Hash,
                                 requiredAllocation: nat, ghost n: Hash)
      returns (ghost w: Plan)
      requires Ready()
      requires ReclaimReady(store.tree, Front, store.interval, n, allocationBlock, chosenChild, reindexRoot,
                            requiredAllocation, slack)
      requires commonAncestor == store.tree.Parent(chosenChild)
      requires n in store.tree.nodes ==> store.tree.Children(n) == [] && !store.tree.Anc(chosenChild, n)
      modifies this`subtreeSizes, store`interval
      ensures Ready() && w.Valid() && Reclaimed(w, store.interval)
      ensures w == Plan(store.tree, Front, old(store.interval), n, allocationBlock, chosenChild, w.top, reindexRoot,
                        if w.top == reindexRoot then slack else 0, requiredAllocation, slack)
    {
      hide SizesOk, Good, ReclaimReady, Plan.Valid, WalkedTo, Owed, Tree.WF, Reclaimed;
      var t := store.tree;
      var current, offset, pathSlackAlloc :=
        ChooseTop(Front, allocationBlock, chosenChild, reindexRoot, requiredAllocation, n);
      w := Plan(t, Front, store.interval, n, allocationBlock, chosenChild, current, reindexRoot, pathSlackAlloc,
                requiredAllocation, slack);
      AllocIs(w);
      FreeTop(w, Front, allocationBlock, current, reindexRoot, offset);
      while t.Parent(current) != commonAncestor
        invariant Ready() && w.Valid() && WalkedTo(w, store.interval, current)
        invariant current in t.nodes && current != t.origin
        invariant t.Parent(current) == commonAncestor <==> current == chosenChild
        decreases t.Height(current)
      {
        current := FreeBelow(w, Front, allocationBlock, current, pathSlackAlloc);
      }
      WalkReclaimed(w, store.interval);
    }

    /** Gives `allocationBlock`, right of the chain, `requiredAllocation` more labels taken from
        the back of the chain blocks. */
    method ReclaimIntervalAfter(allocationBlock: Hash, commonAncestor: Hash, chosenChild: Hash, reindexRoot: Hash,
                                 requiredAllocation: nat, ghost n: Hash)
      returns (ghost w: Plan)
      requires Ready()
      requires ReclaimReady(store.tree, Back, store.interval, n, allocationBlock, chosenChild, reindexRoot,
                            requiredAllocation, slack)
      requires commonAncestor == store.tree.Parent(chosenChild)
      requires n in store.tree.nodes ==> store.tree.Children(n) == [] && !store.tree.Anc(chosenChild, n)
      modifies this`subtreeSizes, store`interval
      ensures Ready() && w.Valid() && Reclaimed(w, store.interval)
      ensures w == Plan(store.tree, Back, old(store.interval), n, allocationBlock, chosenChild, w.top, reindexRoot,
                        if w.top == reindexRoot then slack else 0, requiredAllocation, slack)
    {
      hide SizesOk, Good, ReclaimReady, Plan.Valid, WalkedTo, Owed, Tree.WF, Reclaimed;
      var t := store.tree;
      var current, offset, pathSlackAlloc :=
        ChooseTop(Back, allocationBlock, chosenChild, reindexRoot, requiredAllocation, n);
      w := Plan(t, Back, store.interval, n, allocationBlock, chosenChild, current, reindexRoot, pathSlackAlloc,
                requiredAllocation, slack);
      AllocIs(w);
      FreeTop(w, Back, allocationBlock, current, reindexRoot, offset);
      while t.Parent(current) != commonAncestor
        invariant Ready() && w.Valid() && WalkedTo(w, store.interval, current)
        invariant current in t.nodes && current != t.origin
        invariant t.Parent(current) == commonAncestor <==> current == chosenChild
        decreases t.Height(current)
      {
        current := FreeBelow(w, Back, allocationBlock, current, pathSlackAlloc);
      }
      WalkReclaimed(w, store.interval);
    }

    /** Makes room for `allocationBlock`, whose parent is a strict ancestor of the reindex root,
        out of the slack along the chain to the root. */
    method ReindexIntervalsEarlierThanRoot(allocationBlock: Hash, reindexRoot: Hash, commonAncestor: Hash,
                                           requiredAllocation: nat,
                                           ghost n: Hash)
      requires Ready() && Newcomer(store.tree, store.interval, n, reindexRoot, slack)
      requires RootRoom(store.tree, store.interval, reindexRoot, slack)
      requires allocationBlock in store.tree.nodes && allocationBlock != store.tree.origin
      requires commonAncestor == store.tree.Parent(allocationBlock)
      requires store.tree.Anc(allocationBlock, n) && !store.tree.Anc(allocationBlock, reindexRoot)
      requires commonAncestor != reindexRoot && store.tree.Anc(commonAncestor, reindexRoot)
      requires requiredAllocation == store.tree.SubtreeSize(allocationBlock)
      requires Size(store.interval[allocationBlock]) < requiredAllocation
      modifies this`subtreeSizes, store`interval
      ensures Ready() && Good(store.tree, store.interval, NONE)
      ensures LeanChain(store.tree, store.interval, reindexRoot, slack, NONE)
      ensures store.interval[store.tree.origin] == old(store.interval[store.tree.origin])
    {
      hide SizesOk, Good, Newcomer, RootRoom, ReclaimReady, Plan.Valid, InOrder, LeanChain;
      var t, iv := store.tree, store.interval;
      assert reindexRoot in t.nodes && n in t.nodes
        && t.Children(n) == [] by { NewcomerFacts(t, iv, n, reindexRoot, slack); }
      NewcomerInOrder(t, iv, n, reindexRoot, slack, commonAncestor);
      var step := NextChainAncestorUnchecked(t, iv, reindexRoot, commonAncestor);
      var chosenChild := step.value;
      ghost var at := ChainChild(t, chosenChild);
      ghost var j := ChainChild(t, allocationBlock);
      EarlierSide(t, iv, n, allocationBlock, chosenChild, reindexRoot, slack, at, j);
      if iv[allocationBlock].start < iv[chosenChild].start {
        EarlierReady(t, Front, iv, n, allocationBlock, chosenChild, reindexRoot, slack, at, j);
        ghost var w := ReclaimIntervalBefore(allocationBlock, commonAncestor, chosenChild, reindexRoot,
                                             requiredAllocation, n);
        ReclaimedOrigin(w, store.interval);
      } else {
        assert j != at;
        EarlierReady(t, Back, iv, n, allocationBlock, chosenChild, reindexRoot, slack, at, j);
        ghost var w := ReclaimIntervalAfter(allocationBlock, commonAncestor, chosenChild, reindexRoot,
                                            requiredAllocation, n);
        ReclaimedOrigin(w, store.interval);
      }
    }

    /** Makes room for `newChild`, just added with an empty interval. */
    method ReindexIntervals(newChild: Hash, reindexRoot: Hash) returns (r: Outcome)
      requires Ready() && Newcomer(store.tree, store.interval, newChild, reindexRoot, slack)
      requires RootRoom(store.tree, store.interval, reindexRoot, slack)
      modifies this`subtreeSizes, store`interval
      ensures r.Done? && Ready() && Good(store.tree, store.interval, NONE)
      ensures LeanChain(store.tree, store.interval, reindexRoot, slack, NONE)
      ensures store.interval[store.tree.origin] == old(store.interval[store.tree.origin])
    {
      hide SizesOk, Good, Newcomer, RootRoom, LeanChain;
      var t, iv := store.tree, store.interval;
      NewcomerFacts(t, iv, newChild, reindexRoot, slack);
      var current := newChild;
      while true
        invariant Ready() && store.interval == iv
        invariant current in t.nodes && t.Anc(current, newChild)
                  && !(current != reindexRoot && t.Anc(current, reindexRoot))
        decreases t.Height(current)
      {
        CountSubtrees(current);
        CachedSize(t, subtreeSizes, current);
        if Size(store.interval[current]) >= subtreeSizes[current] {
          break;
        }
        RoomAtRoot(t, iv, newChild, reindexRoot, slack);
        OriginAnc(t, reindexRoot);
        var parent := t.Parent(current);
        if parent == NONE {
          return Overflow;
        }
        if current == reindexRoot {
          return Overflow;
        }
        ParentKnown(t, iv, newChild, reindexRoot, slack, current);
        if StrictlyContains(store.interval[parent], store.interval[reindexRoot]) {
          ReindexIntervalsEarlierThanRoot(current, reindexRoot, parent, subtreeSizes[current], newChild);
          return Done;
        }
        assert t.Anc(parent, current);
        AncTrans(t, parent, current, newChild);
        current := parent;
      }
      PropagateInterval(current);
      PropagateSettles(t, iv, store.interval, newChild, reindexRoot, slack, current);
      OriginKept(t, current, iv, store.interval);
      r := Done;
    }

    /** The subtree sizes of the given blocks. */
    method SubtreeSizesOf(blocks: seq<Hash>) returns (sizes: seq<nat>)
      requires Ready() && forall k :: 0 <= k < |blocks| ==> blocks[k] in store.tree.nodes
      modifies this`subtreeSizes
      ensures Ready() && |sizes| == |blocks| && Sum(sizes) == store.tree.SumSizes(blocks)
      ensures forall k :: 0 <= k < |blocks| ==> sizes[k] == store.tree.SubtreeSize(blocks[k])
    {
      hide SizesOk, Tree.WF, Tree.SubtreeSize;
      sizes := [];
      for i := 0 to |blocks|
        invariant Ready() && |sizes| == i && Sum(sizes) == store.tree.SumSizes(blocks[..i])
        invariant forall k :: 0 <= k < i ==> sizes[k] == store.tree.SubtreeSize(blocks[k])
      {
        CountSubtrees(blocks[i]);
        CachedSize(store.tree, subtreeSizes, blocks[i]);
        assert blocks[..i + 1][..i] == blocks[..i];
        assert (sizes + [subtreeSizes[blocks[i]]])[..i] == sizes;
        sizes := sizes + [subtreeSizes[blocks[i]]];
      }
      assert blocks[..|blocks|] == blocks;
    }

    /** Lays out the children `lo..hi` of `p` in the given parts of `i`. */
    method SetParts(p: Hash, lo: nat, hi: nat, ghost i: Interval, parts: seq<Interval>)
      requires Ready() && p in store.tree.nodes && lo <= hi <= |store.tree.Children(p)| && |parts| == hi - lo
      requires Tiles(i, parts)
      requires forall k :: 0 <= k < |parts| ==>
                 Contains(i, parts[k]) && Size(parts[k]) == store.tree.SubtreeSize(store.tree.Children(p)[lo + k])
      modifies this`subtreeSizes, store`interval
      ensures Ready() && Tight(store.tree, store.interval, p, lo, hi, i)
      ensures OnlyUnder(store.tree, p, lo, hi, old(store.interval), store.interval)
    {
      hide SizesOk, Tree.WF, Tree.SubtreeSize, SubtreeGood, SameOutside, OnlyUnder, Tight, Tiles, PartsSet;
      var t := store.tree;
      ghost var iv := store.interval;
      OnlyUnderSelf(t, p, lo, hi, iv);
      NoParts(t, iv, p, lo, parts);
      for k := 0 to |parts|
        invariant Ready() && OnlyUnder(t, p, lo, hi, iv, store.interval)
        invariant PartsSet(t, store.interval, p, lo, k, parts)
      {
        ghost var before := store.interval;
        assert Size(parts[k]) == t.SubtreeSize(t.Children(p)[lo + k]);
        ApplyAndPropagate(t.Children(p)[lo + k], parts[k]);
        OnlyUnderStep(t, p, lo + k, lo, hi, iv, before, store.interval);
        PartsStep(t, p, lo, k, parts, before, store.interval);
      }
      PartsTight(t, store.interval, p, lo, hi, parts, i);
    }

    /** Packs the siblings before the chosen child right behind the front slack. */
    method TightenIntervalsBefore(parent: Hash, at: nat) returns (sum: nat)
      requires Ready() && parent in store.tree.nodes && at < |store.tree.Children(parent)|
      requires slack + store.tree.SumSizes(store.tree.Children(parent)[..at]) <= Size(store.interval[parent])
      modifies this`subtreeSizes, store`interval
      ensures Ready() && sum == store.tree.SumSizes(store.tree.Children(parent)[..at])
      ensures Tight(store.tree, store.interval, parent, 0, at, BeforeSpan(old(store.interval[parent]), slack, sum))
      ensures OnlyUnder(store.tree, parent, 0, at, old(store.interval), store.interval)
    {
      hide SizesOk, Tree.WF, Tree.SubtreeSize, Tree.SumSizes, OnlyUnder, Tight, Tiles;
      var children := store.tree.Children(parent);
      var sizes := SubtreeSizesOf(children[..at]);
      sum := Sum(sizes);
      var span := BeforeSpan(store.interval[parent], slack, sum);
      var parts := SplitExact(span, sizes);
      forall k | 0 <= k < |parts|
        ensures Contains(span, parts[k]) && Size(parts[k]) == store.tree.SubtreeSize(children[0 + k]) {
        assert sizes[k] == store.tree.SubtreeSize(children[..at][k]);
      }
      SetParts(parent, 0, at, span, parts);
    }

    /** Packs the siblings after the chosen child right in front of the back slack. */
    method TightenIntervalsAfter(parent: Hash, at: nat) returns (sum: nat)
      requires Ready() && parent in store.tree.nodes && at < |store.tree.Children(parent)|
      requires slack + store.tree.SumSizes(store.tree.Children(parent)[at + 1..]) < Size(store.interval[parent])
      modifies this`subtreeSizes, store`interval
      ensures Ready() && sum == store.tree.SumSizes(store.tree.Children(parent)[at + 1..])
      ensures Tight(store.tree, store.interval, parent, at + 1, |store.tree.Children(parent)|,
                    AfterSpan(old(store.interval[parent]), slack, sum))
      ensures OnlyUnder(store.tree, parent, at + 1, |store.tree.Children(parent)|, old(store.interval), store.interval)
    {
      hide SizesOk, Tree.WF, Tree.SubtreeSize, Tree.SumSizes, OnlyUnder, Tight, Tiles;
      var children := store.tree.Children(parent);
      var sizes := SubtreeSizesOf(children[at + 1..]);
      sum := Sum(sizes);
      var span := AfterSpan(store.interval[parent], slack, sum);
      var parts := SplitExact(span, sizes);
      forall k | 0 <= k < |parts|
        ensures Contains(span, parts[k]) && Size(parts[k]) == store.tree.SubtreeSize(children[at + 1 + k]) {
        assert sizes[k] == store.tree.SubtreeSize(children[at + 1..][k]);
      }
      SetParts(parent, at + 1, |children|, span, parts);
    }

    /** Gives the chosen child all labels between its siblings. A final reindex root whose old
        interval is not inside them is laid out anew, with slack on both sides. */
    method ExpandIntervalToChosen(parent: Hash, child: Hash, siblingsBeforeSum: nat, siblingsAfterSum: nat,
                                  isFinalReindexRoot: bool)
      requires Ready() && parent in store.tree.nodes && child in store.tree.nodes && child != parent
      requires siblingsBeforeSum + siblingsAfterSum + 2 * slack < Size(store.interval[parent])
      requires isFinalReindexRoot ==>
                 SubtreeGood(store.tree, store.interval, child) && !store.tree.Anc(child, parent)
                 && siblingsBeforeSum + siblingsAfterSum + 4 * slack
                 + store.tree.SubtreeSize(child) < Size(store.interval[parent])
      modifies this`subtreeSizes, store`interval
      ensures Ready() && SameOutside(store.tree, child, old(store.interval), store.interval)
      ensures store.interval[child]
              == ChosenSpan(old(store.interval[parent]), slack, siblingsBeforeSum, siblingsAfterSum)
      ensures BelowSame(store.tree, child, isFinalReindexRoot, old(store.interval), store.interval)
      ensures isFinalReindexRoot ==> SubtreeGood(store.tree, store.interval, child)
    {
      hide SizesOk, Tree.WF, Tree.SubtreeSize, SubtreeGood, SameOutside;
      var allocation := ChosenSpan(store.interval[parent], slack, siblingsBeforeSum, siblingsAfterSum);
      var current := store.interval[child];
      ghost var iv := store.interval;
      if isFinalReindexRoot && !Contains(allocation, current) {
        var narrowed := Interval(allocation.start + slack, allocation.end - slack);
        ApplyAndPropagate(child, narrowed);
      } else {
        SameSelf(store.tree, child, iv);
      }
      if isFinalReindexRoot {
        GoodWidened(store.tree, store.interval, child, allocation);
      }
      SameWidened(store.tree, child, allocation, iv, store.interval);
      store.interval := store.interval[child := allocation];
    }

    /** Concentrates the labels of `parent` on `child`, one step of moving the reindex root. */
    method ConcentrateInterval(parent: Hash, child: Hash, isFinalReindexRoot: bool) returns (r: Result<()>)
      requires Ready() && parent in store.tree.nodes
      requires child in store.tree.Children(parent) ==>
                 store.tree.SubtreeSize(parent)
                   + (if isFinalReindexRoot then 4 * slack else 2 * slack) <= Size(store.interval[parent])
      requires child in store.tree.Children(parent) && isFinalReindexRoot ==>
                 SubtreeGood(store.tree, store.interval, child)
      modifies this`subtreeSizes, store`interval
      ensures child !in store.tree.Children(parent) ==>
                r == Err(DataInconsistency) && unchanged(this) && unchanged(store)
      ensures child in store.tree.Children(parent) ==>
                r.Ok? && Ready()
                && forall at :: 0 <= at < |store.tree.Children(parent)| && store.tree.Children(parent)[at] == child ==>
                     Concentrated(store.tree, old(store.interval), store.interval, parent, at, isFinalReindexRoot,
                                  slack)
    {
      hide SizesOk, Tree.WF, Tree.SubtreeSize, Tree.SumSizes, SubtreeGood, SameOutside, OnlyUnder, Tight, Concentrated;
      var t := store.tree;
      var children := t.Children(parent);
      var index := SplitChildren(children, child);
      if index.None? {
        return Err(DataInconsistency);
      }
      var at := index.value;
      ghost var iv := store.interval;
      SpansFit(t, parent, at);
      var before := TightenIntervalsBefore(parent, at);
      ghost var iv1 := store.interval;
      ParentSame(t, parent, 0, at, iv, iv1);
      var after := TightenIntervalsAfter(parent, at);
      ghost var iv2 := store.interval;
      ParentSame(t, parent, at + 1, |children|, iv1, iv2);
      TightStays(t, iv1, iv2, parent, at, BeforeSpan(iv[parent], slack, before));
      ChosenUntouched(t, iv, iv1, iv2, parent, at);
      ChildDesc(t, parent, at);
      ExpandIntervalToChosen(parent, child, before, after, isFinalReindexRoot);
      ConcentratedNow(t, iv, iv1, iv2, store.interval, parent, at, isFinalReindexRoot, slack, before, after);
      forall k | 0 <= k < |children| && children[k] == child ensures k == at { ChildIndexUnique(t, parent, k, at); }
      r := Ok(());
    }

    /** Pushes the size of `from` up the parent chain as far as all children are known. */
    method PushUp(t: Tree, block: Hash, from: Hash, ghost waiting: set<Hash>, ghost open0: set<Hash>,
                  ghost done0: set<Hash>,
                  counts0: map<Hash, nat>)
      returns (ghost open: set<Hash>, ghost done: set<Hash>, counts: map<Hash, nat>)
      requires t.WF() && from in done0 && from in t.nodes
               && (from != block ==> from != t.origin && t.Parent(from) in open0)
      requires Traversal(t, block, subtreeSizes, counts0, waiting, open0, done0, from)
      modifies this`subtreeSizes
      ensures Traversal(t, block, subtreeSizes, counts, waiting, open, done, NONE)
      ensures open + done == open0 + done0
    {
      hide Traversal;
      open, done, counts := open0, done0, counts0;
      var current := from;
      while current != block
        invariant current in done && open + done == open0 + done0 && current in t.nodes
        invariant current != block ==> current != t.origin && t.Parent(current) in open
        invariant Traversal(t, block, subtreeSizes, counts, waiting, open, done, current)
        decreases t.Height(current)
      {
        ghost var up := current;
        current := t.Parent(current);
        var count := Get(counts, current) + 1;
        if count < |t.Children(current)| {
          Pushed(t, block, subtreeSizes, counts, waiting, open, done, up, current);
          counts := counts[current := count];
          return;
        }
        AllCounted(t, block, subtreeSizes, counts, waiting, open, done, up, current);
        Completed(t, block, subtreeSizes, counts, waiting, open, done, up, current);
        counts := counts[current := count];
        subtreeSizes := subtreeSizes[current := SumOf(subtreeSizes, t.Children(current)) + 1];
        open, done := open - {current}, done + {current};
      }
      AtTop(t, block, subtreeSizes, counts, waiting, open, done);
    }
  }
}
