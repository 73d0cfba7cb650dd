/** Labellings with one gap: what the tree looks like while siblings are being shifted. */
module Gaps {
  import opened Hashes
  import opened Intervals
  import opened ReachabilityTree
  import opened Propagation

  /** The `j`-th child of `p` follows the `i`-th, after `offset` unused labels if `j == g`. */
  ghost predicate Spaced(t: Tree, iv: Labels, p: Hash, i: nat, j: nat, g: nat, offset: nat)
    requires t.WF() && iv.Keys == t.nodes.Keys && p in t.nodes && i < |t.Children(p)| && j < |t.Children(p)|
  {
    iv[t.Children(p)[i]].end + 1 + (if j == g then offset else 0) == iv[t.Children(p)[j]].start
  }

  /** The children of `p` are placed, but for `offset` unused labels in front of the `g`-th. */
  ghost predicate GapPlaced(t: Tree, iv: Labels, p: Hash, g: nat, offset: nat)
    requires t.WF() && iv.Keys == t.nodes.Keys && p in t.nodes
  {
    && (forall i :: 0 <= i < |t.Children(p)| ==> StrictlyContains(iv[p], iv[t.Children(p)[i]]))
    && (forall i, j :: 0 <= i && j == i + 1 && j < |t.Children(p)| ==> Spaced(t, iv, p, i, j, g, offset))
  }

  /** All blocks but `p` are placed, all blocks but `n` are non-empty. */
  ghost predicate Others(t: Tree, iv: Labels, n: Hash, p: Hash)
    requires t.WF() && iv.Keys == t.nodes.Keys
  {
    && (forall x :: x in t.nodes && x != p ==> Placed(t, iv, x))
    && (forall x :: x in t.nodes && x != n ==> !IsEmpty(iv[x]))
  }

  ghost predicate GoodButGap(t: Tree, iv: Labels, n: Hash, p: Hash, g: nat, offset: nat) {
    t.WF() && iv.Keys == t.nodes.Keys && p in t.nodes && Others(t, iv, n, p) && GapPlaced(t, iv, p, g, offset)
  }

  /** A gap in front of the first child, or behind the last, is no gap. */
  lemma NoGap(t: Tree, iv: Labels, n: Hash, p: Hash, g: nat, offset: nat)
    requires GoodButGap(t, iv, n, p, g, offset)
    requires g == 0 || g >= |t.Children(p)| || offset == 0
    ensures Good(t, iv, n)
  {
    forall i, j | 0 <= i && j == i + 1 && j < |t.Children(p)| ensures Adjacent(t, iv, p, i, j) {
      assert Spaced(t, iv, p, i, j, g, offset);
    }
  }

  lemma SameChildrenPlaced(t: Tree, iv: Labels, iv': Labels, x: Hash)
    requires t.WF() && iv.Keys == t.nodes.Keys && iv'.Keys == t.nodes.Keys && x in t.nodes && Placed(t, iv, x)
    requires iv'[x] == iv[x] && forall i :: 0 <= i < |t.Children(x)| ==> iv'[t.Children(x)[i]] == iv[t.Children(x)[i]]
    ensures Placed(t, iv', x)
  {
    forall i, j | 0 <= i && j == i + 1 && j < |t.Children(x)| ensures Adjacent(t, iv', x, i, j) {
      assert Adjacent(t, iv, x, i, j);
    }
  }

  /** Labels outside the subtree of `c` are untouched. */
  ghost predicate SameOutside(t: Tree, c: Hash, iv: Labels, iv': Labels)
    requires t.WF() && iv.Keys == t.nodes.Keys && iv'.Keys == t.nodes.Keys
  {
    forall x :: x in t.nodes && !t.Anc(c, x) ==> iv'[x] == iv[x]
  }

  /** Laying out the subtree of `c` anew concerns no other block but the parent of `c`. */
  lemma RelabelOthers(t: Tree, c: Hash, n: Hash, iv: Labels, iv': Labels)
    requires t.WF() && iv.Keys == t.nodes.Keys && iv'.Keys == t.nodes.Keys
    requires c in t.nodes && c != t.origin && Others(t, iv, n, t.Parent(c))
    requires SameOutside(t, c, iv, iv') && SubtreeGood(t, iv', c)
    ensures Others(t, iv', n, t.Parent(c))
    ensures n in t.nodes && t.Anc(c, n) ==> Others(t, iv', NONE, t.Parent(c))
  {
    forall x | x in t.nodes && x != t.Parent(c) ensures Placed(t, iv', x) {
      if !t.Anc(c, x) {
        forall i | 0 <= i < |t.Children(x)| ensures iv'[t.Children(x)[i]] == iv[t.Children(x)[i]] {
          assert t.Children(x)[i] != c;
        }
        SameChildrenPlaced(t, iv, iv', x);
      }
    }
  }

  /** Only labels below the children `lo..hi` of `p` differ. */
  ghost predicate OnlyUnder(t: Tree, p: Hash, lo: nat, hi: nat, iv: Labels, iv': Labels)
    requires t.WF() && iv.Keys == t.nodes.Keys && iv'.Keys == t.nodes.Keys && p in t.nodes && hi <= |t.Children(p)|
  {
    forall x :: x in t.nodes && iv'[x] != iv[x] ==> UnderOne(t, p, lo, hi, x)
  }

  ghost predicate UnderOne(t: Tree, p: Hash, lo: nat, hi: nat, x: Hash)
    requires t.WF() && p in t.nodes && hi <= |t.Children(p)| && x in t.nodes
  {
    exists j :: lo <= j < hi && t.Anc(t.Children(p)[j], x)
  }

  lemma OnlyUnderStep(t: Tree, p: Hash, k: nat, lo: nat, hi: nat, iv0: Labels, iv: Labels, iv': Labels)
    requires t.WF() && iv0.Keys == t.nodes.Keys && iv.Keys == t.nodes.Keys && iv'.Keys == t.nodes.Keys
    requires p in t.nodes && lo <= k < hi <= |t.Children(p)|
    requires OnlyUnder(t, p, lo, hi, iv0, iv) && SameOutside(t, t.Children(p)[k], iv, iv')
    ensures OnlyUnder(t, p, lo, hi, iv0, iv')
  {
    forall x | x in t.nodes && iv'[x] != iv0[x] ensures UnderOne(t, p, lo, hi, x) {
      if t.Anc(t.Children(p)[k], x) {
      } else {
        assert iv[x] != iv0[x];
      }
    }
  }

  lemma OnlyUnderWiden(t: Tree, p: Hash, lo: nat, hi: nat, lo': nat, hi': nat, iv: Labels, iv': Labels)
    requires t.WF() && iv.Keys == t.nodes.Keys && iv'.Keys == t.nodes.Keys
    requires p in t.nodes && lo' <= lo && hi <= hi' <= |t.Children(p)|
    requires OnlyUnder(t, p, lo, hi, iv, iv')
    ensures OnlyUnder(t, p, lo', hi', iv, iv')
  {
    forall x | x in t.nodes && iv'[x] != iv[x] ensures UnderOne(t, p, lo', hi', x) {
      assert UnderOne(t, p, lo, hi, x);
    }
  }

  /** A sibling outside `lo..hi`, and everything below it, keeps its labels; so does every
      block that is not strictly below `p`. */
  lemma OnlyUnderSame(t: Tree, p: Hash, lo: nat, hi: nat, iv: Labels, iv': Labels, x: Hash)
    requires t.WF() && iv.Keys == t.nodes.Keys && iv'.Keys == t.nodes.Keys
    requires p in t.nodes && hi <= |t.Children(p)| && OnlyUnder(t, p, lo, hi, iv, iv')
    requires x in t.nodes
    ensures !(x != p && t.Anc(p, x)) ==> iv'[x] == iv[x]
    ensures forall k :: 0 <= k < |t.Children(p)| && !(lo <= k < hi) && t.Anc(t.Children(p)[k], x) ==> iv'[x] == iv[x]
  {
    if iv'[x] != iv[x] {
      assert UnderOne(t, p, lo, hi, x);
      var j :| lo <= j < hi && t.Anc(t.Children(p)[j], x);
      ChildDesc(t, p, j);
      forall k | 0 <= k < |t.Children(p)| && !(lo <= k < hi) ensures !t.Anc(t.Children(p)[k], x) {
        if t.Anc(t.Children(p)[k], x) { ChildUnique(t, p, j, k, x); }
      }
    }
  }

  /** The block itself and its other children keep their labels. */
  lemma OnlyUnderRest(t: Tree, p: Hash, lo: nat, hi: nat, iv: Labels, iv': Labels, k: nat)
    requires t.WF() && iv.Keys == t.nodes.Keys && iv'.Keys == t.nodes.Keys
    requires p in t.nodes && hi <= |t.Children(p)| && OnlyUnder(t, p, lo, hi, iv, iv') && k < |t.Children(p)|
    ensures t.Children(p)[k] in t.nodes && iv'[p] == iv[p]
    ensures !(lo <= k < hi) ==> iv'[t.Children(p)[k]] == iv[t.Children(p)[k]]
  {
    hide Tree.WF, OnlyUnder;
    var c := t.Children(p)[k];
    ChildDesc(t, p, k);
    OnlyUnderSame(t, p, lo, hi, iv, iv', p);
    assert t.Anc(c, c);
    OnlyUnderSame(t, p, lo, hi, iv, iv', c);
  }

  lemma FullyGood(t: Tree, iv: Labels, n: Hash, p: Hash, c: Hash)
    requires t.WF() && iv.Keys == t.nodes.Keys && c in t.nodes && c != t.origin && p == t.Parent(c)
    requires Others(t, iv, n, p) && !(n in t.nodes && t.Anc(c, n))
    ensures SubtreeGood(t, iv, c) && t.SubtreeSize(c) <= Size(iv[c])
  {
    forall x | x in t.nodes && t.Anc(c, x) ensures Placed(t, iv, x) && !IsEmpty(iv[x]) {
      AncHeight(t, c, x);
    }
    SubtreeFits(t, iv, c);
  }

  /** Shifting the child on either side of the gap by the gap's width moves the gap past it. */
  lemma GapMoved(t: Tree, iv: Labels, iv': Labels, p: Hash, k: nat, g: nat, g': nat, offset: nat)
    requires t.WF() && iv.Keys == t.nodes.Keys && iv'.Keys == t.nodes.Keys && p in t.nodes
    requires GapPlaced(t, iv, p, g, offset) && k < |t.Children(p)| && 0 < g < |t.Children(p)| && iv'[p] == iv[p]
    requires forall i :: 0 <= i < |t.Children(p)| && i != k ==> iv'[t.Children(p)[i]] == iv[t.Children(p)[i]]
    requires || (k + 1 == g && g' == k && iv'[t.Children(p)[k]].start == iv[t.Children(p)[k]].start + offset
                 && iv'[t.Children(p)[k]].end == iv[t.Children(p)[k]].end + offset)
             || (k == g && g' == k + 1 && iv'[t.Children(p)[k]].start == iv[t.Children(p)[k]].start - offset
                 && iv'[t.Children(p)[k]].end == iv[t.Children(p)[k]].end - offset)
    ensures GapPlaced(t, iv', p, g', offset)
  {
    var cs := t.Children(p);
    assert t.NodeWF(p);
    assert Spaced(t, iv, p, g - 1, g, g, offset);
    forall i, j | 0 <= i && j == i + 1 && j < |cs| ensures Spaced(t, iv', p, i, j, g', offset) {
      assert Spaced(t, iv, p, i, j, g, offset);
    }
  }

  /** Stretching the child on either side of the gap closes it. */
  lemma GapClosed(t: Tree, iv: Labels, iv': Labels, p: Hash, k: nat, g: nat, offset: nat)
    requires t.WF() && iv.Keys == t.nodes.Keys && iv'.Keys == t.nodes.Keys && p in t.nodes
    requires GapPlaced(t, iv, p, g, offset) && k < |t.Children(p)| && 0 < g < |t.Children(p)| && iv'[p] == iv[p]
    requires forall i :: 0 <= i < |t.Children(p)| && i != k ==> iv'[t.Children(p)[i]] == iv[t.Children(p)[i]]
    requires || (k + 1 == g && iv'[t.Children(p)[k]].start == iv[t.Children(p)[k]].start
                 && iv'[t.Children(p)[k]].end == iv[t.Children(p)[k]].end + offset)
             || (k == g && iv'[t.Children(p)[k]].start == iv[t.Children(p)[k]].start - offset
                 && iv'[t.Children(p)[k]].end == iv[t.Children(p)[k]].end)
    ensures GapPlaced(t, iv', p, g, 0)
  {
    var cs := t.Children(p);
    assert Spaced(t, iv, p, g - 1, g, g, offset);
    forall i, j | 0 <= i && j == i + 1 && j < |cs| ensures Spaced(t, iv', p, i, j, g, 0) {
      assert Spaced(t, iv, p, i, j, g, offset);
    }
  }

  /** Labels of the other children of `p` are outside the subtree of its `k`-th child. */
  lemma SiblingsSame(t: Tree, p: Hash, k: nat, iv: Labels, iv': Labels)
    requires t.WF() && iv.Keys == t.nodes.Keys && iv'.Keys == t.nodes.Keys && p in t.nodes && k < |t.Children(p)|
    requires SameOutside(t, t.Children(p)[k], iv, iv')
    ensures iv'[p] == iv[p]
    ensures forall i :: 0 <= i < |t.Children(p)| && i != k ==> iv'[t.Children(p)[i]] == iv[t.Children(p)[i]]
  {
    ChildDesc(t, p, k);
    forall i | 0 <= i < |t.Children(p)| && i != k ensures !t.Anc(t.Children(p)[k], t.Children(p)[i]) {
      assert t.Anc(t.Children(p)[i], t.Children(p)[i]);
      if t.Anc(t.Children(p)[k], t.Children(p)[i]) { ChildUnique(t, p, k, i, t.Children(p)[i]); }
    }
  }

  lemma OutsideOfUpdate(t: Tree, c: Hash, i: Interval, iv: Labels, iv': Labels)
    requires t.WF() && iv.Keys == t.nodes.Keys && iv'.Keys == t.nodes.Keys && c in t.nodes
    requires OutsideSame(t, c, iv[c := i], iv')
    ensures SameOutside(t, c, iv, iv') && iv'[c] == i
  {
  }

  lemma OnlyUnderSelf(t: Tree, p: Hash, lo: nat, hi: nat, iv: Labels)
    requires t.WF() && iv.Keys == t.nodes.Keys && p in t.nodes && hi <= |t.Children(p)|
    ensures OnlyUnder(t, p, lo, hi, iv, iv)
  {
  }

  lemma GapWidth(t: Tree, iv: Labels, n: Hash, p: Hash, g: nat, offset: nat)
    requires GoodButGap(t, iv, n, p, g, offset) && 0 < g < |t.Children(p)|
    ensures iv[t.Children(p)[g - 1]].end + 1 + offset == iv[t.Children(p)[g]].start
    ensures iv[p].start <= iv[t.Children(p)[g - 1]].start
  {
    assert Spaced(t, iv, p, g - 1, g, g, offset);
  }

  /** The children `lo..hi` of `p` can be laid out anew at their current size; the allocation
      block can once it gets `offset` more labels. */
  ghost predicate Movable(t: Tree, iv: Labels, p: Hash, lo: nat, hi: nat, allocationBlock: Hash, offset: nat, n: Hash)
    requires t.WF() && iv.Keys == t.nodes.Keys && p in t.nodes && hi <= |t.Children(p)|
  {
    forall k :: lo <= k < hi ==> MovableChild(t, iv, t.Children(p)[k], allocationBlock, offset, n)
  }

  ghost predicate MovableChild(t: Tree, iv: Labels, c: Hash, allocationBlock: Hash, offset: nat, n: Hash)
    requires t.WF() && iv.Keys == t.nodes.Keys && c in t.nodes
  {
    if c == allocationBlock
    then (n in t.nodes ==> t.Anc(c, n)) && t.SubtreeSize(c) <= Size(iv[c]) + offset
    else !(n in t.nodes && t.Anc(c, n))
  }

  /** The children `lo..hi` of `p` keep their size, the allocation block gains `offset`. */
  ghost predicate SizesKept(t: Tree, p: Hash, lo: nat, hi: nat, allocationBlock: Hash, offset: nat, iv: Labels,
                            iv': Labels)
    requires t.WF() && iv.Keys == t.nodes.Keys && iv'.Keys == t.nodes.Keys && p in t.nodes && hi <= |t.Children(p)|
  {
    forall k :: lo <= k < hi ==>
      Size(iv'[t.Children(p)[k]]) == Size(iv[t.Children(p)[k]]) + if t.Children(p)[k] == allocationBlock then offset
        else 0
  }

  /** Labels after the siblings `k..at` before the `at`-th child were shifted up by `offset`. */
  ghost predicate ShiftedUp(t: Tree, p: Hash, k: nat, at: nat, offset: nat, n: Hash, iv0: Labels, iv: Labels)
    requires t.WF() && iv0.Keys == t.nodes.Keys && p in t.nodes && k <= at < |t.Children(p)|
  {
    && GoodButGap(t, iv, n, p, k, offset)
    && OnlyUnder(t, p, 0, at, iv0, iv)
    && (forall j :: 0 <= j < k ==> iv[t.Children(p)[j]] == iv0[t.Children(p)[j]])
    && (forall j :: k <= j < at ==> iv[t.Children(p)[j]].start == iv0[t.Children(p)[j]].start + offset)
    && (forall j :: k <= j < at ==> iv[t.Children(p)[j]].end == iv0[t.Children(p)[j]].end + offset)
  }

  lemma ShiftedUpStart(t: Tree, p: Hash, at: nat, offset: nat, n: Hash, iv: Labels)
    requires t.WF() && iv.Keys == t.nodes.Keys && p in t.nodes && at < |t.Children(p)|
             && GoodButGap(t, iv, n, p, at, offset)
    ensures ShiftedUp(t, p, at, at, offset, n, iv, iv)
  {
  }

  lemma ShiftedUpGap(t: Tree, p: Hash, k: nat, at: nat, offset: nat, n: Hash, iv0: Labels, iv: Labels)
    requires t.WF() && iv0.Keys == t.nodes.Keys && p in t.nodes && 0 < k <= at < |t.Children(p)|
    requires ShiftedUp(t, p, k, at, offset, n, iv0, iv)
    ensures GoodButGap(t, iv, n, p, k, offset)
    ensures iv[t.Children(p)[k - 1]] == iv0[t.Children(p)[k - 1]]
    ensures iv[t.Children(p)[k - 1]].end + offset < U64_MAX
  {
    GapWidth(t, iv, n, p, k, offset);
  }

  lemma ShiftedUpStep(t: Tree, p: Hash, k: nat, at: nat, offset: nat, n: Hash, iv0: Labels, iv: Labels, iv': Labels)
    requires t.WF() && iv0.Keys == t.nodes.Keys && iv'.Keys == t.nodes.Keys && p in t.nodes
             && 0 < k <= at < |t.Children(p)|
    requires ShiftedUp(t, p, k, at, offset, n, iv0, iv)
    requires GoodButGap(t, iv', n, p, k - 1, offset) && SameOutside(t, t.Children(p)[k - 1], iv, iv')
    requires iv'[t.Children(p)[k - 1]].start == iv[t.Children(p)[k - 1]].start + offset
    requires iv'[t.Children(p)[k - 1]].end == iv[t.Children(p)[k - 1]].end + offset
    ensures ShiftedUp(t, p, k - 1, at, offset, n, iv0, iv')
  {
    hide GoodButGap, SameOutside, OnlyUnder;
    assert iv.Keys == t.nodes.Keys by { ShiftedUpKeys(t, p, k, at, offset, n, iv0, iv); }
    SiblingsSame(t, p, k - 1, iv, iv');
    OnlyUnderStep(t, p, k - 1, 0, at, iv0, iv, iv');
  }

  lemma ShiftedUpKeys(t: Tree, p: Hash, k: nat, at: nat, offset: nat, n: Hash, iv0: Labels, iv: Labels)
    requires t.WF() && iv0.Keys == t.nodes.Keys && p in t.nodes && k <= at < |t.Children(p)|
    requires ShiftedUp(t, p, k, at, offset, n, iv0, iv)
    ensures iv.Keys == t.nodes.Keys
  {
  }

  /** All siblings shifted: the freed labels are now in front of the first child. */
  lemma ShiftedUpEnd(t: Tree, p: Hash, at: nat, allocationBlock: Hash, offset: nat, n: Hash, iv0: Labels, iv: Labels)
    requires t.WF() && iv0.Keys == t.nodes.Keys && p in t.nodes && at < |t.Children(p)|
    requires ShiftedUp(t, p, 0, at, offset, n, iv0, iv) && allocationBlock !in t.Children(p)[..at]
    ensures OffsetDone(t, p, 0, at, allocationBlock, offset, n, iv0, iv)
    ensures at > 0 ==> iv[t.Children(p)[0]].start == iv0[t.Children(p)[0]].start + offset
  {
    NoGap(t, iv, n, p, 0, offset);
    forall k | 0 <= k < at ensures t.Children(p)[k] != allocationBlock {
      assert t.Children(p)[..at][k] == t.Children(p)[k];
    }
  }

  /** The allocation block took the freed labels. */
  lemma ShiftedUpStretch(t: Tree, p: Hash, k: nat, at: nat, offset: nat, n: Hash, iv0: Labels, iv: Labels, iv': Labels)
    requires t.WF() && iv0.Keys == t.nodes.Keys && p in t.nodes && 0 < k <= at < |t.Children(p)|
    requires ShiftedUp(t, p, k, at, offset, n, iv0, iv)
    requires iv'.Keys == t.nodes.Keys && iv.Keys == t.nodes.Keys
    requires Good(t, iv', NONE) && SameOutside(t, t.Children(p)[k - 1], iv, iv')
    requires iv'[t.Children(p)[k - 1]].start == iv[t.Children(p)[k - 1]].start
    requires iv'[t.Children(p)[k - 1]].end == iv[t.Children(p)[k - 1]].end + offset
    ensures OffsetDone(t, p, 0, at, t.Children(p)[k - 1], offset, n, iv0, iv')
    ensures iv'[t.Children(p)[0]].start == iv0[t.Children(p)[0]].start
  {
    hide GoodButGap, SameOutside, OnlyUnder, Good;
    ShiftedUpKeys(t, p, k, at, offset, n, iv0, iv);
    SiblingsSame(t, p, k - 1, iv, iv');
    OnlyUnderStep(t, p, k - 1, 0, at, iv0, iv, iv');
    assert t.Children(p)[0..at][k - 1] == t.Children(p)[k - 1];
    forall i | 0 <= i < at && i != k - 1 ensures t.Children(p)[i] != t.Children(p)[k - 1] {
      if t.Children(p)[i] == t.Children(p)[k - 1] { ChildIndexUnique(t, p, i, k - 1); }
    }
  }

  /** What shifting the siblings `lo..hi` of `p` achieves: a good labelling, complete if the
      allocation block was among them. */
  ghost predicate OffsetDone(t: Tree, p: Hash, lo: nat, hi: nat, allocationBlock: Hash, offset: nat, n: Hash,
                             iv0: Labels, iv: Labels)
    requires t.WF() && iv0.Keys == t.nodes.Keys && p in t.nodes && lo <= hi <= |t.Children(p)|
  {
    && Good(t, iv, if allocationBlock in t.Children(p)[lo..hi] then NONE else n)
    && OnlyUnder(t, p, lo, hi, iv0, iv)
    && SizesKept(t, p, lo, hi, allocationBlock, offset, iv0, iv)
  }

  /** Labels after the siblings `at + 1..k` behind the `at`-th child were shifted down. */
  ghost predicate ShiftedDown(t: Tree, p: Hash, at: nat, k: nat, offset: nat, n: Hash, iv0: Labels, iv: Labels)
    requires t.WF() && iv0.Keys == t.nodes.Keys && p in t.nodes && at < k <= |t.Children(p)|
  {
    && GoodButGap(t, iv, n, p, k, offset)
    && OnlyUnder(t, p, at + 1, |t.Children(p)|, iv0, iv)
    && (forall j :: k <= j < |t.Children(p)| ==> iv[t.Children(p)[j]] == iv0[t.Children(p)[j]])
    && (forall j :: at < j < k ==> iv[t.Children(p)[j]].start + offset == iv0[t.Children(p)[j]].start)
    && (forall j :: at < j < k ==> iv[t.Children(p)[j]].end + offset == iv0[t.Children(p)[j]].end)
  }

  lemma ShiftedDownStart(t: Tree, p: Hash, at: nat, offset: nat, n: Hash, iv: Labels)
    requires t.WF() && iv.Keys == t.nodes.Keys && p in t.nodes && at < |t.Children(p)|
             && GoodButGap(t, iv, n, p, at + 1, offset)
    ensures ShiftedDown(t, p, at, at + 1, offset, n, iv, iv)
  {
  }

  lemma ShiftedDownGap(t: Tree, p: Hash, at: nat, k: nat, offset: nat, n: Hash, iv0: Labels, iv: Labels)
    requires t.WF() && iv0.Keys == t.nodes.Keys && p in t.nodes && at < k < |t.Children(p)|
    requires ShiftedDown(t, p, at, k, offset, n, iv0, iv)
    ensures GoodButGap(t, iv, n, p, k, offset)
    ensures iv[t.Children(p)[k]] == iv0[t.Children(p)[k]]
    ensures offset < iv[t.Children(p)[k]].start && offset <= iv[t.Children(p)[k]].end
  {
    GapWidth(t, iv, n, p, k, offset);
  }

  lemma ShiftedDownStep(t: Tree, p: Hash, at: nat, k: nat, offset: nat, n: Hash, iv0: Labels, iv: Labels, iv': Labels)
    requires t.WF() && iv0.Keys == t.nodes.Keys && iv.Keys == t.nodes.Keys && iv'.Keys == t.nodes.Keys
    requires p in t.nodes && at < k < |t.Children(p)| && ShiftedDown(t, p, at, k, offset, n, iv0, iv)
    requires GoodButGap(t, iv', n, p, k + 1, offset) && SameOutside(t, t.Children(p)[k], iv, iv')
    requires iv'[t.Children(p)[k]].start + offset == iv[t.Children(p)[k]].start
    requires iv'[t.Children(p)[k]].end + offset == iv[t.Children(p)[k]].end
    ensures ShiftedDown(t, p, at, k + 1, offset, n, iv0, iv')
  {
    hide GoodButGap, SameOutside, OnlyUnder;
    SiblingsSame(t, p, k, iv, iv');
    OnlyUnderStep(t, p, k, at + 1, |t.Children(p)|, iv0, iv, iv');
  }

  /** All siblings shifted: the freed labels are now behind the last child. */
  lemma ShiftedDownEnd(t: Tree, p: Hash, at: nat, allocationBlock: Hash, offset: nat, n: Hash, iv0: Labels, iv: Labels)
    requires t.WF() && iv0.Keys == t.nodes.Keys && p in t.nodes && at < |t.Children(p)|
    requires ShiftedDown(t, p, at, |t.Children(p)|, offset, n, iv0, iv)
    requires allocationBlock !in t.Children(p)[at + 1..]
    ensures OffsetDone(t, p, at + 1, |t.Children(p)|, allocationBlock, offset, n, iv0, iv)
    ensures var last := t.Children(p)[|t.Children(p)| - 1];
            at + 1 < |t.Children(p)| ==> iv[last].end + offset == iv0[last].end
  {
    NoGap(t, iv, n, p, |t.Children(p)|, offset);
    assert t.Children(p)[at + 1..] == t.Children(p)[at + 1..|t.Children(p)|];
    forall k | at + 1 <= k < |t.Children(p)| ensures t.Children(p)[k] != allocationBlock {
      assert t.Children(p)[at + 1..][k - at - 1] == t.Children(p)[k];
    }
  }

  /** The allocation block took the freed labels. */
  lemma ShiftedDownStretch(t: Tree, p: Hash, at: nat, k: nat, offset: nat, n: Hash, iv0: Labels, iv: Labels,
                           iv': Labels)
    requires t.WF() && iv0.Keys == t.nodes.Keys && iv.Keys == t.nodes.Keys && iv'.Keys == t.nodes.Keys
    requires p in t.nodes && at < k < |t.Children(p)| && ShiftedDown(t, p, at, k, offset, n, iv0, iv)
    requires Good(t, iv', NONE) && SameOutside(t, t.Children(p)[k], iv, iv')
    requires iv'[t.Children(p)[k]].start + offset == iv[t.Children(p)[k]].start
    requires iv'[t.Children(p)[k]].end == iv[t.Children(p)[k]].end
    ensures OffsetDone(t, p, at + 1, |t.Children(p)|, t.Children(p)[k], offset, n, iv0, iv')
    ensures var last := t.Children(p)[|t.Children(p)| - 1]; iv'[last].end == iv0[last].end
  {
    hide GoodButGap, SameOutside, OnlyUnder, Good;
    SiblingsSame(t, p, k, iv, iv');
    OnlyUnderStep(t, p, k, at + 1, |t.Children(p)|, iv0, iv, iv');
    assert t.Children(p)[at + 1..|t.Children(p)|][k - at - 1] == t.Children(p)[k];
    forall i | at + 1 <= i < |t.Children(p)| && i != k ensures t.Children(p)[i] != t.Children(p)[k] {
      if t.Children(p)[i] == t.Children(p)[k] { ChildIndexUnique(t, p, i, k); }
    }
  }
}
