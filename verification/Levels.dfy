/** One level of a reclaim: a chain block gives up labels on one side, and its siblings on
    that side move over them. */
module Levels {
  import opened Hashes
  import opened Intervals
  import opened ReachabilityTree
  import opened Gaps

  /** Unused labels in front of the first child of `x`. */
  ghost function SlackBefore(t: Tree, iv: Labels, x: Hash): int
    requires t.WF() && iv.Keys == t.nodes.Keys && x in t.nodes && t.Children(x) != []
  {
    iv[t.Children(x)[0]].start - iv[x].start
  }

  /** Unused labels behind the last child of `x`. */
  ghost function SlackAfter(t: Tree, iv: Labels, x: Hash): int
    requires t.WF() && iv.Keys == t.nodes.Keys && x in t.nodes && t.Children(x) != []
  {
    iv[x].end - 1 - iv[t.Children(x)[|t.Children(x)| - 1]].end
  }

  /** Only the label of `c` changes among blocks below `c`, unless `deep`. */
  ghost predicate BelowSame(t: Tree, c: Hash, deep: bool, iv: Labels, iv': Labels)
    requires t.WF() && iv.Keys == t.nodes.Keys && iv'.Keys == t.nodes.Keys
  {
    !deep ==> forall x :: x in t.nodes && x != c && t.Anc(c, x) ==> iv'[x] == iv[x]
  }

  /** `iv'` is `iv` after the `at`-th child of `p` gave up its first `offset` labels. */
  ghost predicate LevelRaised(t: Tree, p: Hash, at: nat, allocationBlock: Hash, offset: nat, n: Hash, deep: bool,
                              iv: Labels, iv': Labels)
    requires t.WF() && iv.Keys == t.nodes.Keys && p in t.nodes && at < |t.Children(p)|
  {
    var cs := t.Children(p);
    && Good(t, iv', if allocationBlock in cs[..at] then NONE else n)
    && OnlyUnder(t, p, 0, at + 1, iv, iv')
    && SizesKept(t, p, 0, at, allocationBlock, offset, iv, iv')
    && BelowSame(t, cs[at], deep, iv, iv')
    && iv'[cs[at]].start == iv[cs[at]].start + offset && iv'[cs[at]].end == iv[cs[at]].end
    && iv'[cs[0]].start == iv[cs[0]].start + if allocationBlock in cs[..at] then 0 else offset
  }

  /** `iv'` is `iv` after the `at`-th child of `p` gave up its last `offset` labels. */
  ghost predicate LevelLowered(t: Tree, p: Hash, at: nat, allocationBlock: Hash, offset: nat, n: Hash, deep: bool,
                               iv: Labels, iv': Labels)
    requires t.WF() && iv.Keys == t.nodes.Keys && p in t.nodes && at < |t.Children(p)|
  {
    var cs := t.Children(p);
    && Good(t, iv', if allocationBlock in cs[at + 1..] then NONE else n)
    && OnlyUnder(t, p, at, |cs|, iv, iv')
    && SizesKept(t, p, at + 1, |cs|, allocationBlock, offset, iv, iv')
    && BelowSame(t, cs[at], deep, iv, iv')
    && iv'[cs[at]].start == iv[cs[at]].start && iv'[cs[at]].end + offset == iv[cs[at]].end
    && iv'[cs[|cs| - 1]].end + (if allocationBlock in cs[at + 1..] then 0 else offset) == iv[cs[|cs| - 1]].end
  }

  /** `iv'` differs from `iv` below the `at`-th child only, which lost labels on one side. */
  ghost predicate Trimmed(t: Tree, p: Hash, at: nat, before: nat, after: nat, deep: bool, iv: Labels, iv': Labels)
    requires t.WF() && iv.Keys == t.nodes.Keys && iv'.Keys == t.nodes.Keys && p in t.nodes && at < |t.Children(p)|
  {
    var c := t.Children(p)[at];
    && SameOutside(t, c, iv, iv') && SubtreeGood(t, iv', c) && BelowSame(t, c, deep, iv, iv')
    && iv'[c].start == iv[c].start + before && iv'[c].end + after == iv[c].end
  }

  lemma NarrowPlaced(t: Tree, c: Hash, iv: Labels, i: Interval)
    requires t.WF() && iv.Keys == t.nodes.Keys && c in t.nodes && t.Children(c) != [] && Placed(t, iv, c)
    requires i.start <= iv[t.Children(c)[0]].start && iv[t.Children(c)[|t.Children(c)| - 1]].end < i.end
    ensures Placed(t, iv[c := i], c)
  {
    var cs, iv' := t.Children(c), iv[c := i];
    forall k | 0 <= k < |cs| ensures StrictlyContains(i, iv[cs[k]]) && cs[k] != c {
      ChildDesc(t, c, k);
      if 0 < k { SiblingsOrdered(t, iv, c, 0, k); }
      if k < |cs| - 1 { SiblingsOrdered(t, iv, c, k, |cs| - 1); }
    }
    forall a, b | 0 <= a && b == a + 1 && b < |cs| ensures Adjacent(t, iv', c, a, b) {
      assert Adjacent(t, iv, c, a, b);
    }
  }

  /** Trimming a chain block with room on that side keeps its subtree in place. */
  lemma TrimShallow(t: Tree, n: Hash, c: Hash, iv: Labels, i: Interval)
    requires Good(t, iv, n) && c in t.nodes && !(n in t.nodes && t.Anc(c, n)) && t.Children(c) != []
    requires i.start <= iv[t.Children(c)[0]].start && iv[t.Children(c)[|t.Children(c)| - 1]].end < i.end
    ensures SubtreeGood(t, iv[c := i], c)
  {
    hide Placed;
    var iv' := iv[c := i];
    assert iv'.Keys == t.nodes.Keys;
    forall x | x in t.nodes && t.Anc(c, x) ensures Placed(t, iv', x) && !IsEmpty(iv'[x]) {
      if x == c {
        NarrowPlaced(t, c, iv, i);
        ChildDesc(t, c, 0);
        FirstNotAfterLast(t, iv, n, c);
      } else {
        forall k | 0 <= k < |t.Children(x)| ensures t.Children(x)[k] != c {
          ChildDesc(t, x, k);
          if t.Children(x)[k] == c { AncHeight(t, c, x); }
        }
        SameChildrenPlaced(t, iv, iv', x);
      }
    }
  }

  lemma FirstNotAfterLast(t: Tree, iv: Labels, n: Hash, c: Hash)
    requires Good(t, iv, n) && c in t.nodes && t.Children(c) != [] && !(n in t.nodes && t.Anc(c, n))
    ensures iv[t.Children(c)[0]].start <= iv[t.Children(c)[|t.Children(c)| - 1]].end
  {
    var cs := t.Children(c);
    ChildDesc(t, c, |cs| - 1);
    assert t.Anc(cs[|cs| - 1], cs[|cs| - 1]);
    assert Placed(t, iv, c);
    if |cs| > 1 { SiblingsOrdered(t, iv, c, 0, |cs| - 1); }
  }

  lemma TrimGapPlaced(t: Tree, p: Hash, at: nat, before: nat, after: nat, iv: Labels, iv': Labels)
    requires t.WF() && iv.Keys == t.nodes.Keys && iv'.Keys == t.nodes.Keys && p in t.nodes && at < |t.Children(p)|
    requires Placed(t, iv, p) && iv'[p] == iv[p]
    requires forall i :: 0 <= i < |t.Children(p)| && i != at ==> iv'[t.Children(p)[i]] == iv[t.Children(p)[i]]
    requires var c := t.Children(p)[at]; iv'[c].start == iv[c].start + before && iv'[c].end + after == iv[c].end
    ensures after == 0 ==> GapPlaced(t, iv', p, at, before)
    ensures before == 0 ==> GapPlaced(t, iv', p, at + 1, after)
  {
    var g := at + 1;
    if after == 0 {
      forall i, j | 0 <= i && j == i + 1 && j < |t.Children(p)| ensures Spaced(t, iv', p, i, j, at, before) {
        assert Adjacent(t, iv, p, i, j);
      }
    }
    if before == 0 {
      forall i, j | 0 <= i && j == i + 1 && j < |t.Children(p)| ensures Spaced(t, iv', p, i, j, g, after) {
        assert Adjacent(t, iv, p, i, j);
      }
    }
  }

  /** Trimming leaves a gap on the trimmed side. */
  lemma TrimGap(t: Tree, n: Hash, p: Hash, at: nat, before: nat, after: nat, deep: bool, iv: Labels, iv': Labels)
    requires Good(t, iv, n) && iv'.Keys == t.nodes.Keys && p in t.nodes && at < |t.Children(p)|
    requires Trimmed(t, p, at, before, after, deep, iv, iv')
    ensures after == 0 ==> GoodButGap(t, iv', n, p, at, before)
    ensures before == 0 ==> GoodButGap(t, iv', n, p, at + 1, after)
  {
    hide Placed, SameOutside, SubtreeGood, GapPlaced;
    var c := t.Children(p)[at];
    assert Others(t, iv, n, p);
    RelabelOthers(t, c, n, iv, iv');
    SiblingsSame(t, p, at, iv, iv');
    TrimGapPlaced(t, p, at, before, after, iv, iv');
  }

  lemma RaisedLevel(t: Tree, p: Hash, at: nat, allocationBlock: Hash, offset: nat, n: Hash, deep: bool,
                    iv: Labels, iv1: Labels, iv': Labels)
    requires t.WF() && iv.Keys == t.nodes.Keys && iv1.Keys == t.nodes.Keys && iv'.Keys == t.nodes.Keys
    requires p in t.nodes && at < |t.Children(p)|
    requires Trimmed(t, p, at, offset, 0, deep, iv, iv1)
    requires OffsetDone(t, p, 0, at, allocationBlock, offset, n, iv1, iv')
    requires at > 0 ==> iv'[t.Children(p)[0]].start
                        == iv1[t.Children(p)[0]].start + if allocationBlock in t.Children(p)[..at] then 0 else offset
    ensures LevelRaised(t, p, at, allocationBlock, offset, n, deep, iv, iv')
  {
    hide Good, SameOutside, SubtreeGood, OnlyUnder;
    var cs := t.Children(p);
    assert cs[0..at] == cs[..at];
    SiblingsSame(t, p, at, iv, iv1);
    OnlyUnderWiden(t, p, 0, at, 0, at + 1, iv1, iv');
    OnlyUnderJoin(t, p, at, 0, at + 1, iv, iv1, iv');
    forall x | x in t.nodes && t.Anc(cs[at], x) ensures iv'[x] == iv1[x] {
      OnlyUnderSame(t, p, 0, at, iv1, iv', x);
    }
    assert t.Anc(cs[at], cs[at]);
    assert SizesKept(t, p, 0, at, allocationBlock, offset, iv, iv');
  }

  lemma LoweredLevel(t: Tree, p: Hash, at: nat, allocationBlock: Hash, offset: nat, n: Hash, deep: bool,
                     iv: Labels, iv1: Labels, iv': Labels)
    requires t.WF() && iv.Keys == t.nodes.Keys && iv1.Keys == t.nodes.Keys && iv'.Keys == t.nodes.Keys
    requires p in t.nodes && at < |t.Children(p)|
    requires Trimmed(t, p, at, 0, offset, deep, iv, iv1)
    requires OffsetDone(t, p, at + 1, |t.Children(p)|, allocationBlock, offset, n, iv1, iv')
    requires var last := t.Children(p)[|t.Children(p)| - 1];
             at + 1 < |t.Children(p)| ==>
               iv'[last].end + (if allocationBlock in t.Children(p)[at + 1..] then 0 else offset) == iv1[last].end
    ensures LevelLowered(t, p, at, allocationBlock, offset, n, deep, iv, iv')
  {
    hide Good, SameOutside, SubtreeGood, OnlyUnder;
    var cs := t.Children(p);
    assert cs[at + 1..|cs|] == cs[at + 1..];
    SiblingsSame(t, p, at, iv, iv1);
    OnlyUnderWiden(t, p, at + 1, |cs|, at, |cs|, iv1, iv');
    OnlyUnderJoin(t, p, at, at, |cs|, iv, iv1, iv');
    forall x | x in t.nodes && t.Anc(cs[at], x) ensures iv'[x] == iv1[x] {
      OnlyUnderSame(t, p, at + 1, |cs|, iv1, iv', x);
    }
    assert t.Anc(cs[at], cs[at]);
    assert SizesKept(t, p, at + 1, |cs|, allocationBlock, offset, iv, iv');
  }

  lemma OnlyUnderJoin(t: Tree, p: Hash, k: nat, lo: nat, hi: nat, iv: Labels, iv1: Labels, iv': Labels)
    requires t.WF() && iv.Keys == t.nodes.Keys && iv1.Keys == t.nodes.Keys && iv'.Keys == t.nodes.Keys
    requires p in t.nodes && lo <= k < hi <= |t.Children(p)|
    requires SameOutside(t, t.Children(p)[k], iv, iv1) && OnlyUnder(t, p, lo, hi, iv1, iv')
    ensures OnlyUnder(t, p, lo, hi, iv, iv')
  {
    forall x | x in t.nodes && iv'[x] != iv[x] ensures UnderOne(t, p, lo, hi, x) {
      if t.Anc(t.Children(p)[k], x) {
      } else {
        assert iv'[x] != iv1[x];
      }
    }
  }

  /** A sibling's layout needs are the same before and after its chain sibling is trimmed. */
  lemma MovableTrim(t: Tree, p: Hash, at: nat, lo: nat, hi: nat, allocationBlock: Hash, offset: nat, n: Hash,
                    iv: Labels, iv1: Labels)
    requires t.WF() && iv.Keys == t.nodes.Keys && iv1.Keys == t.nodes.Keys && p in t.nodes
    requires at < |t.Children(p)| && hi <= |t.Children(p)| && !(lo <= at < hi)
    requires SameOutside(t, t.Children(p)[at], iv, iv1) && Movable(t, iv, p, lo, hi, allocationBlock, offset, n)
    ensures Movable(t, iv1, p, lo, hi, allocationBlock, offset, n)
  {
    SiblingsSame(t, p, at, iv, iv1);
    forall k | lo <= k < hi ensures MovableChild(t, iv1, t.Children(p)[k], allocationBlock, offset, n) {
      assert MovableChild(t, iv, t.Children(p)[k], allocationBlock, offset, n);
    }
  }

  lemma SlackNonnegative(t: Tree, iv: Labels, n: Hash, x: Hash)
    requires Good(t, iv, n) && x in t.nodes
    ensures t.Children(x) != [] ==>
              0 <= SlackBefore(t, iv, x) <= Size(iv[x]) && 0 <= SlackAfter(t, iv, x) <= Size(iv[x])
  {
    assert Placed(t, iv, x);
  }
}
