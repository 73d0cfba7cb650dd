/** The label space never runs out: how much room a lean chain leaves for the reindex root. */
module Capacity {
  import opened Hashes
  import opened Intervals
  import opened ReachabilityTree
  import opened Levels
  import opened ReclaimWalk

  lemma TimesAdd(a: int, b: int, c: int)
    ensures Times(a, b + c) == Times(a, b) + Times(a, c)
  {
    assert a * (b + c) == a * b + a * c;
  }

  lemma TimesSame(a: int, b: int, c: int)
    requires b == c
    ensures Times(a, b) == Times(a, c)
  {
  }

  /** A child leaner than the bound costs at most `slack + 2` labels per block. */
  lemma LeanChildCost(slack: nat, size: nat)
    requires size >= 1
    ensures slack + 2 * size <= Times(slack + 2, size)
  {
    assert slack * size >= slack;
    assert (slack + 2) * size == slack * size + 2 * size;
  }

  /** The labels used by the first `m` children of `x`, the `i`-th of which leads to the root. */
  lemma {:induction false} ChildrenCost(t: Tree, iv: Labels, x: Hash, i: nat, root: Hash, slack: nat, m: nat)
    requires t.WF() && iv.Keys == t.nodes.Keys && x in t.nodes && root in t.nodes
    requires i < |t.Children(x)| && t.Anc(t.Children(x)[i], root) && 0 < m <= |t.Children(x)|
    requires Placed(t, iv, x) && ChildrenLean(t, iv, x, root, slack)
    ensures var cs := t.Children(x);
            iv[cs[m - 1]].end + 1 - iv[cs[0]].start
            <= if m <= i then Times(slack + 2, t.SumSizes(cs[..m]))
               else Size(iv[cs[i]]) + Times(slack + 2, t.SumSizes(cs[..m]) - t.SubtreeSize(cs[i]))
  {
    hide Times, Tree.SubtreeSize;
    var cs := t.Children(x);
    var c := cs[m - 1];
    assert cs[..m][..m - 1] == cs[..m - 1];
    if m > 1 {
      ChildrenCost(t, iv, x, i, root, slack, m - 1);
      assert Adjacent(t, iv, x, m - 2, m - 1);
    } else {
      assert cs[..0] == [];
      TimesStep(slack + 2, 0);
    }
    if m - 1 != i {
      if t.Anc(c, root) { ChildUnique(t, x, m - 1, i, root); }
      SubtreePositive(t, c);
      LeanChildCost(slack, t.SubtreeSize(c));
      TimesAdd(slack + 2, t.SumSizes(cs[..m - 1]), t.SubtreeSize(c));
      TimesAdd(slack + 2, t.SumSizes(cs[..m - 1]) - t.SubtreeSize(cs[i]), t.SubtreeSize(c));
    }
  }

  lemma LevelSpan(t: Tree, iv: Labels, x: Hash)
    requires t.WF() && iv.Keys == t.nodes.Keys && x in t.nodes && t.Children(x) != []
    ensures var cs := t.Children(x);
            Size(iv[x]) == SlackBefore(t, iv, x) + SlackAfter(t, iv, x) + 1
              + (iv[cs[|cs| - 1]].end + 1 - iv[cs[0]].start)
  {
  }

  lemma AllChildrenCost(t: Tree, iv: Labels, x: Hash, i: nat, root: Hash, slack: nat)
    requires t.WF() && iv.Keys == t.nodes.Keys && x in t.nodes && root in t.nodes
    requires i < |t.Children(x)| && t.Anc(t.Children(x)[i], root)
    requires Placed(t, iv, x) && ChildrenLean(t, iv, x, root, slack)
    ensures var cs := t.Children(x);
            iv[cs[|cs| - 1]].end + 1 - iv[cs[0]].start
            <= Size(iv[cs[i]]) + Times(slack + 2, t.SubtreeSize(x) - t.SubtreeSize(cs[i]) - 1)
  {
    hide *;
    var cs := t.Children(x);
    assert cs[..|cs|] == cs;
    ChildrenCost(t, iv, x, i, root, slack, |cs|);
    SubtreeSizeRec(t, x);
    TimesSame(slack + 2, t.SumSizes(cs[..|cs|]) - t.SubtreeSize(cs[i]), t.SubtreeSize(x) - t.SubtreeSize(cs[i]) - 1);
  }

  lemma LeanFacts(t: Tree, iv: Labels, x: Hash, root: Hash, slack: nat)
    requires t.WF() && iv.Keys == t.nodes.Keys && x in t.nodes && root in t.nodes && t.Children(x) != []
    requires LeanAt(t, iv, x, root, slack)
    ensures ChildrenLean(t, iv, x, root, slack) && SlackBefore(t, iv, x) <= slack && SlackAfter(t, iv, x) <= slack
  {
    hide Tree.WF, ChildrenLean, SlackBefore, SlackAfter;
  }

  /** What a lean chain block keeps from its chain child. */
  lemma LevelCost(t: Tree, iv: Labels, x: Hash, c: Hash, root: Hash, slack: nat)
    requires t.WF() && iv.Keys == t.nodes.Keys && x in t.nodes && root in t.nodes && Placed(t, iv, x)
    requires c in t.nodes && c != t.origin && t.Parent(c) == x && t.Anc(c, root)
    requires t.Children(x) != [] && LeanAt(t, iv, x, root, slack)
    ensures Size(iv[x]) <= Size(iv[c]) + 2 * slack + 1 + Times(slack + 2, t.SubtreeSize(x) - t.SubtreeSize(c) - 1)
  {
    hide *;
    LeanFacts(t, iv, x, root, slack);
    var i := ChainChild(t, c);
    assert t.Children(x)[i] == c;
    LevelSpan(t, iv, x);
    AllChildrenCost(t, iv, x, i, root, slack);
  }

  /** Labels that `h` chain blocks with `rest` blocks beside and above them may use up. */
  ghost function Cost(slack: nat, h: nat, rest: int): int {
    Times(2 * slack + 1, h) + Times(slack + 2, rest)
  }

  /** How much smaller than the origin a block of the lean chain can be. */
  lemma {:induction false} ChainCost(t: Tree, iv: Labels, n: Hash, x: Hash, root: Hash, slack: nat)
    requires Good(t, iv, n) && root in t.nodes && LeanChain(t, iv, root, slack, NONE)
    requires x in t.nodes && t.Anc(x, root)
    ensures Size(iv[t.origin]) <= Size(iv[x]) + Cost(slack, t.Height(x), |t.nodes| - t.SubtreeSize(x))
    decreases t.Height(x)
  {
    hide Times, Tree.SubtreeSize, LeanAt;
    SubtreeBound(t, x);
    if x == t.origin {
      TimesStep(2 * slack + 1, 0);
      TimesNonnegative(slack + 2, |t.nodes| - t.SubtreeSize(x));
    } else {
      var p := t.Parent(x);
      assert t.Anc(p, x);
      AncTrans(t, p, x, root);
      AncHeight(t, x, root);
      ChainCost(t, iv, n, p, root, slack);
      LevelCost(t, iv, p, x, root, slack);
      TimesStep(2 * slack + 1, t.Height(x));
      CostSum(slack, |t.nodes|, t.SubtreeSize(p), t.SubtreeSize(x));
    }
  }

  lemma CostSum(slack: nat, all: int, p: int, x: int)
    ensures Times(slack + 2, all - p) + Times(slack + 2, p - x - 1) <= Times(slack + 2, all - x)
  {
    TimesAdd(slack + 2, all - p, p - x - 1);
    TimesAdd(slack + 2, all - x - 1, 1);
    assert all - p + (p - x - 1) == all - x - 1;
    assert all - x - 1 + 1 == all - x;
  }

  /** Fewer blocks than the label space has room for. */
  predicate Roomy(blocks: nat, slack: nat, space: nat) {
    blocks * (4 * slack + 4) <= space
  }

  /** All products in terms of `slack * blocks`. */
  lemma RoomyTerms(blocks: nat, slack: nat)
    ensures Times(2 * slack, blocks) == 2 * Times(slack, blocks)
    ensures Times(2 * slack + 1, blocks) == 2 * Times(slack, blocks) + blocks
    ensures Times(slack + 2, blocks) == Times(slack, blocks) + 2 * blocks
    ensures blocks * (4 * slack + 4) == 4 * Times(slack, blocks) + 4 * blocks
  {
    var x := slack * blocks;
    assert (slack + slack) * blocks == x + x;
    assert (slack + 2) * blocks == x + 2 * blocks;
    assert blocks * (4 * slack + 4) == 4 * x + 4 * blocks;
  }

  lemma TimesSplit(slack: nat, h: nat)
    ensures Times(2 * slack + 1, h) == Times(2 * slack, h) + h
  {
  }

  lemma TimesCovers(slack: nat, s: nat, blocks: nat)
    requires s <= blocks
    ensures Times(slack + 2, blocks - s) + s <= Times(slack + 2, blocks)
  {
    TimesAdd(slack + 2, blocks - s, s);
    TimesNonnegative(slack + 1, s);
    assert (slack + 2) * s == (slack + 1) * s + s;
  }

  lemma RoomyArithmetic(blocks: nat, slack: nat, space: nat, h: nat, s: nat, h': nat)
    requires Roomy(blocks, slack, space) && h < blocks && s <= blocks && h <= h' < blocks
    ensures blocks + Times(slack, h) + Cost(slack, h, blocks - s) <= space
    ensures s + Times(2 * slack, h' - h + 1) + Cost(slack, h, blocks - s) <= space
  {
    RoomyTerms(blocks, slack);
    hide Times;
    TimesNonnegative(slack, blocks);
    TimesMonotone(slack, h, blocks);
    TimesMonotone(2 * slack + 1, h, blocks);
    TimesCovers(slack, s, blocks);
    TimesSplit(slack, h);
    TimesAdd(2 * slack, h' - h + 1, h);
    TimesMonotone(2 * slack, h' - h + 1 + h, blocks);
  }

  /** Below the bound the root has room for a reindex. */
  lemma RoomyRoot(t: Tree, iv: Labels, n: Hash, root: Hash, slack: nat)
    requires Good(t, iv, n) && root in t.nodes && LeanChain(t, iv, root, slack, NONE)
    requires Roomy(|t.nodes|, slack, Size(iv[t.origin]))
    ensures RootRoom(t, iv, root, slack)
  {
    assert t.NodeWF(root) && t.Anc(root, root);
    hide Times, Tree.SubtreeSize, LeanChain, Roomy, Cost, Good, Tree.Anc;
    ChainCost(t, iv, n, root, root, slack);
    SubtreeBound(t, root);
    RoomyArithmetic(|t.nodes|, slack, Size(iv[t.origin]), t.Height(root), t.SubtreeSize(root), t.Height(root));
  }

  /** Labels needed for slack on both sides of every block from height `h` down to height `k`. */
  ghost function MoveNeed(slack: nat, h: int, k: int): int {
    Times(2 * slack, k - h + 1)
  }

  lemma RoomyMove(blocks: nat, slack: nat, space: nat, size: nat, h: nat, s: nat, k: nat)
    requires Roomy(blocks, slack, space) && h <= k < blocks && s <= blocks
    requires space <= size + Cost(slack, h, blocks - s)
    ensures s + MoveNeed(slack, h, k) <= size
  {
    hide Times, Cost, Roomy;
    RoomyArithmetic(blocks, slack, space, h, s, k);
  }

  /** Below the bound an ancestor of the root has room to move the root down to height `k`. */
  lemma RoomyAncestor(t: Tree, iv: Labels, n: Hash, root: Hash, slack: nat, a: Hash, k: nat)
    requires Good(t, iv, n) && root in t.nodes && LeanChain(t, iv, root, slack, NONE)
    requires Roomy(|t.nodes|, slack, Size(iv[t.origin]))
    requires a in t.nodes && t.Anc(a, root) && t.Height(a) <= k < |t.nodes|
    ensures t.SubtreeSize(a) + MoveNeed(slack, t.Height(a), k) <= Size(iv[a])
  {
    hide Tree.SubtreeSize, LeanChain, Roomy, Cost, Tree.Anc, MoveNeed, Placed;
    ChainCost(t, iv, n, a, root, slack);
    SubtreeBound(t, a);
    RoomyMove(|t.nodes|, slack, Size(iv[t.origin]), Size(iv[a]), t.Height(a), t.SubtreeSize(a), k);
  }
}
