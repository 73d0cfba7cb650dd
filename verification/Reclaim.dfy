/** The whole reclaim walk along the chain to the reindex root, for both sides. */
module ReclaimWalk {
  import opened Hashes
  import opened Intervals
  import opened ReachabilityTree
  import opened SubtreeCount
  import opened Propagation
  import opened Gaps
  import opened Levels
  import opened DescendantSearch
  import opened ReachabilityStore

  datatype Side = Front | Back

  ghost function Slack(t: Tree, side: Side, iv: Labels, x: Hash): int
    requires t.WF() && iv.Keys == t.nodes.Keys && x in t.nodes && t.Children(x) != []
  {
    if side.Front? then SlackBefore(t, iv, x) else SlackAfter(t, iv, x)
  }

  function Opposite(side: Side): Side {
    if side.Front? then Back else Front
  }

  /** The siblings of the `at`-th child of `p` on the given side of it. */
  ghost function Beside(t: Tree, side: Side, p: Hash, at: nat): seq<Hash>
    requires t.WF() && p in t.nodes && at < |t.Children(p)|
  {
    if side.Front? then t.Children(p)[..at] else t.Children(p)[at + 1..]
  }

  ghost predicate MovableBeside(t: Tree, side: Side, iv: Labels, p: Hash, at: nat, allocationBlock: Hash, offset: nat,
                                n: Hash)
    requires t.WF() && iv.Keys == t.nodes.Keys && p in t.nodes && at < |t.Children(p)|
  {
    if side.Front? then Movable(t, iv, p, 0, at, allocationBlock, offset, n)
    else Movable(t, iv, p, at + 1, |t.Children(p)|, allocationBlock, offset, n)
  }

  ghost predicate Level(t: Tree, side: Side, p: Hash, at: nat, allocationBlock: Hash, offset: nat, n: Hash, deep: bool,
                        iv: Labels, iv': Labels)
    requires t.WF() && iv.Keys == t.nodes.Keys && p in t.nodes && at < |t.Children(p)|
  {
    if side.Front? then LevelRaised(t, p, at, allocationBlock, offset, n, deep, iv, iv')
    else LevelLowered(t, p, at, allocationBlock, offset, n, deep, iv, iv')
  }

  // ----- what one level does, whichever the side -----

  lemma LevelGood(t: Tree, side: Side, p: Hash, at: nat, allocationBlock: Hash, offset: nat, n: Hash, deep: bool,
                  iv: Labels, iv': Labels)
    requires t.WF() && iv.Keys == t.nodes.Keys && p in t.nodes && at < |t.Children(p)|
    requires Level(t, side, p, at, allocationBlock, offset, n, deep, iv, iv')
    ensures Good(t, iv', if allocationBlock in Beside(t, side, p, at) then NONE else n)
    ensures OutsideSame(t, p, iv, iv')
    ensures BelowSame(t, t.Children(p)[at], deep, iv, iv')
  {
    var lo, hi := if side.Front? then 0 else at, if side.Front? then at + 1 else |t.Children(p)|;
    assert OnlyUnder(t, p, lo, hi, iv, iv');
    forall x | x in t.nodes && !(x != p && t.Anc(p, x)) ensures iv'[x] == iv[x] {
      OnlyUnderSame(t, p, lo, hi, iv, iv', x);
    }
  }

  /** The chain block loses `offset` of its slack on that side; its parent gains it, unless
      the allocation block took it. */
  lemma LevelSlack(t: Tree, side: Side, p: Hash, at: nat, allocationBlock: Hash, offset: nat, n: Hash, deep: bool,
                   iv: Labels, iv': Labels)
    requires t.WF() && iv.Keys == t.nodes.Keys && iv'.Keys == t.nodes.Keys && p in t.nodes && at < |t.Children(p)|
    requires Level(t, side, p, at, allocationBlock, offset, n, deep, iv, iv')
    ensures Slack(t, side, iv', p) == Slack(t, side, iv, p) + if allocationBlock in Beside(t, side, p, at) then 0
              else offset
    ensures Slack(t, Opposite(side), iv', p) == Slack(t, Opposite(side), iv, p)
    ensures var c := t.Children(p)[at];
            !deep && c in t.nodes && t.Children(c) != [] ==>
              && Slack(t, side, iv', c) == Slack(t, side, iv, c) - offset
              && Slack(t, Opposite(side), iv', c) == Slack(t, Opposite(side), iv, c)
  {
    LevelSlackParent(t, side, p, at, allocationBlock, offset, n, deep, iv, iv');
    LevelSlackChild(t, side, p, at, allocationBlock, offset, n, deep, iv, iv');
  }

  lemma LevelSlackParent(t: Tree, side: Side, p: Hash, at: nat, allocationBlock: Hash, offset: nat, n: Hash, deep: bool,
                         iv: Labels, iv': Labels)
    requires t.WF() && iv.Keys == t.nodes.Keys && iv'.Keys == t.nodes.Keys && p in t.nodes && at < |t.Children(p)|
    requires Level(t, side, p, at, allocationBlock, offset, n, deep, iv, iv')
    ensures Slack(t, side, iv', p) == Slack(t, side, iv, p) + if allocationBlock in Beside(t, side, p, at) then 0
              else offset
    ensures Slack(t, Opposite(side), iv', p) == Slack(t, Opposite(side), iv, p)
  {
    hide Good, SizesKept, Tree.WF, OnlyUnder, BelowSame, LevelRaised, LevelLowered;
    if side.Front? {
      RaisedEnds(t, p, at, allocationBlock, offset, n, deep, iv, iv');
    } else {
      LoweredEnds(t, p, at, allocationBlock, offset, n, deep, iv, iv');
    }
  }

  lemma RaisedEnds(t: Tree, p: Hash, at: nat, allocationBlock: Hash, offset: nat, n: Hash, deep: bool, iv: Labels,
                   iv': Labels)
    requires t.WF() && iv.Keys == t.nodes.Keys && iv'.Keys == t.nodes.Keys && p in t.nodes && at < |t.Children(p)|
    requires LevelRaised(t, p, at, allocationBlock, offset, n, deep, iv, iv')
    ensures var cs, last := t.Children(p), |t.Children(p)| - 1;
            && cs[0] in t.nodes && cs[last] in t.nodes && iv'[p] == iv[p] && iv'[cs[last]].end == iv[cs[last]].end
            && iv'[cs[0]].start == iv[cs[0]].start + if allocationBlock in cs[..at] then 0 else offset
  {
    hide Good, SizesKept, Tree.WF, OnlyUnder, BelowSame;
    var last := |t.Children(p)| - 1;
    ChildDesc(t, p, 0);
    OnlyUnderRest(t, p, 0, at + 1, iv, iv', last);
  }

  lemma LoweredEnds(t: Tree, p: Hash, at: nat, allocationBlock: Hash, offset: nat, n: Hash, deep: bool, iv: Labels,
                    iv': Labels)
    requires t.WF() && iv.Keys == t.nodes.Keys && iv'.Keys == t.nodes.Keys && p in t.nodes && at < |t.Children(p)|
    requires LevelLowered(t, p, at, allocationBlock, offset, n, deep, iv, iv')
    ensures var cs, last := t.Children(p), |t.Children(p)| - 1;
            && cs[0] in t.nodes && cs[last] in t.nodes && iv'[p] == iv[p] && iv'[cs[0]].start == iv[cs[0]].start
            && iv'[cs[last]].end + (if allocationBlock in cs[at + 1..] then 0 else offset) == iv[cs[last]].end
  {
    hide Good, SizesKept, Tree.WF, OnlyUnder, BelowSame;
    var last := |t.Children(p)| - 1;
    ChildDesc(t, p, last);
    OnlyUnderRest(t, p, at, last + 1, iv, iv', 0);
  }

  lemma LevelSlackChild(t: Tree, side: Side, p: Hash, at: nat, allocationBlock: Hash, offset: nat, n: Hash, deep: bool,
                        iv: Labels, iv': Labels)
    requires t.WF() && iv.Keys == t.nodes.Keys && iv'.Keys == t.nodes.Keys && p in t.nodes && at < |t.Children(p)|
    requires Level(t, side, p, at, allocationBlock, offset, n, deep, iv, iv')
    ensures var c := t.Children(p)[at];
            !deep && c in t.nodes && t.Children(c) != [] ==>
              && Slack(t, side, iv', c) == Slack(t, side, iv, c) - offset
              && Slack(t, Opposite(side), iv', c) == Slack(t, Opposite(side), iv, c)
  {
    hide Good, SizesKept, Tree.WF, OnlyUnder;
    ChildDesc(t, p, at);
    var c := t.Children(p)[at];
    if !deep && t.Children(c) != [] {
      var first, last := t.Children(c)[0], t.Children(c)[|t.Children(c)| - 1];
      ChildDesc(t, c, 0);
      ChildDesc(t, c, |t.Children(c)| - 1);
      assert t.Anc(first, first) && t.Anc(last, last);
    }
  }

  lemma LevelSizes(t: Tree, side: Side, p: Hash, at: nat, allocationBlock: Hash, offset: nat, n: Hash, deep: bool,
                   iv: Labels, iv': Labels, k: nat)
    requires t.WF() && iv.Keys == t.nodes.Keys && iv'.Keys == t.nodes.Keys && p in t.nodes && at < |t.Children(p)|
    requires Level(t, side, p, at, allocationBlock, offset, n, deep, iv, iv')
    requires k < |t.Children(p)| && k != at
    ensures var c := t.Children(p)[k];
            Size(iv'[c]) == Size(iv[c]) + if c == allocationBlock && c in Beside(t, side, p, at) then offset else 0
  {
    hide Good;
    var cs := t.Children(p);
    var lo, hi := if side.Front? then 0 else at, if side.Front? then at + 1 else |cs|;
    if lo <= k < hi {
      if side.Front? { assert cs[..at][k] == cs[k]; } else { assert cs[at + 1..][k - at - 1] == cs[k]; }
    } else {
      assert t.Anc(cs[k], cs[k]);
      OnlyUnderSame(t, p, lo, hi, iv, iv', cs[k]);
      if cs[k] in Beside(t, side, p, at) {
        var b := Beside(t, side, p, at);
        var j :| 0 <= j < |b| && b[j] == cs[k];
        ChildIndexUnique(t, p, k, if side.Front? then j else j + at + 1);
      }
    }
  }

  // ----- leanness: how little of its interval a chain block above the root wastes -----

  /** Children that do not lead to the root are at most `slack` larger than twice their subtree. */
  ghost predicate ChildrenLean(t: Tree, iv: Labels, x: Hash, root: Hash, slack: nat)
    requires t.WF() && iv.Keys == t.nodes.Keys && x in t.nodes && root in t.nodes
  {
    forall k :: 0 <= k < |t.Children(x)| && !t.Anc(t.Children(x)[k], root) ==>
      Size(iv[t.Children(x)[k]]) <= slack + 2 * t.SubtreeSize(t.Children(x)[k])
  }

  ghost predicate LeanAt(t: Tree, iv: Labels, x: Hash, root: Hash, slack: nat)
    requires t.WF() && iv.Keys == t.nodes.Keys && x in t.nodes && root in t.nodes && t.Children(x) != []
  {
    SlackBefore(t, iv, x) <= slack && SlackAfter(t, iv, x) <= slack && ChildrenLean(t, iv, x, root, slack)
  }

  /** Lean, except perhaps for the slack on the given side. */
  ghost predicate HalfLean(t: Tree, side: Side, iv: Labels, x: Hash, root: Hash, slack: nat)
    requires t.WF() && iv.Keys == t.nodes.Keys && x in t.nodes && root in t.nodes && t.Children(x) != []
  {
    Slack(t, Opposite(side), iv, x) <= slack && ChildrenLean(t, iv, x, root, slack)
  }

  /** Every strict ancestor of the reindex root, but for `skip`, is lean. */
  ghost predicate LeanChain(t: Tree, iv: Labels, root: Hash, slack: nat, skip: Hash)
    requires t.WF() && iv.Keys == t.nodes.Keys && root in t.nodes
  {
    forall x :: x in t.nodes && x != root && x != skip && t.Anc(x, root) ==>
                  t.Children(x) != [] && LeanAt(t, iv, x, root, slack)
  }

  lemma LeanKept(t: Tree, iv: Labels, iv': Labels, x: Hash, root: Hash, slack: nat)
    requires t.WF() && iv.Keys == t.nodes.Keys && iv'.Keys == t.nodes.Keys && x in t.nodes && root in t.nodes
    requires t.Children(x) != [] && LeanAt(t, iv, x, root, slack)
    requires iv'[x] == iv[x] && forall k :: 0 <= k < |t.Children(x)| ==> iv'[t.Children(x)[k]] == iv[t.Children(x)[k]]
    ensures LeanAt(t, iv', x, root, slack)
  {
  }

  /** The children of a block above `p` on the chain to `c` are not strictly below `p`. */
  lemma AboveSame(t: Tree, p: Hash, iv: Labels, iv': Labels, x: Hash)
    requires t.WF() && iv.Keys == t.nodes.Keys && iv'.Keys == t.nodes.Keys && p in t.nodes && x in t.nodes
    requires OutsideSame(t, p, iv, iv') && t.Height(x) < t.Height(p)
    ensures iv'[x] == iv[x] && forall k :: 0 <= k < |t.Children(x)| ==> iv'[t.Children(x)[k]] == iv[t.Children(x)[k]]
  {
    if t.Anc(p, x) { AncHeight(t, p, x); }
    forall k | 0 <= k < |t.Children(x)| ensures iv'[t.Children(x)[k]] == iv[t.Children(x)[k]] {
      if t.Anc(p, t.Children(x)[k]) { AncHeight(t, p, t.Children(x)[k]); }
    }
  }

  lemma BelowKept(t: Tree, c: Hash, iv: Labels, iv': Labels, x: Hash)
    requires t.WF() && iv.Keys == t.nodes.Keys && iv'.Keys == t.nodes.Keys && c in t.nodes && x in t.nodes
    requires BelowSame(t, c, false, iv, iv') && x != c && t.Anc(c, x)
    ensures iv'[x] == iv[x] && forall k :: 0 <= k < |t.Children(x)| ==> iv'[t.Children(x)[k]] == iv[t.Children(x)[k]]
  {
    AncHeight(t, c, x);
    forall k | 0 <= k < |t.Children(x)| ensures iv'[t.Children(x)[k]] == iv[t.Children(x)[k]] {
      ChildDesc(t, x, k);
      assert t.Anc(x, t.Children(x)[k]);
      AncTrans(t, c, x, t.Children(x)[k]);
    }
  }

  /** One level keeps every ancestor of the root lean, apart from the parent of the level. */
  lemma LevelLean(t: Tree, side: Side, p: Hash, at: nat, allocationBlock: Hash, offset: nat, n: Hash, deep: bool,
                  iv: Labels, iv': Labels, root: Hash, slack: nat, x: Hash)
    requires t.WF() && iv.Keys == t.nodes.Keys && iv'.Keys == t.nodes.Keys && p in t.nodes && at < |t.Children(p)|
    requires Level(t, side, p, at, allocationBlock, offset, n, deep, iv, iv')
    requires root in t.nodes && t.Anc(t.Children(p)[at], root) && deep == (t.Children(p)[at] == root)
    requires x in t.nodes && x != root && x != p && t.Anc(x, root) && t.Children(x) != []
    requires if x == t.Children(p)[at]
             then HalfLean(t, side, iv, x, root, slack) && Slack(t, side, iv, x) - offset <= slack
             else LeanAt(t, iv, x, root, slack)
    ensures LeanAt(t, iv', x, root, slack)
  {
    hide Level, LeanAt, HalfLean, Slack, Tree.WF;
    var c := t.Children(p)[at];
    LevelGood(t, side, p, at, allocationBlock, offset, n, deep, iv, iv');
    hide Good, OutsideSame, BelowSame;
    ChildDesc(t, p, at);
    AncTrans(t, p, c, root);
    AncChain(t, x, p, root);
    AncChain(t, x, c, root);
    if t.Height(x) < t.Height(p) {
      AboveSame(t, p, iv, iv', x);
      LeanKept(t, iv, iv', x, root, slack);
    } else if x == c {
      LevelSlack(t, side, p, at, allocationBlock, offset, n, deep, iv, iv');
      ChosenLean(t, side, iv, iv', x, root, slack, offset);
    } else {
      if t.Height(x) == t.Height(p) { AncAntisym(t, x, p); }
      if t.Height(x) == t.Height(c) { AncAntisym(t, x, c); }
      if deep { AncHeight(t, x, root); }
      BelowKept(t, c, iv, iv', x);
      LeanKept(t, iv, iv', x, root, slack);
    }
  }

  /** The child that gave up `offset` labels of its slack is lean again. */
  lemma ChosenLean(t: Tree, side: Side, iv: Labels, iv': Labels, x: Hash, root: Hash, slack: nat, offset: nat)
    requires t.WF() && iv.Keys == t.nodes.Keys && iv'.Keys == t.nodes.Keys && x in t.nodes && root in t.nodes
    requires t.Children(x) != [] && BelowSame(t, x, false, iv, iv')
    requires HalfLean(t, side, iv, x, root, slack) && Slack(t, side, iv, x) - offset <= slack
    requires Slack(t, side, iv', x) == Slack(t, side, iv, x) - offset
    requires Slack(t, Opposite(side), iv', x) == Slack(t, Opposite(side), iv, x)
    ensures LeanAt(t, iv', x, root, slack)
  {
    hide Tree.WF, Tree.SubtreeSize;
    forall k | 0 <= k < |t.Children(x)|
      ensures t.Children(x)[k] in t.nodes && iv'[t.Children(x)[k]] == iv[t.Children(x)[k]] {
      ChildDesc(t, x, k);
      assert t.Anc(t.Children(x)[k], t.Children(x)[k]);
    }
  }

  /** The parent of the level stays lean on the other side; if the allocation block took the
      labels, and it was smaller than its subtree, then on both. */
  lemma LevelParentLean(t: Tree, side: Side, p: Hash, at: nat, allocationBlock: Hash, offset: nat, n: Hash, deep: bool,
                        iv: Labels, iv': Labels, root: Hash, slack: nat)
    requires t.WF() && iv.Keys == t.nodes.Keys && iv'.Keys == t.nodes.Keys && p in t.nodes && at < |t.Children(p)|
    requires Level(t, side, p, at, allocationBlock, offset, n, deep, iv, iv')
    requires root in t.nodes && t.Anc(t.Children(p)[at], root) && LeanAt(t, iv, p, root, slack)
    requires allocationBlock in Beside(t, side, p, at) ==>
               allocationBlock in t.nodes
                 && Size(iv[allocationBlock]) + offset <= slack + 2 * t.SubtreeSize(allocationBlock)
    ensures HalfLean(t, side, iv', p, root, slack)
    ensures allocationBlock in Beside(t, side, p, at) ==> LeanAt(t, iv', p, root, slack)
  {
    hide Level;
    LevelSlack(t, side, p, at, allocationBlock, offset, n, deep, iv, iv');
    forall k | 0 <= k < |t.Children(p)| && !t.Anc(t.Children(p)[k], root)
      ensures Size(iv'[t.Children(p)[k]]) <= slack + 2 * t.SubtreeSize(t.Children(p)[k])
    {
      LevelSizes(t, side, p, at, allocationBlock, offset, n, deep, iv, iv', k);
    }
  }

  // ----- the walk -----

  /** `x` lies on the chain from `c0` up to `root`. */
  ghost predicate OnPath(t: Tree, c0: Hash, x: Hash, root: Hash)
    requires t.WF() && root in t.nodes
  {
    c0 in t.nodes && c0 != t.origin && x in t.nodes && t.Anc(c0, x) && t.Anc(x, root)
  }

  lemma PathParent(t: Tree, c0: Hash, x: Hash, root: Hash)
    requires t.WF() && root in t.nodes && OnPath(t, c0, x, root) && x != c0
    ensures x != t.origin && OnPath(t, c0, t.Parent(x), root) && t.Children(t.Parent(x)) != [] && t.Parent(x) != root
  {
    AncHeight(t, c0, x);
    assert t.Anc(t.Parent(x), x);
    AncTrans(t, t.Parent(x), x, root);
    if t.Parent(x) == root { AncHeight(t, x, root); }
  }

  /** The slack of the chain blocks from `c0` up to, and without, `x`. */
  ghost function SlackSum(t: Tree, side: Side, iv: Labels, c0: Hash, x: Hash): int
    requires t.WF() && iv.Keys == t.nodes.Keys && x in t.nodes && t.Anc(c0, x)
    decreases t.Height(x)
  {
    if x == c0 then 0
    else assert t.NodeWF(x); SlackSum(t, side, iv, c0, t.Parent(x)) + Slack(t, side, iv, t.Parent(x))
  }

  lemma {:induction false} SlackSumGrows(t: Tree, side: Side, iv: Labels, n: Hash, c0: Hash, x: Hash, y: Hash)
    requires Good(t, iv, n) && x in t.nodes && y in t.nodes && t.Anc(c0, x) && t.Anc(x, y)
    ensures t.Anc(c0, y) && SlackSum(t, side, iv, c0, x) <= SlackSum(t, side, iv, c0, y)
    decreases t.Height(y)
  {
    AncTrans(t, c0, x, y);
    if x != y {
      SlackSumGrows(t, side, iv, n, c0, x, t.Parent(y));
      AncHeight(t, c0, x);
      AncHeight(t, x, y);
      SlackNonnegative(t, iv, n, t.Parent(y));
    }
  }

  ghost function Times(a: int, b: int): int {
    a * b
  }

  /** The labels the level of `x` has to free, when `alloc` are reserved at every block below. */
  ghost function Owed(t: Tree, side: Side, iv: Labels, c0: Hash, x: Hash, alloc: nat, required: nat): int
    requires t.WF() && iv.Keys == t.nodes.Keys && c0 in t.nodes && x in t.nodes && t.Anc(c0, x)
  {
    required + Times(alloc, t.Height(x) - t.Height(c0)) - SlackSum(t, side, iv, c0, x)
  }

  lemma SlackSumStep(t: Tree, side: Side, iv: Labels, c0: Hash, x: Hash)
    requires t.WF() && iv.Keys == t.nodes.Keys && c0 in t.nodes && x in t.nodes && t.Anc(c0, x) && x != c0
             && x != t.origin
    ensures t.Anc(c0, t.Parent(x)) && t.Children(t.Parent(x)) != []
    ensures SlackSum(t, side, iv, c0, x) == SlackSum(t, side, iv, c0, t.Parent(x)) + Slack(t, side, iv, t.Parent(x))
  {
  }

  lemma OwedStep(t: Tree, side: Side, iv: Labels, c0: Hash, x: Hash, alloc: nat, required: nat)
    requires t.WF() && iv.Keys == t.nodes.Keys && c0 in t.nodes && x in t.nodes && t.Anc(c0, x) && x != c0
             && x != t.origin
    ensures t.Anc(c0, t.Parent(x)) && t.Children(t.Parent(x)) != []
    ensures Owed(t, side, iv, c0, t.Parent(x), alloc, required)
            == Slack(t, side, iv, t.Parent(x)) + Owed(t, side, iv, c0, x, alloc, required) - alloc
  {
    hide Times, Slack, SlackSum, Tree.Anc;
    SlackSumStep(t, side, iv, c0, x);
    var h, h' := t.Height(x) - t.Height(c0), t.Height(t.Parent(x)) - t.Height(c0);
    assert h' == h - 1;
    TimesStep(alloc, h);
    assert Times(alloc, h') == Times(alloc, h - 1);
  }

  lemma TimesStep(a: int, h: int)
    ensures Times(a, h) == Times(a, h - 1) + a && Times(a, 0) == 0
  {
  }

  /** The fixed data of one reclaim. `labels` are the labels before it started. */
  datatype Plan = Plan(t: Tree, side: Side, labels: Labels, n: Hash, allocationBlock: Hash, c0: Hash, top: Hash,
                       root: Hash,
                       alloc: nat, required: nat, slack: nat)
  {
    ghost predicate Valid() {
      && Good(t, labels, n) && root in t.nodes
      && OnPath(t, c0, top, root) && OnPath(t, c0, c0, root)
      && alloc == (if top == root then slack else 0)
      && SlackSum(t, side, labels, c0, top) < required
      && (top != root ==>
            t.Children(top) != [] && Owed(t, side, labels, c0, top, alloc, required) <= Slack(t, side, labels, top))
      && LeanChain(t, labels, root, slack, NONE)
      && BesideChosen()
    }

    /** The allocation block is a sibling of `c0` on the side where labels are reclaimed; the
        block without an interval, if any, is below it; it is not larger than its subtree. */
    ghost predicate BesideChosen()
      requires t.WF() && labels.Keys == t.nodes.Keys && c0 in t.nodes && c0 != t.origin
    {
      && allocationBlock in t.nodes
      && (exists at :: IsAt(t, t.Parent(c0), at, c0) && allocationBlock in Beside(t, side, t.Parent(c0), at))
      && (n in t.nodes ==> t.Anc(allocationBlock, n))
      && required == t.SubtreeSize(allocationBlock) && Size(labels[allocationBlock]) <= required
    }
  }

  ghost predicate IsAt(t: Tree, p: Hash, at: nat, c: Hash)
    requires t.WF() && p in t.nodes
  {
    at < |t.Children(p)| && t.Children(p)[at] == c
  }

  /** State of the walk down after the level of `cur` has been handled. */
  ghost predicate WalkedTo(w: Plan, iv: Labels, cur: Hash)
    requires w.Valid()
  {
    && iv.Keys == w.t.nodes.Keys && OnPath(w.t, w.c0, cur, w.root) && w.t.Anc(cur, w.top) && cur != w.t.origin
    && OutsideSame(w.t, w.t.Parent(cur), w.labels, iv)
    && w.t.Children(w.t.Parent(cur)) != []
    && LeanChain(w.t, iv, w.root, w.slack, w.t.Parent(cur))
    && (forall x :: x in w.t.nodes && x != w.top && w.t.Anc(cur, x) && w.t.Anc(x, w.top) ==>
          w.t.Children(x) != [] && Slack(w.t, w.side, iv, x) == w.alloc)
    && (if cur == w.c0 then Allocated(w, iv) else Pending(w, iv, cur))
  }

  ghost predicate Allocated(w: Plan, iv: Labels)
    requires w.Valid() && iv.Keys == w.t.nodes.Keys
  {
    && Good(w.t, iv, NONE)
    && Size(iv[w.allocationBlock]) == Size(w.labels[w.allocationBlock]) + w.required
    && w.t.Children(w.t.Parent(w.c0)) != []
    && LeanAt(w.t, iv, w.t.Parent(w.c0), w.root, w.slack)
  }

  /** The parent of `cur` holds what its level has to hand on. */
  ghost predicate Pending(w: Plan, iv: Labels, cur: Hash)
    requires w.Valid() && iv.Keys == w.t.nodes.Keys && cur in w.t.nodes && cur != w.t.origin && w.t.Anc(w.c0, cur)
    requires w.t.Children(w.t.Parent(cur)) != []
  {
    && Good(w.t, iv, w.n)
    && Slack(w.t, w.side, iv, w.t.Parent(cur))
       == Slack(w.t, w.side, w.labels, w.t.Parent(cur)) + Owed(w.t, w.side, w.labels, w.c0, cur, w.alloc, w.required)
    && HalfLean(w.t, w.side, iv, w.t.Parent(cur), w.root, w.slack)
  }

  /** The block without an interval is not below the chain. */
  lemma ChainFree(w: Plan, q: Hash)
    requires w.Valid() && OnPath(w.t, w.c0, q, w.root)
    ensures !(w.n in w.t.nodes && w.t.Anc(q, w.n))
  {
    if w.n in w.t.nodes && w.t.Anc(q, w.n) {
      var p := w.t.Parent(w.c0);
      var at :| IsAt(w.t, p, at, w.c0) && w.allocationBlock in Beside(w.t, w.side, p, at);
      AncTrans(w.t, w.c0, q, w.n);
      var j := BesideIndex(w.t, w.side, p, at, w.allocationBlock);
      ChildUnique(w.t, p, at, j, w.n);
    }
  }

  lemma BesideIndex(t: Tree, side: Side, p: Hash, at: nat, x: Hash) returns (j: nat)
    requires t.WF() && p in t.nodes && at < |t.Children(p)| && x in Beside(t, side, p, at)
    ensures j < |t.Children(p)| && t.Children(p)[j] == x && j != at && (side.Front? <==> j < at)
  {
    var b := Beside(t, side, p, at);
    j :| 0 <= j < |b| && b[j] == x;
    if side.Back? { j := j + at + 1; }
  }

  /** The allocation block is beside `c0` and beside no other chain block. */
  lemma BesideOnlyChosen(w: Plan, q: Hash, at: nat)
    requires w.Valid() && OnPath(w.t, w.c0, q, w.root) && q != w.t.origin && IsAt(w.t, w.t.Parent(q), at, q)
    ensures w.allocationBlock in Beside(w.t, w.side, w.t.Parent(q), at) <==> q == w.c0
  {
    var p := w.t.Parent(w.c0);
    var at0 :| IsAt(w.t, p, at0, w.c0) && w.allocationBlock in Beside(w.t, w.side, p, at0);
    var j0 := BesideIndex(w.t, w.side, p, at0, w.allocationBlock);
    if q == w.c0 {
      ChildIndexUnique(w.t, p, at, at0);
    } else if w.allocationBlock in Beside(w.t, w.side, w.t.Parent(q), at) {
      var j := BesideIndex(w.t, w.side, w.t.Parent(q), at, w.allocationBlock);
      AncHeight(w.t, w.c0, q);
    }
  }

  lemma LevelMovable(w: Plan, iv: Labels, q: Hash, at: nat, offset: nat)
    requires w.Valid() && iv.Keys == w.t.nodes.Keys && OnPath(w.t, w.c0, q, w.root)
    requires q != w.t.origin && IsAt(w.t, w.t.Parent(q), at, q)
    requires q == w.c0 ==> w.required <= offset
    ensures MovableBeside(w.t, w.side, iv, w.t.Parent(q), at, w.allocationBlock, offset, w.n)
  {
    var p := w.t.Parent(q);
    BesideOnlyChosen(w, q, at);
    var lo, hi := if w.side.Front? then 0 else at + 1, if w.side.Front? then at else |w.t.Children(p)|;
    forall k | lo <= k < hi ensures MovableChild(w.t, iv, w.t.Children(p)[k], w.allocationBlock, offset, w.n) {
      var s := w.t.Children(p)[k];
      assert s in Beside(w.t, w.side, p, at) by {
        if w.side.Front? { assert w.t.Children(p)[..at][k] == s; }
          else { assert w.t.Children(p)[at + 1..][k - at - 1] == s; }
      }
      if s != w.allocationBlock && w.n in w.t.nodes && w.t.Anc(s, w.n) {
        SiblingFree(w, q, at, k);
      }
    }
  }

  /** No other sibling of the chain holds the block without an interval. */
  lemma SiblingFree(w: Plan, q: Hash, at: nat, k: nat)
    requires w.Valid() && OnPath(w.t, w.c0, q, w.root)
    requires q != w.t.origin && IsAt(w.t, w.t.Parent(q), at, q) && k < |w.t.Children(w.t.Parent(q))|
    requires w.t.Children(w.t.Parent(q))[k] != w.allocationBlock
    ensures !(w.n in w.t.nodes && w.t.Anc(w.t.Children(w.t.Parent(q))[k], w.n))
  {
    var p := w.t.Parent(q);
    var s := w.t.Children(p)[k];
    if w.n in w.t.nodes && w.t.Anc(s, w.n) {
      ChildDesc(w.t, p, k);
      if q == w.c0 {
        var at0 :| IsAt(w.t, p, at0, w.c0) && w.allocationBlock in Beside(w.t, w.side, p, at0);
        var j := BesideIndex(w.t, w.side, p, at0, w.allocationBlock);
        ChildUnique(w.t, p, j, k, w.n);
      } else {
        PathParent(w.t, w.c0, q, w.root);
        ChainFree(w, p);
      }
    }
  }

  lemma SlackKept(t: Tree, side: Side, iv: Labels, iv': Labels, x: Hash)
    requires t.WF() && iv.Keys == t.nodes.Keys && iv'.Keys == t.nodes.Keys && x in t.nodes && t.Children(x) != []
    requires iv'[x] == iv[x] && forall k :: 0 <= k < |t.Children(x)| ==> iv'[t.Children(x)[k]] == iv[t.Children(x)[k]]
    ensures Slack(t, side, iv', x) == Slack(t, side, iv, x)
  {
  }

  lemma LevelAllocated(w: Plan, iv: Labels, iv': Labels, at: nat, offset: nat, deep: bool)
    requires w.Valid() && iv.Keys == w.t.nodes.Keys && iv'.Keys == w.t.nodes.Keys
    requires w.c0 != w.t.origin && IsAt(w.t, w.t.Parent(w.c0), at, w.c0)
    requires w.t.Parent(w.c0) != w.root && w.t.Children(w.t.Parent(w.c0)) != []
    requires offset == w.required && iv[w.allocationBlock] == w.labels[w.allocationBlock]
    requires LeanAt(w.t, iv, w.t.Parent(w.c0), w.root, w.slack)
    requires Level(w.t, w.side, w.t.Parent(w.c0), at, w.allocationBlock, offset, w.n, deep, iv, iv')
    ensures Allocated(w, iv')
  {
    hide Level, Plan.Valid, LeanAt, HalfLean, Times, Slack, Beside;
    PlanFacts(w);
    var p := w.t.Parent(w.c0);
    BesideOnlyChosen(w, w.c0, at);
    LevelGood(w.t, w.side, p, at, w.allocationBlock, offset, w.n, deep, iv, iv');
    hide Good, OutsideSame;
    LevelParentLean(w.t, w.side, p, at, w.allocationBlock, offset, w.n, deep, iv, iv', w.root, w.slack);
    var j := BesideIndex(w.t, w.side, p, at, w.allocationBlock);
    LevelSizes(w.t, w.side, p, at, w.allocationBlock, offset, w.n, deep, iv, iv', j);
  }

  lemma LevelPending(w: Plan, iv: Labels, iv': Labels, q: Hash, at: nat, offset: nat, deep: bool)
    requires w.Valid() && iv.Keys == w.t.nodes.Keys && iv'.Keys == w.t.nodes.Keys
    requires OnPath(w.t, w.c0, q, w.root) && q != w.t.origin && IsAt(w.t, w.t.Parent(q), at, q)
    requires w.t.Parent(q) != w.root && w.t.Children(w.t.Parent(q)) != []
    requires offset == Owed(w.t, w.side, w.labels, w.c0, q, w.alloc, w.required)
    requires q != w.c0 && LeanAt(w.t, iv, w.t.Parent(q), w.root, w.slack)
    requires Slack(w.t, w.side, iv, w.t.Parent(q)) == Slack(w.t, w.side, w.labels, w.t.Parent(q))
    requires Level(w.t, w.side, w.t.Parent(q), at, w.allocationBlock, offset, w.n, deep, iv, iv')
    ensures Pending(w, iv', q)
  {
    hide Level, Plan.Valid, LeanAt, HalfLean, Times, Slack, Beside;
    PlanFacts(w);
    var p := w.t.Parent(q);
    BesideOnlyChosen(w, q, at);
    LevelGood(w.t, w.side, p, at, w.allocationBlock, offset, w.n, deep, iv, iv');
    hide Good, OutsideSame;
    LevelParentLean(w.t, w.side, p, at, w.allocationBlock, offset, w.n, deep, iv, iv', w.root, w.slack);
    LevelSlack(w.t, w.side, p, at, w.allocationBlock, offset, w.n, deep, iv, iv');
  }

  /** The allocation of the bottom level, or what is handed on from any other. */
  lemma LevelOutcome(w: Plan, iv: Labels, iv': Labels, q: Hash, at: nat, offset: nat, deep: bool)
    requires w.Valid() && iv.Keys == w.t.nodes.Keys && iv'.Keys == w.t.nodes.Keys
    requires OnPath(w.t, w.c0, q, w.root) && q != w.t.origin && IsAt(w.t, w.t.Parent(q), at, q)
    requires w.t.Parent(q) != w.root && w.t.Children(w.t.Parent(q)) != []
    requires offset == Owed(w.t, w.side, w.labels, w.c0, q, w.alloc, w.required)
    requires q == w.c0 ==> iv[w.allocationBlock] == w.labels[w.allocationBlock]
    requires LeanAt(w.t, iv, w.t.Parent(q), w.root, w.slack)
    requires Slack(w.t, w.side, iv, w.t.Parent(q)) == Slack(w.t, w.side, w.labels, w.t.Parent(q))
    requires Level(w.t, w.side, w.t.Parent(q), at, w.allocationBlock, offset, w.n, deep, iv, iv')
    ensures if q == w.c0 then Allocated(w, iv') else Pending(w, iv', q)
  {
    hide Level, Plan.Valid, LeanAt, Slack, Allocated, Pending;
    PlanFacts(w);
    if q == w.c0 {
      LevelAllocated(w, iv, iv', at, offset, deep);
    } else {
      LevelPending(w, iv, iv', q, at, offset, deep);
    }
  }

  lemma PlanFacts(w: Plan)
    requires w.Valid()
    ensures w.t.WF() && w.labels.Keys == w.t.nodes.Keys && w.allocationBlock in w.t.nodes && w.root in w.t.nodes
    ensures OnPath(w.t, w.c0, w.top, w.root) && OnPath(w.t, w.c0, w.c0, w.root)
    ensures Owed(w.t, w.side, w.labels, w.c0, w.c0, w.alloc, w.required) == w.required
    ensures w.required == w.t.SubtreeSize(w.allocationBlock) && Size(w.labels[w.allocationBlock]) <= w.required
  {
    TimesStep(w.alloc, 0);
  }

  lemma ChildUnrelated(t: Tree, p: Hash, i: nat, j: nat)
    requires t.WF() && p in t.nodes && i < |t.Children(p)| && j < |t.Children(p)| && i != j
    ensures !t.Anc(t.Children(p)[i], t.Children(p)[j])
  {
    assert t.Anc(t.Children(p)[j], t.Children(p)[j]);
    if t.Anc(t.Children(p)[i], t.Children(p)[j]) { ChildUnique(t, p, i, j, t.Children(p)[j]); }
  }

  lemma PlanLean(w: Plan, x: Hash)
    requires w.Valid() && x in w.t.nodes && x != w.root && w.t.Anc(x, w.root)
    ensures w.t.Children(x) != [] && LeanAt(w.t, w.labels, x, w.root, w.slack)
  {
  }

  /** Every ancestor of the root off the current level stays, or becomes, lean. */
  lemma ChainLeanStep(w: Plan, iv: Labels, iv': Labels, q: Hash, at: nat, offset: nat, skip: Hash)
    requires w.Valid() && iv.Keys == w.t.nodes.Keys && iv'.Keys == w.t.nodes.Keys
    requires OnPath(w.t, w.c0, q, w.root) && q != w.t.origin && IsAt(w.t, w.t.Parent(q), at, q)
    requires LeanChain(w.t, iv, w.root, w.slack, skip) && (skip == NONE || skip == q)
    requires q != w.root ==> && w.t.Children(q) != [] && HalfLean(w.t, w.side, iv, q, w.root, w.slack)
                             && Slack(w.t, w.side, iv, q) - offset <= w.slack
    requires Level(w.t, w.side, w.t.Parent(q), at, w.allocationBlock, offset, w.n, q == w.root, iv, iv')
    ensures LeanChain(w.t, iv', w.root, w.slack, w.t.Parent(q))
  {
    hide Level, LeanAt, HalfLean, Slack, Plan.Valid;
    PlanFacts(w);
    forall x | x in w.t.nodes && x != w.root && x != w.t.Parent(q) && w.t.Anc(x, w.root)
      ensures w.t.Children(x) != [] && LeanAt(w.t, iv', x, w.root, w.slack)
    {
      LevelLean(w.t, w.side, w.t.Parent(q), at, w.allocationBlock, offset, w.n, q == w.root, iv, iv', w.root, w.slack,
                x);
    }
  }

  lemma HalfOfLean(t: Tree, side: Side, iv: Labels, x: Hash, root: Hash, slack: nat)
    requires t.WF() && iv.Keys == t.nodes.Keys && x in t.nodes && root in t.nodes && t.Children(x) != []
    requires LeanAt(t, iv, x, root, slack)
    ensures HalfLean(t, side, iv, x, root, slack) && Slack(t, side, iv, x) <= slack
  {
  }

  /** The top level of the walk. */
  lemma FirstLevel(w: Plan, iv': Labels, at: nat, offset: nat)
    requires w.Valid() && iv'.Keys == w.t.nodes.Keys
    requires IsAt(w.t, w.t.Parent(w.top), at, w.top)
    requires offset == Owed(w.t, w.side, w.labels, w.c0, w.top, w.alloc, w.required)
    requires Level(w.t, w.side, w.t.Parent(w.top), at, w.allocationBlock, offset, w.n, w.top == w.root, w.labels, iv')
    ensures WalkedTo(w, iv', w.top)
  {
    hide Level, LeanAt, HalfLean, Slack;
    var p := w.t.Parent(w.top);
    TopFacts(w);
    hide Plan.Valid;
    PlanLean(w, p);
    if w.top != w.root {
      PlanLean(w, w.top);
      HalfOfLean(w.t, w.side, w.labels, w.top, w.root, w.slack);
    }
    ChainLeanStep(w, w.labels, iv', w.top, at, offset, NONE);
    LevelOutcome(w, w.labels, iv', w.top, at, offset, w.top == w.root);
    LevelGood(w.t, w.side, p, at, w.allocationBlock, offset, w.n, w.top == w.root, w.labels, iv');
    NotBothWays(w.t, w.top);
  }

  lemma NotBothWays(t: Tree, a: Hash)
    requires t.WF() && a in t.nodes
    ensures forall x :: x in t.nodes && x != a && t.Anc(a, x) ==> !t.Anc(x, a)
  {
    hide Tree.WF;
    forall x | x in t.nodes && x != a && t.Anc(a, x) ensures !t.Anc(x, a) {
      if t.Anc(x, a) { AncAntisym(t, x, a); }
    }
  }

  lemma TopFacts(w: Plan)
    requires w.Valid()
    ensures w.t.WF() && w.labels.Keys == w.t.nodes.Keys && w.root in w.t.nodes && OnPath(w.t, w.c0, w.top, w.root)
    ensures w.top != w.t.origin && w.t.Parent(w.top) != w.root && w.t.Anc(w.t.Parent(w.top), w.root)
    ensures w.t.Anc(w.top, w.top) && LeanChain(w.t, w.labels, w.root, w.slack, NONE)
  {
    AncHeight(w.t, w.c0, w.top);
    AncHeight(w.t, w.top, w.root);
    AncTrans(w.t, w.t.Parent(w.top), w.top, w.root);
  }

  lemma OwedPositive(w: Plan, q: Hash)
    requires w.Valid() && OnPath(w.t, w.c0, q, w.root) && w.t.Anc(q, w.top)
    ensures Owed(w.t, w.side, w.labels, w.c0, q, w.alloc, w.required) > 0
  {
    hide LeanChain, Plan.BesideChosen, Good, Slack, Times;
    SlackSumGrows(w.t, w.side, w.labels, w.n, w.c0, q, w.top);
    PlanFacts(w);
    hide Plan.Valid;
    AncHeight(w.t, w.c0, q);
    TimesNonnegative(w.alloc, w.t.Height(q) - w.t.Height(w.c0));
  }

  /** The amount the next level down has to free is what it can free. */
  lemma NextOwed(w: Plan, iv: Labels, cur: Hash, q: Hash)
    requires w.Valid() && WalkedTo(w, iv, cur) && cur != w.c0 && q == w.t.Parent(cur)
    ensures OnPath(w.t, w.c0, q, w.root) && q != w.root && q != w.t.origin && w.t.Children(q) != [] && w.t.Anc(q, w.top)
    ensures Good(w.t, iv, w.n) && iv.Keys == w.t.nodes.Keys
    ensures Slack(w.t, w.side, iv, q) - w.alloc == Owed(w.t, w.side, w.labels, w.c0, q, w.alloc, w.required) > 0
    ensures HalfLean(w.t, w.side, iv, q, w.root, w.slack)
  {
    hide LeanChain, Plan.Valid, Good, Slack, Times, HalfLean, Owed;
    PlanFacts(w);
    PathParent(w.t, w.c0, cur, w.root);
    OwedStep(w.t, w.side, w.labels, w.c0, cur, w.alloc, w.required);
    AncHeight(w.t, w.c0, q);
    assert w.t.Anc(q, cur);
    AncTrans(w.t, q, cur, w.top);
    OwedPositive(w, q);
  }

  lemma TimesNonnegative(a: int, b: int)
    requires a >= 0 && b >= 0
    ensures Times(a, b) >= 0
  {
  }

  /** Blocks below the current level keep the slack they were left with. */
  lemma SlacksKept(w: Plan, iv: Labels, iv': Labels, cur: Hash, q: Hash)
    requires w.Valid() && WalkedTo(w, iv, cur) && cur != w.c0 && iv'.Keys == w.t.nodes.Keys
    requires q == w.t.Parent(cur) && q in w.t.nodes && w.t.Children(q) != [] && w.t.Anc(q, w.top)
    requires BelowSame(w.t, q, false, iv, iv') && Slack(w.t, w.side, iv', q) == w.alloc
    ensures forall x :: x in w.t.nodes && x != w.top && w.t.Anc(q, x) && w.t.Anc(x, w.top) ==>
              w.t.Children(x) != [] && Slack(w.t, w.side, iv', x) == w.alloc
  {
    hide Plan.Valid, LeanChain, Slack, Good, Pending, OutsideSame;
    PlanFacts(w);
    forall x | x in w.t.nodes && x != w.top && w.t.Anc(q, x) && w.t.Anc(x, w.top)
      ensures w.t.Children(x) != [] && Slack(w.t, w.side, iv', x) == w.alloc
    {
      if x != q {
        AncHeight(w.t, q, x);
        AncChain(w.t, cur, x, w.top);
        BelowKept(w.t, q, iv, iv', x);
        SlackKept(w.t, w.side, iv, iv', x);
      }
    }
  }

  /** Any other level of the walk. */
  lemma NextLevel(w: Plan, iv: Labels, iv': Labels, cur: Hash, q: Hash, at: nat, offset: nat)
    requires w.Valid() && WalkedTo(w, iv, cur) && cur != w.c0 && iv'.Keys == w.t.nodes.Keys
    requires q == w.t.Parent(cur) && q in w.t.nodes && q != w.t.origin && IsAt(w.t, w.t.Parent(q), at, q)
    requires w.t.Anc(w.c0, q) && offset == Owed(w.t, w.side, w.labels, w.c0, q, w.alloc, w.required)
    requires Level(w.t, w.side, w.t.Parent(q), at, w.allocationBlock, offset, w.n, false, iv, iv')
    ensures WalkedTo(w, iv', q)
  {
    hide Level, LeanAt, HalfLean, Plan.Valid, Good, Slack, LeanChain, Pending, Allocated, Owed, OutsideSame;
    PlanFacts(w);
    NextOwed(w, iv, cur, q);
    NextAbove(w, iv, cur, q);
    AllocBound(w);
    var p := w.t.Parent(q);
    ChainLeanStep(w, iv, iv', q, at, offset, q);
    LevelOutcome(w, iv, iv', q, at, offset, false);
    LevelGood(w.t, w.side, p, at, w.allocationBlock, offset, w.n, false, iv, iv');
    LevelSlack(w.t, w.side, p, at, w.allocationBlock, offset, w.n, false, iv, iv');
    SlacksKept(w, iv, iv', cur, q);
    OutsideJoin(w.t, p, q, w.labels, iv, iv');
  }

  lemma AllocBound(w: Plan)
    requires w.Valid()
    ensures w.alloc <= w.slack
  {
  }

  lemma OutsideJoin(t: Tree, p: Hash, q: Hash, iv0: Labels, iv: Labels, iv': Labels)
    requires t.WF() && iv0.Keys == t.nodes.Keys && iv.Keys == t.nodes.Keys && iv'.Keys == t.nodes.Keys
    requires q in t.nodes && q != t.origin && p == t.Parent(q)
    requires OutsideSame(t, q, iv0, iv) && OutsideSame(t, p, iv, iv')
    ensures OutsideSame(t, p, iv0, iv')
  {
    forall x | x in t.nodes && !(x != p && t.Anc(p, x)) ensures iv'[x] == iv0[x] {
      if t.Anc(q, x) {
        assert t.Anc(p, q);
        AncTrans(t, p, q, x);
        AncHeight(t, q, x);
      }
    }
  }

  /** Above the current level nothing has changed yet. */
  lemma NextAbove(w: Plan, iv: Labels, cur: Hash, q: Hash)
    requires w.Valid() && WalkedTo(w, iv, cur) && cur != w.c0
    requires q == w.t.Parent(cur) && q in w.t.nodes && q != w.t.origin && OnPath(w.t, w.c0, q, w.root)
    ensures w.t.WF() && w.labels.Keys == w.t.nodes.Keys && w.t.Anc(q, w.top)
    ensures w.t.Parent(q) != w.root && w.t.Children(w.t.Parent(q)) != []
    ensures LeanAt(w.t, iv, w.t.Parent(q), w.root, w.slack)
    ensures Slack(w.t, w.side, iv, w.t.Parent(q)) == Slack(w.t, w.side, w.labels, w.t.Parent(q))
    ensures q == w.c0 ==> iv[w.allocationBlock] == w.labels[w.allocationBlock]
  {
    var p := w.t.Parent(q);
    assert w.t.Anc(q, cur);
    AncTrans(w.t, q, cur, w.top);
    AncHeight(w.t, q, w.root);
    assert w.t.Anc(p, q);
    AncTrans(w.t, p, q, w.root);
    AboveSame(w.t, q, w.labels, iv, p);
    PlanLean(w, p);
    SlackKept(w.t, w.side, w.labels, iv, p);
    LeanKept(w.t, w.labels, iv, p, w.root, w.slack);
    if q == w.c0 {
      var at :| IsAt(w.t, p, at, w.c0) && w.allocationBlock in Beside(w.t, w.side, p, at);
      var j := BesideIndex(w.t, w.side, p, at, w.allocationBlock);
    }
  }

  /** What a reclaim demands: the allocation block beside the chosen child of their common
      parent, and a root with room for the request and for new slack along the chain. */
  ghost predicate ReclaimReady(t: Tree, side: Side, iv: Labels, n: Hash, allocationBlock: Hash, c0: Hash, root: Hash,
                               required: nat, slack: nat)
  {
    && Good(t, iv, n) && root in t.nodes && OnPath(t, c0, c0, root)
    && LeanChain(t, iv, root, slack, NONE)
    && Plan(t, side, iv, n, allocationBlock, c0, c0, root, 0, required, slack).BesideChosen()
    && t.SubtreeSize(root) + required + Times(slack, t.Height(root) - t.Height(c0)) <= Size(iv[root])
  }

  lemma ReadyFacts(t: Tree, side: Side, iv: Labels, n: Hash, allocationBlock: Hash, c0: Hash, root: Hash,
                   required: nat, slack: nat)
    requires ReclaimReady(t, side, iv, n, allocationBlock, c0, root, required, slack)
    ensures Good(t, iv, n) && t.WF() && iv.Keys == t.nodes.Keys && root in t.nodes && OnPath(t, c0, c0, root)
    ensures required > 0 && root != n && !IsEmpty(iv[root])
    ensures t.SubtreeSize(root) + required + Times(slack, t.Height(root) - t.Height(c0)) <= Size(iv[root])
  {
    SubtreePositive(t, allocationBlock);
    var w := Plan(t, side, iv, n, allocationBlock, c0, c0, root, 0, required, slack);
    var p := t.Parent(c0);
    var at :| IsAt(t, p, at, c0) && allocationBlock in Beside(t, side, p, at);
    if n == root {
      var j := BesideIndex(t, side, p, at, allocationBlock);
      ChildUnique(t, p, at, j, n);
    }
  }

  /** Stopping at `top`, below the root, with enough slack collected. */
  lemma PlanAt(t: Tree, side: Side, iv: Labels, n: Hash, allocationBlock: Hash, c0: Hash, top: Hash, root: Hash,
               required: nat, slack: nat)
    requires ReclaimReady(t, side, iv, n, allocationBlock, c0, root, required, slack)
    requires OnPath(t, c0, top, root) && SlackSum(t, side, iv, c0, top) < required
    requires top != root ==>
               t.Children(top) != [] && required <= SlackSum(t, side, iv, c0, top) + Slack(t, side, iv, top)
    ensures Plan(t, side, iv, n, allocationBlock, c0, top, root, if top == root then slack else 0, required,
                 slack).Valid()
  {
    ReadyFacts(t, side, iv, n, allocationBlock, c0, root, required, slack);
    hide Times, Slack, SlackSum, Good, LeanChain;
    TimesZero(t.Height(top) - t.Height(c0));
    var w := Plan(t, side, iv, n, allocationBlock, c0, top, root, if top == root then slack else 0, required, slack);
    var w0 := Plan(t, side, iv, n, allocationBlock, c0, c0, root, 0, required, slack);
    assert w0.BesideChosen() && w.BesideChosen();
  }

  lemma TimesIs(a: int, b: int)
    ensures Times(a, b) == a * b
  {
  }

  lemma TimesZero(h: int)
    ensures Times(0, h) == 0
  {
  }

  /** A chain block below the root has its next chain block among its children. */
  lemma PathNext(t: Tree, iv: Labels, n: Hash, c0: Hash, x: Hash, root: Hash)
    requires Good(t, iv, n) && root in t.nodes && OnPath(t, c0, x, root) && x != root
    requires n in t.nodes ==> t.Children(n) == [] && !t.Anc(c0, n)
    ensures t.Children(x) != [] && x != n && InOrder(t, iv, x) && !IsEmpty(iv[x])
    ensures forall y :: y in t.nodes ==> Placed(t, iv, y)
  {
    var i := ChildToward(t, x, root);
    forall k | 0 <= k < |t.Children(x)| ensures !IsEmpty(iv[t.Children(x)[k]]) {
      ChildDesc(t, x, k);
      assert t.Anc(x, t.Children(x)[k]);
      if t.Children(x)[k] == n { AncTrans(t, c0, x, n); }
    }
  }

  /** What a reclaim achieves: a good labelling, `required` more labels for the allocation
      block, a chain as lean as before, and `alloc` unused labels at every block walked down. */
  ghost predicate Reclaimed(w: Plan, iv: Labels)
    requires w.Valid()
  {
    && iv.Keys == w.t.nodes.Keys && Good(w.t, iv, NONE)
    && LeanChain(w.t, iv, w.root, w.slack, NONE)
    && OutsideSame(w.t, w.t.Parent(w.c0), w.labels, iv)
    && Size(iv[w.allocationBlock]) == Size(w.labels[w.allocationBlock]) + w.required
    && (forall x :: x in w.t.nodes && x != w.top && w.t.Anc(w.c0, x) && w.t.Anc(x, w.top) ==>
          w.t.Children(x) != [] && Slack(w.t, w.side, iv, x) == w.alloc)
  }

  lemma WalkReclaimed(w: Plan, iv: Labels)
    requires w.Valid() && WalkedTo(w, iv, w.c0)
    ensures Reclaimed(w, iv)
  {
    hide Plan.Valid, Good, Slack, OutsideSame, LeanAt;
    PlanFacts(w);
  }

  lemma OriginKept(t: Tree, p: Hash, iv: Labels, iv': Labels)
    requires t.WF() && iv.Keys == t.nodes.Keys && iv'.Keys == t.nodes.Keys && p in t.nodes && OutsideSame(t, p, iv, iv')
    ensures iv'[t.origin] == iv[t.origin]
  {
  }

  lemma ReclaimedOrigin(w: Plan, iv: Labels)
    requires w.Valid() && Reclaimed(w, iv)
    ensures w.t.origin in iv && w.t.origin in w.labels && iv[w.t.origin] == w.labels[w.t.origin]
  {
    hide Good, Slack, LeanChain;
    assert w.t.WF() && w.labels.Keys == w.t.nodes.Keys by { PlanFacts(w); }
    OriginKept(w.t, w.t.Parent(w.c0), w.labels, iv);
  }

  lemma ChainChild(t: Tree, x: Hash) returns (at: nat)
    requires t.WF() && x in t.nodes && x != t.origin
    ensures IsAt(t, t.Parent(x), at, x)
  {
    at :| 0 <= at < |t.Children(t.Parent(x))| && t.Children(t.Parent(x))[at] == x;
  }

  /** All that the top level of the walk needs. */
  lemma TopLevelReady(w: Plan, at: nat, offset: nat)
    requires w.Valid() && w.top != w.t.origin && IsAt(w.t, w.t.Parent(w.top), at, w.top)
    requires offset == Owed(w.t, w.side, w.labels, w.c0, w.top, w.alloc, w.required)
    ensures Good(w.t, w.labels, w.n) && OnPath(w.t, w.c0, w.top, w.root)
    ensures !(w.n in w.t.nodes && w.t.Anc(w.top, w.n))
    ensures MovableBeside(w.t, w.side, w.labels, w.t.Parent(w.top), at, w.allocationBlock, offset, w.n)
    ensures w.top != w.root ==> w.t.Children(w.top) != [] && offset <= Slack(w.t, w.side, w.labels, w.top)
  {
    PlanFacts(w);
    ChainFree(w, w.top);
    LevelMovable(w, w.labels, w.top, at, offset);
  }

  /** All that any further level of the walk needs. */
  lemma NextLevelReady(w: Plan, iv: Labels, cur: Hash, q: Hash, at: nat, offset: nat)
    requires w.Valid() && WalkedTo(w, iv, cur) && cur != w.c0 && q == w.t.Parent(cur)
    requires q in w.t.nodes && q != w.t.origin && IsAt(w.t, w.t.Parent(q), at, q)
    requires w.t.Anc(w.c0, q) && offset == Owed(w.t, w.side, w.labels, w.c0, q, w.alloc, w.required)
    ensures Good(w.t, iv, w.n) && !(w.n in w.t.nodes && w.t.Anc(q, w.n))
    ensures MovableBeside(w.t, w.side, iv, w.t.Parent(q), at, w.allocationBlock, offset, w.n)
    ensures w.t.Children(q) != [] && offset <= Slack(w.t, w.side, iv, q)
  {
    hide Plan.Valid, WalkedTo, Slack, Good;
    PlanFacts(w);
    NextOwed(w, iv, cur, q);
    ChainFree(w, q);
    LevelMovable(w, iv, q, at, offset);
  }

  lemma WalkedFacts(w: Plan, iv: Labels, cur: Hash)
    requires w.Valid() && WalkedTo(w, iv, cur)
    ensures w.t.WF() && iv.Keys == w.t.nodes.Keys && cur in w.t.nodes && cur != w.t.origin
    ensures w.c0 in w.t.nodes && w.c0 != w.t.origin && w.t.Anc(w.c0, cur)
    ensures w.t.Parent(cur) == w.t.Parent(w.c0) <==> cur == w.c0
  {
    if cur != w.c0 {
      AncHeight(w.t, w.c0, cur);
    }
  }

  lemma AllocIs(w: Plan)
    requires w.Valid()
    ensures w.alloc == if w.top == w.root then w.slack else 0
  {
  }

  /** The remaining interval of a chain block is its slack. */
  lemma RemainingIs(w: Plan, iv: Labels, x: Hash)
    requires w.Valid() && Good(w.t, iv, w.n) && OnPath(w.t, w.c0, x, w.root) && w.t.Children(x) != []
    ensures !IsEmpty(iv[x]) && StrictlyContains(iv[x], iv[w.t.Children(x)[0]])
    ensures StrictlyContains(iv[x], iv[w.t.Children(x)[|w.t.Children(x)| - 1]])
    ensures Slack(w.t, w.side, iv, x)
            == if w.side.Front? then Size(RemainingBefore(w.t, iv, x)) else Size(RemainingAfter(w.t, iv, x))
  {
    hide Plan.Valid;
    PlanFacts(w);
    ChainFree(w, x);
    assert w.t.Anc(x, x);
    assert Placed(w.t, iv, x);
  }

  // ----- a new block without an interval -----

  /** `n` was just appended as the last child of its parent and has no interval yet. */
  ghost predicate Newcomer(t: Tree, iv: Labels, n: Hash, root: Hash, slack: nat) {
    && Good(t, iv, n) && n in t.nodes && n != t.origin && t.Children(n) == [] && IsEmpty(iv[n])
    && t.Children(t.Parent(n)) != [] && t.Children(t.Parent(n))[|t.Children(t.Parent(n))| - 1] == n
    && root in t.nodes && root != n && LeanChain(t, iv, root, slack, NONE)
  }

  /** The root has room for every block and for new slack along its chain. */
  ghost predicate RootRoom(t: Tree, iv: Labels, root: Hash, slack: nat)
    requires t.WF() && root in t.nodes && root in iv
  {
    |t.nodes| + Times(slack, t.Height(root)) <= Size(iv[root])
  }

  lemma DisjointSizes(t: Tree, a: Hash, b: Hash)
    requires t.WF() && a in t.nodes && b in t.nodes && !t.Anc(a, b) && !t.Anc(b, a)
    ensures t.SubtreeSize(a) + t.SubtreeSize(b) <= |t.nodes|
  {
    var da, db := t.Desc(a), t.Desc(b);
    forall x | x in da ensures x !in db {
      if x in db { AncChain(t, a, b, x); }
    }
    assert da !! db;
    assert |da + db| == |da| + |db|;
    SubsetSize(da + db, t.nodes.Keys);
  }

  lemma SubtreeBound(t: Tree, a: Hash)
    requires t.WF()
    ensures t.SubtreeSize(a) <= |t.nodes|
  {
    SubsetSize(t.Desc(a), t.nodes.Keys);
  }

  lemma TimesMonotone(a: int, b: int, c: int)
    requires a >= 0 && b <= c
    ensures Times(a, b) <= Times(a, c)
  {
  }

  lemma EarlierRoom(t: Tree, iv: Labels, a: Hash, c0: Hash, root: Hash, slack: nat)
    requires t.WF() && a in t.nodes && root in t.nodes && root in iv && RootRoom(t, iv, root, slack)
    requires c0 in t.nodes && t.Anc(c0, root) && !t.Anc(c0, a) && !t.Anc(a, root)
    ensures t.SubtreeSize(root) + t.SubtreeSize(a) + Times(slack, t.Height(root) - t.Height(c0)) <= Size(iv[root])
  {
    hide Times, Tree.SubtreeSize, Size;
    if t.Anc(root, a) { AncTrans(t, c0, root, a); }
    DisjointSizes(t, a, root);
    TimesMonotone(slack, t.Height(root) - t.Height(c0), t.Height(root));
  }

  lemma EarlierBeside(t: Tree, side: Side, p: Hash, at: nat, j: nat)
    requires t.WF() && p in t.nodes && at < |t.Children(p)| && j < |t.Children(p)| && j != at
    requires side.Front? <==> j < at
    ensures t.Children(p)[j] in Beside(t, side, p, at)
  {
    if side.Front? {
      assert t.Children(p)[..at][j] == t.Children(p)[j];
    } else {
      assert t.Children(p)[at + 1..][j - at - 1] == t.Children(p)[j];
    }
  }

  /** The situation in which slack along the chain is used: `a` holds the newcomer, its parent
      is a strict ancestor of the root, and `c0` is the child on the way to the root. */
  lemma EarlierFacts(t: Tree, side: Side, iv: Labels, n: Hash, a: Hash, c0: Hash, root: Hash, slack: nat, at: nat,
                     j: nat)
    requires Newcomer(t, iv, n, root, slack) && RootRoom(t, iv, root, slack)
    requires a in t.nodes && a != t.origin && t.Anc(a, n) && !t.Anc(a, root) && Size(iv[a]) < t.SubtreeSize(a)
    requires c0 in t.nodes && c0 != t.origin && t.Parent(c0) == t.Parent(a) && t.Anc(c0, root)
    requires IsAt(t, t.Parent(a), at, c0) && IsAt(t, t.Parent(a), j, a)
    requires side.Front? <==> j < at
    ensures !t.Anc(c0, n) && t.Anc(c0, c0) && a in Beside(t, side, t.Parent(c0), at) && root in iv
    ensures t.SubtreeSize(root) + t.SubtreeSize(a) + Times(slack, t.Height(root) - t.Height(c0)) <= Size(iv[root])
  {
    assert Good(t, iv, n) && t.WF() && iv.Keys == t.nodes.Keys;
    hide LeanChain, Good, RootRoom, Beside, Tree.SubtreeSize, Times;
    var p := t.Parent(a);
    ChildUnrelated(t, p, at, j);
    if t.Anc(c0, n) { ChildUnique(t, p, at, j, n); }
    EarlierBeside(t, side, p, at, j);
    assert !t.Anc(c0, a) && root in iv && t.Anc(c0, c0);
    EarlierRoom(t, iv, a, c0, root, slack);
    assert IsAt(t, t.Parent(c0), at, c0) && a in Beside(t, side, t.Parent(c0), at);
  }

  lemma EarlierReady(t: Tree, side: Side, iv: Labels, n: Hash, a: Hash, c0: Hash, root: Hash, slack: nat, at: nat,
                     j: nat)
    requires Newcomer(t, iv, n, root, slack) && RootRoom(t, iv, root, slack)
    requires a in t.nodes && a != t.origin && t.Anc(a, n) && !t.Anc(a, root) && Size(iv[a]) < t.SubtreeSize(a)
    requires c0 in t.nodes && c0 != t.origin && t.Parent(c0) == t.Parent(a) && t.Anc(c0, root)
    requires IsAt(t, t.Parent(a), at, c0) && IsAt(t, t.Parent(a), j, a)
    requires side.Front? <==> j < at
    ensures ReclaimReady(t, side, iv, n, a, c0, root, t.SubtreeSize(a), slack)
    ensures !t.Anc(c0, n)
  {
    EarlierFacts(t, side, iv, n, a, c0, root, slack, at, j);
    assert IsAt(t, t.Parent(c0), at, c0);
  }

  /** The sibling on the way to the root is found; the newcomer's side is told by the starts. */
  lemma EarlierSide(t: Tree, iv: Labels, n: Hash, a: Hash, c0: Hash, root: Hash, slack: nat, at: nat, j: nat)
    requires Newcomer(t, iv, n, root, slack)
    requires a in t.nodes && a != t.origin && t.Anc(a, n)
    requires c0 in t.nodes && c0 != t.origin && t.Parent(c0) == t.Parent(a) && c0 != a
    requires IsAt(t, t.Parent(a), at, c0) && IsAt(t, t.Parent(a), j, a)
    ensures iv[a].start < iv[c0].start <==> j < at
  {
    var p := t.Parent(a);
    assert Placed(t, iv, p);
    if j < at {
      SiblingsOrdered(t, iv, p, j, at);
    } else {
      SiblingsOrdered(t, iv, p, at, j);
    }
  }

  lemma NewcomerInOrder(t: Tree, iv: Labels, n: Hash, root: Hash, slack: nat, p: Hash)
    requires Newcomer(t, iv, n, root, slack) && p in t.nodes
    ensures InOrder(t, iv, p) && !IsEmpty(iv[root])
    ensures forall y :: y in t.nodes ==> Placed(t, iv, y)
  {
    assert Placed(t, iv, p);
    forall k | 0 <= k < |t.Children(p)| - 1 ensures !IsEmpty(iv[t.Children(p)[k]]) {
      if t.Children(p)[k] == n {
        ChildIndexUnique(t, p, k, |t.Children(p)| - 1);
      }
    }
  }

  /** Laying out the subtree of a block which holds the newcomer and is not above the root
      settles everything. */
  lemma PropagateSettles(t: Tree, iv: Labels, iv': Labels, n: Hash, root: Hash, slack: nat, c: Hash)
    requires Newcomer(t, iv, n, root, slack) && iv'.Keys == t.nodes.Keys
    requires c in t.nodes && t.Anc(c, n) && !(c != root && t.Anc(c, root))
    requires OutsideSame(t, c, iv, iv') && SubtreeGood(t, iv', c)
    ensures Good(t, iv', NONE) && LeanChain(t, iv', root, slack, NONE)
  {
    hide LeanAt, Placed;
    forall x | x in t.nodes ensures Placed(t, iv', x) && !IsEmpty(iv'[x]) {
      if !t.Anc(c, x) {
        KeptOutside(t, c, iv, iv', x);
        SameChildrenPlaced(t, iv, iv', x);
      }
    }
    forall x | x in t.nodes && x != root && t.Anc(x, root)
      ensures t.Children(x) != [] && LeanAt(t, iv', x, root, slack) {
      if t.Anc(c, x) {
        AncTrans(t, c, x, root);
        AncAntisym(t, x, root);
      }
      KeptOutside(t, c, iv, iv', x);
      LeanKept(t, iv, iv', x, root, slack);
    }
  }

  lemma KeptOutside(t: Tree, c: Hash, iv: Labels, iv': Labels, x: Hash)
    requires t.WF() && iv.Keys == t.nodes.Keys && iv'.Keys == t.nodes.Keys && c in t.nodes && x in t.nodes
    requires OutsideSame(t, c, iv, iv') && !t.Anc(c, x)
    ensures iv'[x] == iv[x] && forall k :: 0 <= k < |t.Children(x)| ==> iv'[t.Children(x)[k]] == iv[t.Children(x)[k]]
  {
    forall k | 0 <= k < |t.Children(x)| ensures iv'[t.Children(x)[k]] == iv[t.Children(x)[k]] {
      ChildDesc(t, x, k);
    }
  }

  lemma NewcomerFacts(t: Tree, iv: Labels, n: Hash, root: Hash, slack: nat)
    requires Newcomer(t, iv, n, root, slack)
    ensures root in t.nodes && root != n && n in t.nodes && n != t.origin && t.Children(n) == [] && !t.Anc(n, root)
    ensures Good(t, iv, n)
  {
    if t.Anc(n, root) { var i := ChildToward(t, n, root); }
  }

  lemma RoomAtRoot(t: Tree, iv: Labels, n: Hash, root: Hash, slack: nat)
    requires Newcomer(t, iv, n, root, slack) && RootRoom(t, iv, root, slack)
    ensures t.SubtreeSize(root) <= Size(iv[root])
  {
    SubtreeBound(t, root);
    TimesNonnegative(slack, t.Height(root));
  }

  /** A parent that has the newcomer below it is no newcomer; containment tells its ancestry. */
  lemma ParentKnown(t: Tree, iv: Labels, n: Hash, root: Hash, slack: nat, c: Hash)
    requires Newcomer(t, iv, n, root, slack) && c in t.nodes && c != t.origin
    ensures StrictlyContains(iv[t.Parent(c)], iv[root]) <==> t.Anc(t.Parent(c), root) && t.Parent(c) != root
  {
    assert t.Children(t.Parent(c)) != [];
    ContainmentIsAncestry(t, iv, n, t.Parent(c), root);
  }

  lemma CachedSize(t: Tree, sizes: map<Hash, nat>, c: Hash)
    requires t.WF() && SizesOk(t, sizes) && c in sizes
    ensures sizes[c] == t.SubtreeSize(c)
  {
  }
}
