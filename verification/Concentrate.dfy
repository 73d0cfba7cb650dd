/** Moving the reindex root down a chain: the siblings of the chain are laid out tightly and
    the chain blocks get all the labels that are left. */
module Concentration {
  import opened Hashes
  import opened Intervals
  import opened ReachabilityTree
  import opened Gaps
  import opened Levels
  import opened ReclaimWalk
  import opened Capacity
  import opened DescendantSearch

  /** The children `lo..hi` of `p` fill `i` exactly, each with just its subtree size. */
  ghost predicate Tight(t: Tree, iv: Labels, p: Hash, lo: nat, hi: nat, i: Interval)
    requires t.WF() && iv.Keys == t.nodes.Keys && p in t.nodes && lo <= hi <= |t.Children(p)|
  {
    var cs := t.Children(p);
    && (forall k :: lo <= k < hi ==> TightChild(t, iv, cs[k], i))
    && (lo < hi ==> iv[cs[lo]].start == i.start && iv[cs[hi - 1]].end == i.end)
    && (forall k, m :: lo <= k && m == k + 1 && m < hi ==> Adjacent(t, iv, p, k, m))
  }

  ghost predicate TightChild(t: Tree, iv: Labels, c: Hash, i: Interval)
    requires t.WF() && iv.Keys == t.nodes.Keys
  {
    c in t.nodes && SubtreeGood(t, iv, c) && Size(iv[c]) == t.SubtreeSize(c) && Contains(i, iv[c])
  }

  /** The first `m` of the children `lo..` have their part, and the subtree is laid out in it. */
  ghost predicate PartsSet(t: Tree, iv: Labels, p: Hash, lo: nat, m: nat, parts: seq<Interval>)
    requires t.WF() && iv.Keys == t.nodes.Keys && p in t.nodes && lo + m <= |t.Children(p)| && m <= |parts|
  {
    forall k :: lo <= k < lo + m ==> SubtreeGood(t, iv, t.Children(p)[k]) && iv[t.Children(p)[k]] == parts[k - lo]
  }

  /** Laying out one child leaves the subtrees of its siblings alone. */
  lemma SiblingGood(t: Tree, p: Hash, k: nat, m: nat, iv: Labels, iv': Labels)
    requires t.WF() && iv.Keys == t.nodes.Keys && iv'.Keys == t.nodes.Keys && p in t.nodes
    requires k < |t.Children(p)| && m < |t.Children(p)| && k != m
    requires SameOutside(t, t.Children(p)[k], iv, iv')
    ensures iv'[t.Children(p)[m]] == iv[t.Children(p)[m]]
    ensures SubtreeGood(t, iv, t.Children(p)[m]) ==> SubtreeGood(t, iv', t.Children(p)[m])
  {
    var c := t.Children(p)[m];
    SiblingsSame(t, p, k, iv, iv');
    if SubtreeGood(t, iv, c) {
      forall x | x in t.nodes && t.Anc(c, x) ensures Placed(t, iv', x) && !IsEmpty(iv'[x]) {
        if t.Anc(t.Children(p)[k], x) { ChildUnique(t, p, k, m, x); }
        forall j | 0 <= j < |t.Children(x)| ensures iv'[t.Children(x)[j]] == iv[t.Children(x)[j]] {
          var y := t.Children(x)[j];
          ChildDesc(t, x, j);
          assert t.Anc(x, y);
          AncTrans(t, c, x, y);
          if t.Anc(t.Children(p)[k], y) { ChildUnique(t, p, k, m, y); }
        }
        SameChildrenPlaced(t, iv, iv', x);
      }
    }
  }

  lemma PartsStep(t: Tree, p: Hash, lo: nat, m: nat, parts: seq<Interval>, iv: Labels, iv': Labels)
    requires t.WF() && iv.Keys == t.nodes.Keys && iv'.Keys == t.nodes.Keys && p in t.nodes
    requires lo + m < |t.Children(p)| && m < |parts|
    requires PartsSet(t, iv, p, lo, m, parts) && SameOutside(t, t.Children(p)[lo + m], iv, iv')
    requires SubtreeGood(t, iv', t.Children(p)[lo + m]) && iv'[t.Children(p)[lo + m]] == parts[m]
    ensures PartsSet(t, iv', p, lo, m + 1, parts)
  {
    hide SubtreeGood, SameOutside;
    forall k | lo <= k < lo + m
      ensures SubtreeGood(t, iv', t.Children(p)[k]) && iv'[t.Children(p)[k]] == parts[k - lo] {
      SiblingGood(t, p, lo + m, k, iv, iv');
    }
  }

  lemma PartsTight(t: Tree, iv: Labels, p: Hash, lo: nat, hi: nat, parts: seq<Interval>, i: Interval)
    requires t.WF() && iv.Keys == t.nodes.Keys && p in t.nodes && lo <= hi <= |t.Children(p)| && |parts| == hi - lo
    requires PartsSet(t, iv, p, lo, hi - lo, parts) && Tiles(i, parts)
    requires forall k :: 0 <= k < |parts| ==>
                           Contains(i, parts[k]) && Size(parts[k]) == t.SubtreeSize(t.Children(p)[lo + k])
    ensures Tight(t, iv, p, lo, hi, i)
  {
    hide SubtreeGood, Tree.SubtreeSize;
    var cs := t.Children(p);
    forall k | lo <= k < hi ensures TightChild(t, iv, cs[k], i) && iv[cs[k]] == parts[k - lo] {
      assert Contains(i, parts[k - lo]);
    }
    forall k, m | lo <= k && m == k + 1 && m < hi ensures Adjacent(t, iv, p, k, m) {
      assert parts[m - lo].start == parts[m - lo - 1].end + 1;
    }
  }

  /** A later change under other children keeps a tight run tight. */
  lemma TightKept(t: Tree, iv: Labels, iv': Labels, p: Hash, lo: nat, hi: nat, i: Interval, k: nat)
    requires t.WF() && iv.Keys == t.nodes.Keys && iv'.Keys == t.nodes.Keys && p in t.nodes
             && lo <= hi <= |t.Children(p)|
    requires k < |t.Children(p)| && !(lo <= k < hi) && SameOutside(t, t.Children(p)[k], iv, iv')
    requires Tight(t, iv, p, lo, hi, i)
    ensures Tight(t, iv', p, lo, hi, i)
  {
    hide SubtreeGood, SameOutside, Tree.SubtreeSize;
    var cs := t.Children(p);
    forall m | lo <= m < hi ensures iv'[cs[m]] == iv[cs[m]] && TightChild(t, iv', cs[m], i) {
      assert TightChild(t, iv, cs[m], i);
      SiblingGood(t, p, k, m, iv, iv');
    }
    forall m, n | lo <= m && n == m + 1 && n < hi ensures Adjacent(t, iv', p, m, n) {
      assert Adjacent(t, iv, p, m, n);
    }
  }

  /** Where the siblings before the chosen child go: right behind the front slack. */
  function BeforeSpan(i: Interval, slack: nat, sum: nat): Interval
    requires slack + sum <= Size(i)
  {
    Interval(i.start + slack, i.start + slack + sum - 1)
  }

  /** Where the siblings after the chosen child go: right in front of the back slack. */
  function AfterSpan(i: Interval, slack: nat, sum: nat): Interval
    requires slack + sum < Size(i)
  {
    Interval(i.end - slack - sum, i.end - slack - 1)
  }

  /** What is left for the chosen child. */
  function ChosenSpan(i: Interval, slack: nat, before: nat, after: nat): Interval
    requires before + after + 2 * slack < Size(i)
  {
    Interval(i.start + before + slack, i.end - after - slack - 1)
  }

  /** `iv'` is `iv` after the labels of `p` were concentrated on its `at`-th child. */
  ghost predicate Concentrated(t: Tree, iv: Labels, iv': Labels, p: Hash, at: nat, deep: bool, slack: nat)
    requires t.WF() && iv.Keys == t.nodes.Keys && iv'.Keys == t.nodes.Keys && p in t.nodes && at < |t.Children(p)|
  {
    var cs := t.Children(p);
    && OnlyUnder(t, p, 0, |cs|, iv, iv') && BelowSame(t, cs[at], deep, iv, iv')
    && Placed(t, iv', p) && SlackBefore(t, iv', p) == slack && SlackAfter(t, iv', p) == slack
    && (forall k :: 0 <= k < |cs| && k != at ==> SubtreeGood(t, iv', cs[k]) && Size(iv'[cs[k]]) == t.SubtreeSize(cs[k]))
    && Size(iv'[cs[at]]) + t.SubtreeSize(p) + 2 * slack == Size(iv[p]) + t.SubtreeSize(cs[at])
    && (deep ==> SubtreeGood(t, iv', cs[at]))
  }

  /** The siblings and the chosen child take exactly the room of `p`. */
  lemma SpansFit(t: Tree, p: Hash, at: nat)
    requires t.WF() && p in t.nodes && at < |t.Children(p)|
    ensures var cs := t.Children(p);
            t.SubtreeSize(p) == 1 + t.SumSizes(cs[..at]) + t.SubtreeSize(cs[at]) + t.SumSizes(cs[at + 1..])
    ensures t.SubtreeSize(t.Children(p)[at]) >= 1
  {
    SubtreeSizeRec(t, p);
    SumSplit(t, t.Children(p), at);
    SubtreePositive(t, t.Children(p)[at]);
  }

  lemma SpansPlaced(t: Tree, iv: Labels, p: Hash, at: nat, slack: nat, before: nat, after: nat)
    requires t.WF() && iv.Keys == t.nodes.Keys && p in t.nodes && at < |t.Children(p)|
    requires before + after + 2 * slack < Size(iv[p])
    requires Tight(t, iv, p, 0, at, BeforeSpan(iv[p], slack, before))
    requires Tight(t, iv, p, at + 1, |t.Children(p)|, AfterSpan(iv[p], slack, after))
    requires iv[t.Children(p)[at]] == ChosenSpan(iv[p], slack, before, after)
    requires at == 0 ==> before == 0
    requires at == |t.Children(p)| - 1 ==> after == 0
    ensures Placed(t, iv, p) && SlackBefore(t, iv, p) == slack && SlackAfter(t, iv, p) == slack
  {
    hide SubtreeGood, Tree.SubtreeSize;
    var cs := t.Children(p);
    forall k | 0 <= k < |cs| ensures StrictlyContains(iv[p], iv[cs[k]]) {
      if k < at {
        assert TightChild(t, iv, cs[k], BeforeSpan(iv[p], slack, before));
      } else if k > at {
        assert TightChild(t, iv, cs[k], AfterSpan(iv[p], slack, after));
      }
    }
    forall k, m | 0 <= k && m == k + 1 && m < |cs| ensures Adjacent(t, iv, p, k, m) {
    }
  }

  lemma TightSizes(t: Tree, iv: Labels, p: Hash, at: nat, i: Interval, j: Interval)
    requires t.WF() && iv.Keys == t.nodes.Keys && p in t.nodes && at < |t.Children(p)|
    requires Tight(t, iv, p, 0, at, i) && Tight(t, iv, p, at + 1, |t.Children(p)|, j)
    ensures forall k :: 0 <= k < |t.Children(p)| && k != at ==>
              SubtreeGood(t, iv, t.Children(p)[k]) && Size(iv[t.Children(p)[k]]) == t.SubtreeSize(t.Children(p)[k])
  {
    hide SubtreeGood, Tree.SubtreeSize;
    forall k | 0 <= k < |t.Children(p)| && k != at
      ensures SubtreeGood(t, iv, t.Children(p)[k]) && Size(iv[t.Children(p)[k]]) == t.SubtreeSize(t.Children(p)[k])
    {
      assert if k < at then TightChild(t, iv, t.Children(p)[k], i) else TightChild(t, iv, t.Children(p)[k], j);
    }
  }

  /** A subtree laid out in `i` is still laid out when its root gets an interval around `i`. */
  lemma GoodWidened(t: Tree, iv: Labels, c: Hash, i: Interval)
    requires t.WF() && iv.Keys == t.nodes.Keys && c in t.nodes && SubtreeGood(t, iv, c) && Contains(i, iv[c])
    ensures iv[c := i].Keys == t.nodes.Keys && SubtreeGood(t, iv[c := i], c)
  {
    var iv' := iv[c := i];
    forall x | x in t.nodes && t.Anc(c, x) ensures Placed(t, iv', x) && !IsEmpty(iv'[x]) {
      assert Placed(t, iv, x);
      forall k | 0 <= k < |t.Children(x)| ensures t.Children(x)[k] != c {
        ChildDesc(t, x, k);
        AncHeight(t, c, x);
      }
      if x != c {
        SameChildrenPlaced(t, iv, iv', x);
      } else {
        forall k, m | 0 <= k && m == k + 1 && m < |t.Children(c)| ensures Adjacent(t, iv', c, k, m) {
          assert Adjacent(t, iv, c, k, m);
        }
      }
    }
  }

  lemma NoParts(t: Tree, iv: Labels, p: Hash, lo: nat, parts: seq<Interval>)
    requires t.WF() && iv.Keys == t.nodes.Keys && p in t.nodes && lo <= |t.Children(p)|
    ensures PartsSet(t, iv, p, lo, 0, parts)
  {
  }

  lemma SameSelf(t: Tree, c: Hash, iv: Labels)
    requires t.WF() && iv.Keys == t.nodes.Keys
    ensures SameOutside(t, c, iv, iv)
  {
  }

  lemma SameWidened(t: Tree, c: Hash, i: Interval, iv: Labels, iv': Labels)
    requires t.WF() && iv.Keys == t.nodes.Keys && iv'.Keys == t.nodes.Keys && c in t.nodes
    requires SameOutside(t, c, iv, iv')
    ensures iv'[c := i].Keys == t.nodes.Keys && SameOutside(t, c, iv, iv'[c := i])
  {
  }

  lemma ParentSame(t: Tree, p: Hash, lo: nat, hi: nat, iv: Labels, iv': Labels)
    requires t.WF() && iv.Keys == t.nodes.Keys && iv'.Keys == t.nodes.Keys
    requires p in t.nodes && hi <= |t.Children(p)| && OnlyUnder(t, p, lo, hi, iv, iv')
    ensures iv'[p] == iv[p]
  {
    OnlyUnderSame(t, p, lo, hi, iv, iv', p);
  }

  /** A subtree none of whose labels changed is still laid out. */
  lemma UntouchedGood(t: Tree, p: Hash, lo: nat, hi: nat, iv: Labels, iv': Labels, k: nat)
    requires t.WF() && iv.Keys == t.nodes.Keys && iv'.Keys == t.nodes.Keys
    requires p in t.nodes && hi <= |t.Children(p)| && OnlyUnder(t, p, lo, hi, iv, iv')
    requires k < |t.Children(p)| && !(lo <= k < hi)
    ensures forall x :: x in t.nodes && t.Anc(t.Children(p)[k], x) ==> iv'[x] == iv[x]
    ensures SubtreeGood(t, iv, t.Children(p)[k]) ==> SubtreeGood(t, iv', t.Children(p)[k])
  {
    var c := t.Children(p)[k];
    hide Tree.WF, OnlyUnder;
    forall x | x in t.nodes && t.Anc(c, x) ensures iv'[x] == iv[x] {
      OnlyUnderSame(t, p, lo, hi, iv, iv', x);
    }
    if SubtreeGood(t, iv, c) {
      forall x | x in t.nodes && t.Anc(c, x) ensures Placed(t, iv', x) && !IsEmpty(iv'[x]) {
        forall j | 0 <= j < |t.Children(x)| ensures iv'[t.Children(x)[j]] == iv[t.Children(x)[j]] {
          ChildDesc(t, x, j);
          assert t.Anc(x, t.Children(x)[j]);
          AncTrans(t, c, x, t.Children(x)[j]);
        }
        SameChildrenPlaced(t, iv, iv', x);
      }
    }
  }

  /** Packing the siblings behind the chosen child keeps those in front of it packed. */
  lemma TightStays(t: Tree, iv: Labels, iv': Labels, p: Hash, at: nat, i: Interval)
    requires t.WF() && iv.Keys == t.nodes.Keys && iv'.Keys == t.nodes.Keys && p in t.nodes && at < |t.Children(p)|
    requires OnlyUnder(t, p, at + 1, |t.Children(p)|, iv, iv') && Tight(t, iv, p, 0, at, i)
    ensures Tight(t, iv', p, 0, at, i)
  {
    hide SubtreeGood, Tree.SubtreeSize, OnlyUnder, Tree.WF;
    var cs := t.Children(p);
    forall m | 0 <= m < at ensures iv'[cs[m]] == iv[cs[m]] && TightChild(t, iv', cs[m], i) {
      assert TightChild(t, iv, cs[m], i) && t.Anc(cs[m], cs[m]);
      UntouchedGood(t, p, at + 1, |cs|, iv, iv', m);
    }
    forall m, n | 0 <= m && n == m + 1 && n < at ensures Adjacent(t, iv', p, m, n) {
      assert Adjacent(t, iv, p, m, n);
    }
  }

  lemma ChosenUntouched(t: Tree, iv: Labels, iv1: Labels, iv2: Labels, p: Hash, at: nat)
    requires t.WF() && iv.Keys == t.nodes.Keys && iv1.Keys == t.nodes.Keys && iv2.Keys == t.nodes.Keys
    requires p in t.nodes && at < |t.Children(p)|
    requires OnlyUnder(t, p, 0, at, iv, iv1) && OnlyUnder(t, p, at + 1, |t.Children(p)|, iv1, iv2)
    ensures forall x :: x in t.nodes && t.Anc(t.Children(p)[at], x) ==> iv2[x] == iv[x]
    ensures SubtreeGood(t, iv, t.Children(p)[at]) ==> SubtreeGood(t, iv2, t.Children(p)[at])
  {
    hide SubtreeGood, OnlyUnder, Tree.WF;
    UntouchedGood(t, p, 0, at, iv, iv1, at);
    UntouchedGood(t, p, at + 1, |t.Children(p)|, iv1, iv2, at);
  }

  lemma ConcentratedNow(t: Tree, iv: Labels, iv1: Labels, iv2: Labels, iv3: Labels, p: Hash, at: nat, deep: bool,
                        slack: nat,
                        before: nat, after: nat)
    requires t.WF() && iv.Keys == t.nodes.Keys && iv1.Keys == t.nodes.Keys && iv2.Keys == t.nodes.Keys
             && iv3.Keys == t.nodes.Keys
    requires p in t.nodes && at < |t.Children(p)| && iv1[p] == iv[p] && iv2[p] == iv[p]
    requires before == t.SumSizes(t.Children(p)[..at]) && after == t.SumSizes(t.Children(p)[at + 1..])
    requires before + after + 2 * slack < Size(iv[p])
    requires OnlyUnder(t, p, 0, at, iv, iv1) && OnlyUnder(t, p, at + 1, |t.Children(p)|, iv1, iv2)
    requires Tight(t, iv2, p, 0, at, BeforeSpan(iv[p], slack, before))
    requires Tight(t, iv2, p, at + 1, |t.Children(p)|, AfterSpan(iv[p], slack, after))
    requires SameOutside(t, t.Children(p)[at], iv2, iv3) && BelowSame(t, t.Children(p)[at], deep, iv2, iv3)
    requires iv3[t.Children(p)[at]] == ChosenSpan(iv[p], slack, before, after)
    requires deep ==> SubtreeGood(t, iv3, t.Children(p)[at])
    ensures Concentrated(t, iv, iv3, p, at, deep, slack)
  {
    hide SubtreeGood, OnlyUnder, Tree.WF, Tree.SubtreeSize, SameOutside, Tight, Placed;
    var cs := t.Children(p);
    TightKept(t, iv2, iv3, p, 0, at, BeforeSpan(iv[p], slack, before), at);
    TightKept(t, iv2, iv3, p, at + 1, |cs|, AfterSpan(iv[p], slack, after), at);
    SiblingsSame(t, p, at, iv2, iv3);
    if at == 0 { assert cs[..0] == []; }
    if at == |cs| - 1 { assert cs[at + 1..] == []; }
    SpansPlaced(t, iv3, p, at, slack, before, after);
    TightSizes(t, iv3, p, at, BeforeSpan(iv[p], slack, before), AfterSpan(iv[p], slack, after));
    SpansFit(t, p, at);
    OnlyUnderWiden(t, p, 0, at, 0, |cs|, iv, iv1);
    OnlyUnderAfter(t, p, at + 1, |cs|, iv, iv1, iv2);
    OnlyUnderStep(t, p, at, 0, |cs|, iv, iv2, iv3);
    ChosenUntouched(t, iv, iv1, iv2, p, at);
  }

  lemma OnlyUnderAfter(t: Tree, p: Hash, lo: nat, hi: nat, iv: Labels, iv1: Labels, iv2: Labels)
    requires t.WF() && iv.Keys == t.nodes.Keys && iv1.Keys == t.nodes.Keys && iv2.Keys == t.nodes.Keys
    requires p in t.nodes && hi <= |t.Children(p)|
    requires OnlyUnder(t, p, 0, |t.Children(p)|, iv, iv1) && OnlyUnder(t, p, lo, hi, iv1, iv2)
    ensures OnlyUnder(t, p, 0, |t.Children(p)|, iv, iv2)
  {
    forall x | x in t.nodes && iv2[x] != iv[x] ensures UnderOne(t, p, 0, |t.Children(p)|, x) {
      if iv1[x] == iv[x] { assert UnderOne(t, p, lo, hi, x); }
    }
  }

  // ----- the state of a move: everything is in place except that the children of `a` may
  // still sit where they were before `a` got its new labels -----

  ghost predicate Moving(t: Tree, iv: Labels, a: Hash, next: Hash, slack: nat) {
    && t.WF() && iv.Keys == t.nodes.Keys && a in t.nodes && next in t.nodes && t.Anc(a, next)
    && (forall x :: x in t.nodes ==> !IsEmpty(iv[x]))
    && (forall x :: x in t.nodes && x != a ==> Placed(t, iv, x))
    && (if a == next then Placed(t, iv, a)
        else Consecutive(t, iv, a) && t.SubtreeSize(a) + MoveNeed(slack, t.Height(a), t.Height(next)) <= Size(iv[a]))
    && (forall x :: x in t.nodes && x != a && t.Anc(x, a) ==> t.Children(x) != [] && LeanAt(t, iv, x, next, slack))
  }

  lemma MoveNeedStep(slack: nat, h: int, k: int)
    requires h <= k
    ensures MoveNeed(slack, h, k) == 2 * slack + MoveNeed(slack, h + 1, k)
    ensures MoveNeed(slack, k, k) == 2 * slack && MoveNeed(slack, h + 1, k) >= 0
  {
    TimesStep(2 * slack, k - h + 1);
    TimesStep(2 * slack, 1);
    TimesNonnegative(2 * slack, k - h);
  }

  /** A lean block stays lean when the root moves below the same child. */
  lemma LeanElsewhere(t: Tree, iv: Labels, x: Hash, a: Hash, root: Hash, next: Hash, slack: nat)
    requires t.WF() && iv.Keys == t.nodes.Keys && x in t.nodes && a in t.nodes && root in t.nodes && next in t.nodes
    requires x != a && t.Anc(x, a) && t.Anc(a, root) && t.Anc(a, next)
    requires t.Children(x) != [] && LeanAt(t, iv, x, root, slack)
    ensures LeanAt(t, iv, x, next, slack)
  {
    hide Tree.WF, Tree.SubtreeSize;
    var i := ChildToward(t, x, a);
    var cs := t.Children(x);
    AncTrans(t, cs[i], a, root);
    AncTrans(t, cs[i], a, next);
    forall k | 0 <= k < |cs| && !t.Anc(cs[k], next) ensures Size(iv[cs[k]]) <= slack + 2 * t.SubtreeSize(cs[k]) {
      if t.Anc(cs[k], root) { ChildUnique(t, x, i, k, root); }
    }
  }

  lemma MovingStart(t: Tree, iv: Labels, root: Hash, slack: nat, a: Hash, next: Hash)
    requires Good(t, iv, NONE) && root in t.nodes && LeanChain(t, iv, root, slack, NONE)
    requires Roomy(|t.nodes|, slack, Size(iv[t.origin]))
    requires a in t.nodes && next in t.nodes && t.Anc(a, root) && t.Anc(a, next)
    ensures Moving(t, iv, a, next, slack)
  {
    hide LeanAt, MoveNeed, Roomy, Tree.SubtreeSize, Tree.Height, Size;
    assert NONE !in t.nodes && t.NodeWF(next) && t.Height(next) < |t.nodes| by { HeightBound(t, next); }
    forall x | x in t.nodes && x != a && t.Anc(x, a) ensures t.Children(x) != [] && LeanAt(t, iv, x, next, slack) {
      AncTrans(t, x, a, root);
      if x == root { AncAntisym(t, x, a); }
      LeanElsewhere(t, iv, x, a, root, next, slack);
    }
    AncHeight(t, a, next);
    RoomyAncestor(t, iv, NONE, root, slack, a, t.Height(next));
  }

  /** What the search for the next block of the path needs. */
  lemma MovingPath(t: Tree, iv: Labels, a: Hash, next: Hash, slack: nat)
    requires Moving(t, iv, a, next, slack) && a != next
    ensures t.WF() && iv.Keys == t.nodes.Keys && t.Anc(a, next) && a in t.nodes && next in t.nodes
    ensures InOrder(t, iv, a) && !IsEmpty(iv[next])
    ensures PathPlaced(t, iv, a, next)
  {
    hide LeanAt, Placed, Tree.SubtreeSize, MoveNeed;
  }

  lemma HeightBound(t: Tree, x: Hash)
    requires t.WF() && x in t.nodes
    ensures t.Height(x) < |t.nodes| && NONE !in t.nodes
  {
    assert t.NodeWF(x);
  }

  lemma MovingEnd(t: Tree, iv: Labels, next: Hash, slack: nat)
    requires Moving(t, iv, next, next, slack)
    ensures Good(t, iv, NONE) && LeanChain(t, iv, next, slack, NONE)
  {
    hide LeanAt, Placed;
  }

  /** What the next concentration needs. */
  lemma MovingReady(t: Tree, iv: Labels, a: Hash, at: nat, next: Hash, slack: nat)
    requires Moving(t, iv, a, next, slack) && a != next && at < |t.Children(a)| && t.Anc(t.Children(a)[at], next)
    ensures t.SubtreeSize(a) + (if t.Children(a)[at] == next then 4 * slack else 2 * slack) <= Size(iv[a])
    ensures t.Children(a)[at] == next ==> SubtreeGood(t, iv, next)
  {
    hide LeanAt, MoveNeed, Tree.SubtreeSize, Placed;
    AncHeight(t, a, next);
    MoveNeedStep(slack, t.Height(a), t.Height(next));
    if t.Children(a)[at] == next {
      assert t.Height(next) == t.Height(a) + 1;
      forall x | x in t.nodes && t.Anc(next, x) ensures x != a { AncHeight(t, next, x); }
    }
  }

  /** Where a block lies relative to the concentrated children of `a`. */
  lemma MovedPlaced(t: Tree, iv: Labels, iv': Labels, a: Hash, at: nat, deep: bool, slack: nat, x: Hash)
    requires t.WF() && iv.Keys == t.nodes.Keys && iv'.Keys == t.nodes.Keys && a in t.nodes && at < |t.Children(a)|
    requires Concentrated(t, iv, iv', a, at, deep, slack)
    requires x in t.nodes && x != a && (deep || x != t.Children(a)[at]) && Placed(t, iv, x) && !IsEmpty(iv[x])
    ensures Placed(t, iv', x) && !IsEmpty(iv'[x])
  {
    hide Placed, Tree.SubtreeSize, Tree.WF;
    var cs := t.Children(a);
    if t.Anc(a, x) {
      var k := ChildToward(t, a, x);
      if k == at && !deep {
        BelowKept(t, cs[at], iv, iv', x);
        SameChildrenPlaced(t, iv, iv', x);
      } else {
        assert SubtreeGood(t, iv', cs[k]);
      }
    } else {
      OnlyUnderSame(t, a, 0, |cs|, iv, iv', x);
      forall j | 0 <= j < |t.Children(x)| ensures iv'[t.Children(x)[j]] == iv[t.Children(x)[j]] {
        ChildDesc(t, x, j);
        OnlyUnderSame(t, a, 0, |cs|, iv, iv', t.Children(x)[j]);
      }
      SameChildrenPlaced(t, iv, iv', x);
    }
  }

  lemma MovedLean(t: Tree, iv: Labels, iv': Labels, a: Hash, at: nat, deep: bool, slack: nat, next: Hash, x: Hash)
    requires t.WF() && iv.Keys == t.nodes.Keys && iv'.Keys == t.nodes.Keys && a in t.nodes && at < |t.Children(a)|
    requires Concentrated(t, iv, iv', a, at, deep, slack)
    requires next in t.nodes && t.Anc(t.Children(a)[at], next)
    requires x in t.nodes && x != t.Children(a)[at] && t.Anc(x, t.Children(a)[at])
    requires x != a ==> t.Children(x) != [] && LeanAt(t, iv, x, next, slack)
    ensures t.Children(x) != [] && LeanAt(t, iv', x, next, slack)
  {
    hide Placed, Tree.SubtreeSize, Tree.WF, SubtreeGood;
    var cs := t.Children(a);
    if x != a {
      assert t.Anc(x, a);
      AncHeight(t, x, a);
      forall j | 0 <= j < |t.Children(x)| ensures iv'[t.Children(x)[j]] == iv[t.Children(x)[j]] {
        if t.Anc(a, t.Children(x)[j]) { AncHeight(t, a, t.Children(x)[j]); }
        OnlyUnderSame(t, a, 0, |cs|, iv, iv', t.Children(x)[j]);
      }
      if t.Anc(a, x) { AncHeight(t, a, x); }
      OnlyUnderSame(t, a, 0, |cs|, iv, iv', x);
      LeanKept(t, iv, iv', x, next, slack);
    } else {
      forall k | 0 <= k < |cs| && !t.Anc(cs[k], next) ensures Size(iv'[cs[k]]) <= slack + 2 * t.SubtreeSize(cs[k]) {
        assert k != at;
      }
    }
  }

  /** The chosen child: its own labels are new, those below it are as before unless laid out anew. */
  lemma ConsecutiveKept(t: Tree, iv: Labels, iv': Labels, c: Hash)
    requires t.WF() && iv.Keys == t.nodes.Keys && iv'.Keys == t.nodes.Keys && c in t.nodes
    requires BelowSame(t, c, false, iv, iv') && Consecutive(t, iv, c)
    ensures Consecutive(t, iv', c)
  {
    hide Tree.WF;
    forall k, m | 0 <= k && m == k + 1 && m < |t.Children(c)| ensures Adjacent(t, iv', c, k, m) {
      assert Adjacent(t, iv, c, k, m);
      ChildDesc(t, c, k);
      ChildDesc(t, c, m);
      assert t.Anc(c, t.Children(c)[k]) && t.Anc(c, t.Children(c)[m]);
    }
  }

  /** What is left for the chosen child. */
  lemma MovedRoom(t: Tree, iv: Labels, iv': Labels, a: Hash, at: nat, next: Hash, slack: nat)
    requires t.WF() && iv.Keys == t.nodes.Keys && iv'.Keys == t.nodes.Keys && a in t.nodes && next in t.nodes
    requires t.SubtreeSize(a) + MoveNeed(slack, t.Height(a), t.Height(next)) <= Size(iv[a])
    requires at < |t.Children(a)| && t.Anc(t.Children(a)[at], next)
    requires Concentrated(t, iv, iv', a, at, t.Children(a)[at] == next, slack)
    ensures var c := t.Children(a)[at];
            c in t.nodes && !IsEmpty(iv'[c])
            && t.SubtreeSize(c) + MoveNeed(slack, t.Height(c), t.Height(next)) <= Size(iv'[c])
  {
    hide Tree.SubtreeSize, Tree.WF, MoveNeed, Concentrated, Tree.Anc;
    var c := t.Children(a)[at];
    ConcentratedSize(t, iv, iv', a, at, c == next, slack);
    SubtreePositive(t, c);
    AncHeight(t, c, next);
    MoveNeedStep(slack, t.Height(a), t.Height(next));
  }

  lemma ConcentratedSize(t: Tree, iv: Labels, iv': Labels, a: Hash, at: nat, deep: bool, slack: nat)
    requires t.WF() && iv.Keys == t.nodes.Keys && iv'.Keys == t.nodes.Keys && a in t.nodes && at < |t.Children(a)|
    requires Concentrated(t, iv, iv', a, at, deep, slack)
    ensures var c := t.Children(a)[at];
            && c in t.nodes && Size(iv'[c]) + t.SubtreeSize(a) + 2 * slack == Size(iv[a]) + t.SubtreeSize(c)
  {
    hide Tree.SubtreeSize, Tree.WF, OnlyUnder, BelowSame, SubtreeGood, Placed, SlackBefore, SlackAfter;
  }

  lemma MovedChild(t: Tree, iv: Labels, iv': Labels, a: Hash, at: nat, next: Hash, slack: nat)
    requires Moving(t, iv, a, next, slack) && iv'.Keys == t.nodes.Keys && a != next
    requires at < |t.Children(a)| && t.Anc(t.Children(a)[at], next)
    requires Concentrated(t, iv, iv', a, at, t.Children(a)[at] == next, slack)
    ensures var c := t.Children(a)[at];
            && !IsEmpty(iv'[c])
            && if c == next then Placed(t, iv', c)
               else
                 && Consecutive(t, iv', c)
                 && t.SubtreeSize(c) + MoveNeed(slack, t.Height(c), t.Height(next)) <= Size(iv'[c])
  {
    hide LeanAt, Tree.SubtreeSize, Tree.WF, MoveNeed, OnlyUnder, BelowSame, Consecutive;
    var c := t.Children(a)[at];
    MovedRoom(t, iv, iv', a, at, next, slack);
    ChildDesc(t, a, at);
    assert Placed(t, iv, c);
    if c == next {
      assert t.Anc(c, c);
    } else {
      ConsecutiveKept(t, iv, iv', c);
    }
  }

  lemma MovedParent(t: Tree, iv: Labels, iv': Labels, a: Hash, at: nat, deep: bool, slack: nat)
    requires t.WF() && iv.Keys == t.nodes.Keys && iv'.Keys == t.nodes.Keys && a in t.nodes && at < |t.Children(a)|
    requires Concentrated(t, iv, iv', a, at, deep, slack)
    ensures t.origin in t.nodes && Placed(t, iv', a) && iv'[a] == iv[a] && iv'[t.origin] == iv[t.origin]
  {
    OnlyUnderSame(t, a, 0, |t.Children(a)|, iv, iv', t.origin);
    OnlyUnderSame(t, a, 0, |t.Children(a)|, iv, iv', a);
  }

  lemma MovingStep(t: Tree, iv: Labels, iv': Labels, a: Hash, at: nat, next: Hash, slack: nat)
    requires Moving(t, iv, a, next, slack) && iv'.Keys == t.nodes.Keys && a != next
    requires at < |t.Children(a)| && t.Anc(t.Children(a)[at], next)
    requires Concentrated(t, iv, iv', a, at, t.Children(a)[at] == next, slack)
    ensures Moving(t, iv', t.Children(a)[at], next, slack) && iv'[t.origin] == iv[t.origin]
  {
    hide LeanAt, Tree.SubtreeSize, Tree.WF, MoveNeed, Placed, Concentrated, Consecutive;
    var c := t.Children(a)[at];
    MovedParent(t, iv, iv', a, at, c == next, slack);
    MovedChild(t, iv, iv', a, at, next, slack);
    forall x | x in t.nodes && x != c ensures Placed(t, iv', x) && !IsEmpty(iv'[x]) {
      if x != a { MovedPlaced(t, iv, iv', a, at, c == next, slack, x); }
    }
    forall x | x in t.nodes && x != c && t.Anc(x, c) ensures t.Children(x) != [] && LeanAt(t, iv', x, next, slack) {
      assert t.Anc(x, a);
      MovedLean(t, iv, iv', a, at, c == next, slack, next, x);
    }
  }
}
