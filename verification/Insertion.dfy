/** Appending a new block to the tree: what it keeps. */
module Insertion {
  import opened Hashes
  import opened Intervals
  import opened ReachabilityTree
  import opened ReclaimWalk
  import opened ReachabilityStore

  /** `t'` is `t` with the new leaf `b` as last child of `p`. */
  ghost predicate Grown(t: Tree, t': Tree, b: Hash, p: Hash) {
    t.WF() && p in t.nodes && b !in t.nodes && b != NONE && t' == t.Insert(b, p) && t'.WF()
  }

  lemma InsertGrows(t: Tree, b: Hash, p: Hash)
    requires t.WF() && p in t.nodes && b !in t.nodes && b != NONE
    ensures Grown(t, t.Insert(b, p), b, p)
  {
    var t' := t.Insert(b, p);
    assert t'.nodes.Keys == t.nodes.Keys + {b};
    assert |t'.nodes| == |t'.nodes.Keys| && |t.nodes| == |t.nodes.Keys|;
    forall x | x in t'.nodes ensures t'.NodeWF(x) {
      assert t.NodeWF(p);
      if x == b {
        assert t'.nodes[p].children[|t.nodes[p].children|] == b;
      } else {
        InsertNodeWF(t, b, p, x);
      }
    }
  }

  lemma GrownFacts(t: Tree, t': Tree, b: Hash, p: Hash)
    requires Grown(t, t', b, p)
    ensures t.WF() && t'.WF() && t'.origin == t.origin && p in t.nodes && b !in t.nodes && b != t.origin
    ensures t'.nodes.Keys == t.nodes.Keys + {b} && |t'.nodes| == |t.nodes| + 1 && NONE !in t'.nodes
    ensures t'.Children(b) == [] && t'.Parent(b) == p && t'.Height(b) == t.Height(p) + 1
  {
    assert |t'.nodes| == |t'.nodes.Keys| && |t.nodes| == |t.nodes.Keys|;
  }

  lemma GrownNode(t: Tree, t': Tree, b: Hash, p: Hash, x: Hash)
    requires Grown(t, t', b, p) && x in t.nodes
    ensures x in t'.nodes && t'.Parent(x) == t.Parent(x) && t'.Height(x) == t.Height(x)
    ensures t'.Children(x) == if x == p then t.Children(x) + [b] else t.Children(x)
  {
  }

  lemma InsertNodeWF(t: Tree, b: Hash, p: Hash, x: Hash)
    requires t.WF() && p in t.nodes && b !in t.nodes && b != NONE && x in t.nodes
    requires |t.Insert(b, p).nodes| == |t.nodes| + 1
    ensures t.Insert(b, p).NodeWF(x)
  {
    var t' := t.Insert(b, p);
    assert t.NodeWF(x);
    if x != t.origin {
      var q := t.nodes[x].parent;
      assert t.NodeWF(q);
      var i :| 0 <= i < |t.nodes[q].children| && t.nodes[q].children[i] == x;
      assert t'.nodes[q].children[i] == x;
    }
  }

  /** Ancestry among the old blocks is unchanged; the new block's ancestors are those of its parent. */
  lemma {:induction false} GrownAnc(t: Tree, t': Tree, b: Hash, p: Hash, x: Hash, y: Hash)
    requires Grown(t, t', b, p) && (y in t.nodes || y == b)
    ensures t'.Anc(x, y) <==> if y == b then x == b || t.Anc(x, p) else t.Anc(x, y)
    decreases y == b, if y in t.nodes then t.Height(y) else 0
  {
    GrownFacts(t, t', b, p);
    hide Tree.WF, Grown;
    if y == b {
      GrownAnc(t, t', b, p, x, p);
    } else if y != t.origin {
      GrownNode(t, t', b, p, y);
      GrownAnc(t, t', b, p, x, t.Parent(y));
    }
  }

  /** The left-to-right order among the old blocks is unchanged. */
  lemma {:induction false} GrownBefore(t: Tree, t': Tree, b: Hash, p: Hash, x: Hash, y: Hash)
    requires Grown(t, t', b, p) && x in t.nodes && y in t.nodes
    ensures t'.Before(x, y) <==> t.Before(x, y)
    decreases t.Height(x) + t.Height(y)
  {
    GrownFacts(t, t', b, p);
    hide Tree.WF, Grown;
    GrownNode(t, t', b, p, x);
    GrownNode(t, t', b, p, y);
    if t.Height(x) > t.Height(y) {
      GrownBefore(t, t', b, p, t.Parent(x), y);
    } else if t.Height(x) < t.Height(y) {
      GrownBefore(t, t', b, p, x, t.Parent(y));
    } else if x == y || x == t.origin || y == t.origin {
    } else if t.Parent(x) == t.Parent(y) {
      GrownNode(t, t', b, p, t.Parent(x));
      PrecedesAppend(t.Children(t.Parent(x)), b, x, y);
    } else {
      GrownBefore(t, t', b, p, t.Parent(x), t.Parent(y));
    }
  }

  lemma PrecedesAppend(s: seq<Hash>, b: Hash, x: Hash, y: Hash)
    requires x != b && y != b
    ensures Precedes(s + [b], x, y) <==> Precedes(s, x, y)
  {
    if Precedes(s, x, y) {
      var i, j :| 0 <= i < j < |s| && s[i] == x && s[j] == y;
      assert (s + [b])[i] == x && (s + [b])[j] == y;
    }
  }

  lemma GrownSize(t: Tree, t': Tree, b: Hash, p: Hash, x: Hash)
    requires Grown(t, t', b, p) && x in t.nodes
    ensures t.SubtreeSize(x) <= t'.SubtreeSize(x)
  {
    GrownFacts(t, t', b, p);
    hide Tree.WF, Grown;
    forall y | y in t.Desc(x) ensures y in t'.Desc(x) {
      GrownAnc(t, t', b, p, x, y);
    }
    SubsetSize(t.Desc(x), t'.Desc(x));
  }

  // ----- labels -----

  /** The label a new block gets: the free labels behind the last child, or their first part. */
  ghost predicate Appended(t: Tree, iv: Labels, p: Hash, i: Interval)
    requires t.WF() && iv.Keys == t.nodes.Keys && p in t.nodes && !IsEmpty(iv[p])
    requires t.Children(p) != [] ==> StrictlyContains(iv[p], iv[t.Children(p)[|t.Children(p)| - 1]])
  {
    i.start == RemainingAfter(t, iv, p).start && i.end <= RemainingAfter(t, iv, p).end
  }

  lemma AppendedPlaced(t: Tree, t': Tree, iv: Labels, b: Hash, p: Hash, i: Interval)
    requires Grown(t, t', b, p) && iv.Keys == t.nodes.Keys
    requires Placed(t, iv, p) && !IsEmpty(iv[p]) && Appended(t, iv, p, i)
    ensures iv[b := i].Keys == t'.nodes.Keys && Placed(t', iv[b := i], p)
  {
    GrownFacts(t, t', b, p);
    hide Tree.WF, Grown;
    var iv' := iv[b := i];
    GrownNode(t, t', b, p, p);
    var cs, cs' := t.Children(p), t'.Children(p);
    forall k, m | 0 <= k && m == k + 1 && m < |cs'| ensures Adjacent(t', iv', p, k, m) {
      if m < |cs| {
        assert Adjacent(t, iv, p, k, m);
      } else {
        assert cs[|cs| - 1] == cs[k];
      }
    }
  }

  lemma OthersPlaced(t: Tree, t': Tree, iv: Labels, b: Hash, p: Hash, i: Interval, x: Hash)
    requires Grown(t, t', b, p) && iv.Keys == t.nodes.Keys && x in t.nodes && x != p && Placed(t, iv, x)
    ensures iv[b := i].Keys == t'.nodes.Keys && Placed(t', iv[b := i], x)
  {
    GrownFacts(t, t', b, p);
    hide Tree.WF, Grown;
    var iv' := iv[b := i];
    GrownNode(t, t', b, p, x);
    forall k, m | 0 <= k && m == k + 1 && m < |t'.Children(x)| ensures Adjacent(t', iv', x, k, m) {
      assert Adjacent(t, iv, x, k, m);
    }
  }

  lemma GrownGood(t: Tree, t': Tree, iv: Labels, b: Hash, p: Hash, i: Interval)
    requires Grown(t, t', b, p) && Good(t, iv, NONE)
    requires Placed(t, iv, p) && !IsEmpty(iv[p]) && Appended(t, iv, p, i)
    ensures Good(t', iv[b := i], if IsEmpty(i) then b else NONE)
  {
    hide Appended, Placed, Tree.WF, Grown;
    GrownFacts(t, t', b, p);
    var iv' := iv[b := i];
    forall x | x in t'.nodes ensures Placed(t', iv', x) {
      if x == p {
        AppendedPlaced(t, t', iv, b, p, i);
      } else if x == b {
        LeafPlaced(t', iv', b);
      } else {
        OthersPlaced(t, t', iv, b, p, i, x);
      }
    }
  }

  lemma LeafPlaced(t: Tree, iv: Labels, x: Hash)
    requires t.WF() && iv.Keys == t.nodes.Keys && x in t.nodes && t.Children(x) == []
    ensures Placed(t, iv, x)
  {
  }

  lemma GrownLean(t: Tree, t': Tree, iv: Labels, b: Hash, p: Hash, i: Interval, root: Hash, slack: nat)
    requires Grown(t, t', b, p) && Good(t, iv, NONE) && root in t.nodes
    requires !IsEmpty(iv[p]) && Placed(t, iv, p) && Appended(t, iv, p, i)
    requires LeanChain(t, iv, root, slack, NONE)
    ensures iv[b := i].Keys == t'.nodes.Keys && LeanChain(t', iv[b := i], root, slack, NONE)
  {
    GrownFacts(t, t', b, p);
    hide LeanAt, Tree.WF, Appended, Placed, Grown;
    var iv' := iv[b := i];
    forall x | x in t'.nodes && x != root && t'.Anc(x, root)
      ensures t'.Children(x) != [] && LeanAt(t', iv', x, root, slack)
    {
      GrownAnc(t, t', b, p, x, root);
      AncHeight(t, x, root);
      GrownLeanAt(t, t', iv, b, p, i, root, slack, x);
    }
  }

  lemma GrownLeanAt(t: Tree, t': Tree, iv: Labels, b: Hash, p: Hash, i: Interval, root: Hash, slack: nat, x: Hash)
    requires Grown(t, t', b, p) && iv.Keys == t.nodes.Keys && root in t.nodes
    requires !IsEmpty(iv[p]) && Placed(t, iv, p) && Appended(t, iv, p, i)
    requires x in t.nodes && t.Children(x) != [] && LeanAt(t, iv, x, root, slack)
    ensures iv[b := i].Keys == t'.nodes.Keys && t'.Children(x) != [] && LeanAt(t', iv[b := i], x, root, slack)
  {
    hide Tree.WF, Tree.SubtreeSize, Placed, Grown, Tree.Anc;
    GrownFacts(t, t', b, p);
    var iv' := iv[b := i];
    GrownNode(t, t', b, p, x);
    var cs, cs' := t.Children(x), t'.Children(x);
    forall k | 0 <= k < |cs'| && !t'.Anc(cs'[k], root)
      ensures Size(iv'[cs'[k]]) <= slack + 2 * t'.SubtreeSize(cs'[k])
    {
      if k < |cs| {
        assert cs'[k] == cs[k];
        GrownAnc(t, t', b, p, cs[k], root);
        GrownSize(t, t', b, p, cs[k]);
      }
    }
  }
}
