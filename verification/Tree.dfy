/** The selected-parent tree of the reachability store, its ancestry relation, its
    label-independent left-to-right order, and interval labellings of it. */
module ReachabilityTree {
  import opened Hashes
  import opened Intervals

  datatype Node = Node(parent: Hash, children: seq<Hash>, height: nat)

  type Labels = map<Hash, Interval>

  datatype Tree = Tree(origin: Hash, nodes: map<Hash, Node>) {

    ghost predicate WF() {
      && origin in nodes && NONE !in nodes
      && nodes[origin].parent == NONE && nodes[origin].height == 0
      && (forall b {:trigger NodeWF(b)} :: b in nodes ==> NodeWF(b))
    }

    ghost predicate NodeWF(b: Hash)
      requires b in nodes
    {
      && (b != origin ==>
            && nodes[b].parent in nodes
            && nodes[b].height == nodes[nodes[b].parent].height + 1
            && b in nodes[nodes[b].parent].children)
      && (forall i :: 0 <= i < |nodes[b].children| ==>
            && nodes[b].children[i] in nodes
            && nodes[b].children[i] != origin
            && nodes[nodes[b].children[i]].parent == b)
      && (forall i, j :: 0 <= i < j < |nodes[b].children| ==> nodes[b].children[i] != nodes[b].children[j])
      && nodes[b].height < |nodes|
    }

    function Parent(b: Hash): (p: Hash)
      requires WF() && b in nodes
      ensures b != origin ==> p in nodes && nodes[b].height == nodes[p].height + 1 && b in nodes[p].children
    {
      assert NodeWF(b);
      nodes[b].parent
    }

    function Children(b: Hash): (cs: seq<Hash>)
      requires WF() && b in nodes
      ensures forall i :: 0 <= i < |cs| ==>
                cs[i] in nodes && cs[i] != origin && nodes[cs[i]].parent == b
                  && nodes[cs[i]].height == nodes[b].height + 1
    {
      assert NodeWF(b);
      assert forall i :: 0 <= i < |nodes[b].children| ==> NodeWF(nodes[b].children[i]);
      nodes[b].children
    }

    function Height(b: Hash): nat
      requires b in nodes
    {
      nodes[b].height
    }

    /** `a` is an ancestor of `b`, or `b` itself. */
    ghost predicate Anc(a: Hash, b: Hash)
      requires WF() && b in nodes
      decreases Height(b)
    {
      a == b || (b != origin && Anc(a, Parent(b)))
    }

    ghost function Desc(b: Hash): set<Hash>
      requires WF()
    {
      set x | x in nodes && Anc(b, x)
    }

    /** The number of blocks in the subtree of `b`, itself included. */
    ghost function SubtreeSize(b: Hash): nat
      requires WF()
    {
      |Desc(b)|
    }

    ghost function SumSizes(cs: seq<Hash>): nat
      requires WF()
    {
      if cs == [] then 0 else SumSizes(cs[..|cs| - 1]) + SubtreeSize(cs[|cs| - 1])
    }

    /** `a` lies to the left of `b`: below their last common ancestor, the child leading to
        `a` was appended before the child leading to `b`. */
    ghost predicate Before(a: Hash, b: Hash)
      requires WF() && a in nodes && b in nodes
      decreases Height(a) + Height(b)
    {
      if Height(a) > Height(b) then Before(Parent(a), b)
      else if Height(a) < Height(b) then Before(a, Parent(b))
      else if a == b || a == origin || b == origin then false
      else if Parent(a) == Parent(b) then Precedes(Children(Parent(a)), a, b)
      else Before(Parent(a), Parent(b))
    }

    function AppendChild(block: Hash, parent: Hash): Tree
      requires parent in nodes
    {
      Tree(origin, nodes[parent := nodes[parent].(children := nodes[parent].children + [block])])
    }

    function InsertNode(block: Hash, parent: Hash, height: nat): Tree {
      Tree(origin, nodes[block := Node(parent, [], height)])
    }

    /** The tree with the new leaf `block` as last child of `parent`. */
    function Insert(block: Hash, parent: Hash): Tree
      requires parent in nodes
    {
      AppendChild(block, parent).InsertNode(block, parent, nodes[parent].height + 1)
    }
  }

  ghost predicate Precedes(s: seq<Hash>, a: Hash, b: Hash) {
    exists i, j :: 0 <= i < j < |s| && s[i] == a && s[j] == b
  }

  // ----- ancestry -----

  lemma {:induction false} AncHeight(t: Tree, a: Hash, b: Hash)
    requires t.WF() && b in t.nodes && t.Anc(a, b)
    ensures a in t.nodes && t.Height(a) <= t.Height(b)
    ensures a != b ==> t.Height(a) < t.Height(b)
    decreases t.Height(b)
  {
    if a != b { AncHeight(t, a, t.Parent(b)); }
  }

  lemma {:induction false} AncTrans(t: Tree, a: Hash, b: Hash, c: Hash)
    requires t.WF() && b in t.nodes && c in t.nodes && t.Anc(a, b) && t.Anc(b, c)
    ensures t.Anc(a, c)
    decreases t.Height(c)
  {
    if b != c { AncTrans(t, a, b, t.Parent(c)); }
  }

  lemma {:induction false} OriginAnc(t: Tree, b: Hash)
    requires t.WF() && b in t.nodes
    ensures t.Anc(t.origin, b)
    decreases t.Height(b)
  {
    if b != t.origin { OriginAnc(t, t.Parent(b)); }
  }

  /** The ancestors of a block form a chain. */
  lemma {:induction false} AncChain(t: Tree, a: Hash, b: Hash, c: Hash)
    requires t.WF() && c in t.nodes && t.Anc(a, c) && t.Anc(b, c)
    ensures a in t.nodes && b in t.nodes
    ensures t.Height(a) <= t.Height(b) ==> t.Anc(a, b)
    ensures t.Height(b) <= t.Height(a) ==> t.Anc(b, a)
    decreases t.Height(c)
  {
    AncHeight(t, a, c);
    AncHeight(t, b, c);
    if a != c && b != c { AncChain(t, a, b, t.Parent(c)); }
  }

  lemma AncAntisym(t: Tree, a: Hash, b: Hash)
    requires t.WF() && a in t.nodes && b in t.nodes && t.Anc(a, b) && t.Anc(b, a)
    ensures a == b
  {
    AncHeight(t, a, b);
    AncHeight(t, b, a);
  }

  /** A strict descendant of `a` is in the subtree of exactly one child of `a`. */
  lemma {:induction false} ChildToward(t: Tree, a: Hash, b: Hash) returns (i: nat)
    requires t.WF() && b in t.nodes && a != b && t.Anc(a, b)
    ensures a in t.nodes && i < |t.Children(a)|
    ensures t.Children(a)[i] in t.nodes && t.Anc(t.Children(a)[i], b)
    decreases t.Height(b)
  {
    AncHeight(t, a, b);
    if t.Parent(b) == a {
      i :| 0 <= i < |t.Children(a)| && t.Children(a)[i] == b;
    } else {
      i := ChildToward(t, a, t.Parent(b));
    }
  }

  lemma ChildUnique(t: Tree, a: Hash, i: nat, j: nat, b: Hash)
    requires t.WF() && a in t.nodes && b in t.nodes
    requires i < |t.Children(a)| && j < |t.Children(a)|
    requires t.Anc(t.Children(a)[i], b) && t.Anc(t.Children(a)[j], b)
    ensures i == j
  {
    var c, d := t.Children(a)[i], t.Children(a)[j];
    assert t.NodeWF(a) && t.NodeWF(c) && t.NodeWF(d);
    AncChain(t, c, d, b);
    AncAntisym(t, c, d);
  }

  lemma ChildIndexUnique(t: Tree, a: Hash, i: nat, j: nat)
    requires t.WF() && a in t.nodes && i < |t.Children(a)| && j < |t.Children(a)|
             && t.Children(a)[i] == t.Children(a)[j]
    ensures i == j
  {
    assert t.NodeWF(a);
  }

  // ----- subtree sizes -----

  lemma ChildDesc(t: Tree, b: Hash, i: nat)
    requires t.WF() && b in t.nodes && i < |t.Children(b)|
    ensures t.Children(b)[i] in t.nodes && t.Parent(t.Children(b)[i]) == b
    ensures t.Children(b)[i] != b && t.Children(b)[i] != t.origin
    ensures t.Height(t.Children(b)[i]) == t.Height(b) + 1
    ensures forall x :: x in t.nodes && t.Anc(t.Children(b)[i], x) ==> t.Anc(b, x) && x != b
  {
    var c := t.Children(b)[i];
    assert t.NodeWF(b) && t.NodeWF(c);
    forall x | x in t.nodes && t.Anc(c, x) ensures t.Anc(b, x) && x != b {
      AncTrans(t, b, c, x);
      AncHeight(t, c, x);
    }
  }

  ghost function DescOf(t: Tree, cs: seq<Hash>): set<Hash>
    requires t.WF()
  {
    if cs == [] then {} else DescOf(t, cs[..|cs| - 1]) + t.Desc(cs[|cs| - 1])
  }

  lemma {:induction false} DescOfMember(t: Tree, cs: seq<Hash>, x: Hash)
    requires t.WF()
    ensures x in DescOf(t, cs) <==> x in t.nodes && exists i :: 0 <= i < |cs| && t.Anc(cs[i], x)
  {
    if cs != [] {
      DescOfMember(t, cs[..|cs| - 1], x);
      if x in t.nodes && exists i :: 0 <= i < |cs| && t.Anc(cs[i], x) {
        var i :| 0 <= i < |cs| && t.Anc(cs[i], x);
        if i < |cs| - 1 { assert cs[..|cs| - 1][i] == cs[i]; }
      }
    }
  }

  lemma {:induction false} SumIsUnion(t: Tree, b: Hash, n: nat)
    requires t.WF() && b in t.nodes && n <= |t.Children(b)|
    ensures t.SumSizes(t.Children(b)[..n]) == |DescOf(t, t.Children(b)[..n])|
  {
    if n > 0 {
      var cs := t.Children(b);
      SumIsUnion(t, b, n - 1);
      assert cs[..n][..n - 1] == cs[..n - 1];
      var elder, last := DescOf(t, cs[..n - 1]), t.Desc(cs[n - 1]);
      forall x | x in elder ensures x !in last {
        DescOfMember(t, cs[..n - 1], x);
        var i :| 0 <= i < n - 1 && t.Anc(cs[..n - 1][i], x);
        if x in last { ChildUnique(t, b, i, n - 1, x); }
      }
      assert elder !! last;
    }
  }

  /** The recursive description of subtree sizes. */
  lemma SubtreeSizeRec(t: Tree, b: Hash)
    requires t.WF() && b in t.nodes
    ensures t.SubtreeSize(b) == 1 + t.SumSizes(t.Children(b))
  {
    var cs := t.Children(b);
    SumIsUnion(t, b, |cs|);
    assert cs[..|cs|] == cs;
    forall x ensures x in t.Desc(b) <==> x in {b} + DescOf(t, cs) {
      DescOfMember(t, cs, x);
      if x in t.Desc(b) && x != b {
        var i := ChildToward(t, b, x);
      } else if x in DescOf(t, cs) {
        var i :| 0 <= i < |cs| && t.Anc(cs[i], x);
        ChildDesc(t, b, i);
      }
    }
    assert t.Desc(b) == {b} + DescOf(t, cs);
    DescOfMember(t, cs, b);
    if b in DescOf(t, cs) {
      var i :| 0 <= i < |cs| && t.Anc(cs[i], b);
      ChildDesc(t, b, i);
    }
  }

  lemma SubtreePositive(t: Tree, b: Hash)
    requires t.WF() && b in t.nodes
    ensures t.SubtreeSize(b) >= 1
  {
    assert b in t.Desc(b);
  }

  lemma {:induction false} SumSplit(t: Tree, cs: seq<Hash>, i: nat)
    requires t.WF() && i < |cs|
    ensures t.SumSizes(cs) == t.SumSizes(cs[..i]) + t.SubtreeSize(cs[i]) + t.SumSizes(cs[i + 1..])
  {
    if i == |cs| - 1 {
      assert cs[i + 1..] == [];
    } else {
      SumSplit(t, cs[..|cs| - 1], i);
      assert cs[..|cs| - 1][..i] == cs[..i];
      assert cs[..|cs| - 1][i + 1..] == cs[i + 1..][..|cs[i + 1..]| - 1];
    }
  }

  // ----- labellings -----

  /** Children of `p` strictly inside `p`, each starting right after its elder sibling. */
  ghost predicate Placed(t: Tree, iv: Labels, p: Hash)
    requires t.WF() && iv.Keys == t.nodes.Keys && p in t.nodes
  {
    var cs := t.Children(p);
    assert t.NodeWF(p);
    && (forall i :: 0 <= i < |cs| ==> StrictlyContains(iv[p], iv[cs[i]]))
    && Consecutive(t, iv, p)
  }

  ghost predicate Consecutive(t: Tree, iv: Labels, p: Hash)
    requires t.WF() && iv.Keys == t.nodes.Keys && p in t.nodes
  {
    forall i, j :: 0 <= i && j == i + 1 && j < |t.Children(p)| ==> Adjacent(t, iv, p, i, j)
  }

  ghost predicate Adjacent(t: Tree, iv: Labels, p: Hash, i: nat, j: nat)
    requires t.WF() && iv.Keys == t.nodes.Keys && p in t.nodes && i < |t.Children(p)| && j < |t.Children(p)|
  {
    assert t.NodeWF(p);
    iv[t.Children(p)[i]].end + 1 == iv[t.Children(p)[j]].start
  }

  /** Every block is placed; every block but `n` has a non-empty interval. */
  ghost predicate Good(t: Tree, iv: Labels, n: Hash) {
    && t.WF() && iv.Keys == t.nodes.Keys
    && (forall p :: p in t.nodes ==> Placed(t, iv, p))
    && (forall x :: x in t.nodes && x != n ==> !IsEmpty(iv[x]))
  }

  /** The whole subtree of `b` is placed and non-empty. */
  ghost predicate SubtreeGood(t: Tree, iv: Labels, b: Hash)
    requires t.WF() && iv.Keys == t.nodes.Keys
  {
    forall x :: x in t.nodes && t.Anc(b, x) ==> Placed(t, iv, x) && !IsEmpty(iv[x])
  }

  lemma {:induction false} SiblingsOrdered(t: Tree, iv: Labels, p: Hash, i: nat, j: nat)
    requires t.WF() && iv.Keys == t.nodes.Keys && p in t.nodes && i < j < |t.Children(p)|
    requires Consecutive(t, iv, p)
    requires forall k :: 0 <= k < |t.Children(p)| ==>
                           t.Children(p)[k] in iv && iv[t.Children(p)[k]].start <= iv[t.Children(p)[k]].end + 1
    ensures t.NodeWF(p) && iv[t.Children(p)[i]].end < iv[t.Children(p)[j]].start
    decreases j
  {
    assert t.NodeWF(p);
    assert Adjacent(t, iv, p, j - 1, j);
    if i < j - 1 {
      SiblingsOrdered(t, iv, p, i, j - 1);
    }
  }

  lemma {:induction false} AncContains(t: Tree, iv: Labels, a: Hash, b: Hash)
    requires t.WF() && iv.Keys == t.nodes.Keys && a in t.nodes && b in t.nodes && t.Anc(a, b)
    requires forall x :: x in t.nodes && t.Anc(a, x) ==> Placed(t, iv, x)
    ensures Contains(iv[a], iv[b])
    ensures a != b ==> StrictlyContains(iv[a], iv[b])
    decreases t.Height(b)
  {
    if a != b {
      var p := t.Parent(b);
      AncContains(t, iv, a, p);
      assert t.NodeWF(b);
      var i :| 0 <= i < |t.Children(p)| && t.Children(p)[i] == b;
      assert Placed(t, iv, p);
    }
  }

  /** Under any good labelling the label order is the tree order. */
  lemma {:induction false} BeforeMeansLeft(t: Tree, iv: Labels, n: Hash, a: Hash, b: Hash)
    requires Good(t, iv, n) && a in t.nodes && b in t.nodes && t.Before(a, b)
    ensures iv[a].end < iv[b].start
    decreases t.Height(a) + t.Height(b)
  {
    assert t.NodeWF(a) && t.NodeWF(b);
    if t.Height(a) > t.Height(b) {
      BeforeMeansLeft(t, iv, n, t.Parent(a), b);
      var i :| 0 <= i < |t.Children(t.Parent(a))| && t.Children(t.Parent(a))[i] == a;
      assert Placed(t, iv, t.Parent(a));
    } else if t.Height(a) < t.Height(b) {
      BeforeMeansLeft(t, iv, n, a, t.Parent(b));
      var i :| 0 <= i < |t.Children(t.Parent(b))| && t.Children(t.Parent(b))[i] == b;
      assert Placed(t, iv, t.Parent(b));
    } else {
      var p, q := t.Parent(a), t.Parent(b);
      var i :| 0 <= i < |t.Children(p)| && t.Children(p)[i] == a;
      var j :| 0 <= j < |t.Children(q)| && t.Children(q)[j] == b;
      assert Placed(t, iv, p) && Placed(t, iv, q) && t.NodeWF(p);
      if p == q {
        SiblingsOrdered(t, iv, p, i, j);
      } else {
        BeforeMeansLeft(t, iv, n, p, q);
      }
    }
  }

  /** Two blocks are comparable, or one lies to the left of the other. */
  lemma {:induction false} Trichotomy(t: Tree, a: Hash, b: Hash)
    requires t.WF() && a in t.nodes && b in t.nodes
    ensures t.Anc(a, b) || t.Anc(b, a) || t.Before(a, b) || t.Before(b, a)
    decreases t.Height(a) + t.Height(b)
  {
    assert t.NodeWF(a) && t.NodeWF(b);
    if t.Height(a) > t.Height(b) {
      Trichotomy(t, t.Parent(a), b);
      if t.Anc(t.Parent(a), b) {
        AncHeight(t, t.Parent(a), b);
      }
    } else if t.Height(a) < t.Height(b) {
      Trichotomy(t, a, t.Parent(b));
      if t.Anc(t.Parent(b), a) {
        AncHeight(t, t.Parent(b), a);
      }
    } else if a != b {
      var p, q := t.Parent(a), t.Parent(b);
      if p == q {
        var i :| 0 <= i < |t.Children(p)| && t.Children(p)[i] == a;
        var j :| 0 <= j < |t.Children(p)| && t.Children(p)[j] == b;
      } else {
        Trichotomy(t, p, q);
        if t.Anc(p, q) { AncHeight(t, p, q); }
        if t.Anc(q, p) { AncHeight(t, q, p); }
      }
    }
  }

  /** Interval containment is tree ancestry, for every pair of blocks but `n`. */
  lemma ContainmentIsAncestry(t: Tree, iv: Labels, n: Hash, a: Hash, b: Hash)
    requires Good(t, iv, n) && a in t.nodes && b in t.nodes && a != n && b != n
    ensures Contains(iv[a], iv[b]) <==> t.Anc(a, b)
    ensures StrictlyContains(iv[a], iv[b]) <==> t.Anc(a, b) && a != b
    ensures iv[a].start <= iv[b].end <= iv[a].end ==> t.Anc(a, b)
  {
    Trichotomy(t, a, b);
    if t.Anc(a, b) {
      AncContains(t, iv, a, b);
    } else if t.Anc(b, a) {
      AncContains(t, iv, b, a);
    } else if t.Before(a, b) {
      BeforeMeansLeft(t, iv, n, a, b);
    } else {
      BeforeMeansLeft(t, iv, n, b, a);
    }
  }

  lemma {:induction false} ChildrenSpan(t: Tree, iv: Labels, b: Hash, n: nat)
    requires t.WF() && iv.Keys == t.nodes.Keys && b in t.nodes && 0 < n <= |t.Children(b)|
    requires Placed(t, iv, b)
    requires forall i :: 0 <= i < n ==> t.SubtreeSize(t.Children(b)[i]) <= Size(iv[t.Children(b)[i]])
    ensures iv[b].start + t.SumSizes(t.Children(b)[..n]) <= iv[t.Children(b)[n - 1]].end + 1
  {
    var cs := t.Children(b);
    assert cs[..n][..n - 1] == cs[..n - 1];
    if n > 1 {
      ChildrenSpan(t, iv, b, n - 1);
      assert Adjacent(t, iv, b, n - 2, n - 1);
    }
  }

  /** A good subtree fits in its interval. */
  lemma {:induction false} SubtreeFits(t: Tree, iv: Labels, b: Hash)
    requires t.WF() && iv.Keys == t.nodes.Keys && b in t.nodes
    requires SubtreeGood(t, iv, b)
    ensures t.SubtreeSize(b) <= Size(iv[b])
    decreases |t.nodes| - t.Height(b)
  {
    var cs := t.Children(b);
    assert t.NodeWF(b);
    forall i | 0 <= i < |cs| ensures t.SubtreeSize(cs[i]) <= Size(iv[cs[i]]) {
      ChildDesc(t, b, i);
      SubtreeFits(t, iv, cs[i]);
    }
    SubtreeSizeRec(t, b);
    if cs != [] {
      ChildrenSpan(t, iv, b, |cs|);
      assert cs[..|cs|] == cs;
    }
  }
}
