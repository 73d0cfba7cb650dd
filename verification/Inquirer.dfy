/** Reachability in the DAG, answered from the tree labels and the future covering sets. */
module Inquirer {
  import opened Hashes
  import opened Intervals
  import opened ReachabilityTree
  import opened ReachabilityStore
  import opened DescendantSearch
  import opened ReclaimWalk
  import opened Capacity
  import opened Insertion
  import opened TreeGrowth
  import opened RootMovement
  import opened BlockDag

  type Covering = map<Hash, seq<Hash>>

  /** The tree spans the blocks of the DAG, and the tree parent of a block is one of its parents. */
  ghost predicate Spans(t: Tree, d: Dag) {
    && t.WF() && d.Valid() && t.origin == d.Root() && t.nodes.Keys == d.Blocks()
    && forall x :: x in t.nodes && x != t.origin ==> t.Parent(x) in d.Past(x)
  }

  /** `s` lists blocks in the future of `a`, from left to right in the tree. */
  ghost predicate Listed(t: Tree, d: Dag, a: Hash, s: seq<Hash>)
    requires t.WF()
  {
    && (forall i :: 0 <= i < |s| ==> s[i] in t.nodes && a in d.Past(s[i]))
    && (forall i, j :: 0 <= i < j < |s| ==> t.Before(s[i], s[j]))
  }

  /** Some listed block is an ancestor of `b`. */
  ghost predicate CoveredBy(t: Tree, s: seq<Hash>, b: Hash)
    requires t.WF() && b in t.nodes
  {
    exists i :: 0 <= i < |s| && t.Anc(s[i], b)
  }

  /** Every future block of `a` is below `a` or below a block that covers the future of `a`. */
  ghost predicate Complete(t: Tree, d: Dag, a: Hash, s: seq<Hash>)
    requires t.WF()
  {
    forall b :: b in t.nodes && a in d.Past(b) ==> t.Anc(a, b) || CoveredBy(t, s, b)
  }

  ghost predicate Covers(t: Tree, fcs: Covering, d: Dag)
    requires t.WF()
  {
    && fcs.Keys == t.nodes.Keys
    && (forall a :: a in t.nodes ==> Listed(t, d, a, fcs[a]))
    && (forall a :: a in t.nodes ==> Complete(t, d, a, fcs[a]))
  }

  /** The reachability data mirror the DAG. */
  ghost predicate Mirrors(t: Tree, iv: Labels, fcs: Covering, root: Hash, d: Dag, slack: nat) {
    Sound(t, iv, root, slack) && Spans(t, d) && Covers(t, fcs, d)
  }

  // ----- queries -----

  /** Tree ancestry is DAG ancestry. */
  lemma {:induction false} AncReaches(t: Tree, d: Dag, a: Hash, b: Hash)
    requires Spans(t, d) && b in t.nodes && t.Anc(a, b)
    ensures Reaches(d, a, b)
    decreases t.Height(b)
  {
    if a != b {
      AncReaches(t, d, a, t.Parent(b));
      ReachesTrans(d, a, t.Parent(b), b);
    }
  }

  lemma ListedOrdered(t: Tree, iv: Labels, d: Dag, a: Hash, s: seq<Hash>)
    requires Good(t, iv, NONE) && Listed(t, d, a, s)
    ensures Ordered(iv, s)
  {
    forall i, j | 0 <= i < j < |s| ensures iv[s[i]].end < iv[s[j]].start {
      BeforeMeansLeft(t, iv, NONE, s[i], s[j]);
    }
  }

  lemma ListedSeparates(t: Tree, iv: Labels, s: seq<Hash>, b: Hash)
    requires Good(t, iv, NONE) && b in t.nodes && Ordered(iv, s)
    ensures !IsEmpty(iv[b]) && Separates(iv, s, iv[b])
    ensures forall i :: 0 <= i < |s| ==> (Contains(iv[s[i]], iv[b]) <==> t.Anc(s[i], b))
  {
    assert b != NONE;
    forall i | 0 <= i < |s| ensures Contains(iv[s[i]], iv[b]) <==> t.Anc(s[i], b)
    {
      ContainmentIsAncestry(t, iv, NONE, s[i], b);
    }
    forall i | 0 <= i < |s| && Meets(iv[s[i]], iv[b]) ensures Contains(iv[s[i]], iv[b]) {
      ContainmentIsAncestry(t, iv, NONE, s[i], b);
    }
  }

  /** The answer in terms of tree and covering set is the answer in the DAG. */
  lemma CoveringDecides(t: Tree, fcs: Covering, d: Dag, a: Hash, b: Hash)
    requires Spans(t, d) && Covers(t, fcs, d) && a in t.nodes && b in t.nodes
    ensures Reaches(d, a, b) <==> t.Anc(a, b) || CoveredBy(t, fcs[a], b)
  {
    assert Complete(t, d, a, fcs[a]) && Listed(t, d, a, fcs[a]);
    if t.Anc(a, b) {
      AncReaches(t, d, a, b);
    } else if CoveredBy(t, fcs[a], b) {
      var i :| 0 <= i < |fcs[a]| && t.Anc(fcs[a][i], b);
      AncReaches(t, d, fcs[a][i], b);
      ReachesTrans(d, a, fcs[a][i], b);
    }
  }

  /** Whether `block` is an ancestor of `queried` in the DAG, or equal to it. */
  method IsDagAncestorOf(store: Store, block: Hash, queried: Hash, ghost d: Dag, ghost slack: nat)
    returns (r: Result<bool>)
    requires Mirrors(store.tree, store.interval, store.futureCovering, store.reindexRoot, d, slack)
    ensures block !in d.Blocks() || queried !in d.Blocks() ==> r == Err(KeyNotFound)
    ensures block in d.Blocks() && queried in d.Blocks() ==> r == Ok(Reaches(d, block, queried))
  {
    hide *;
    var t, iv, fcs := store.tree, store.interval, store.futureCovering;
    MirrorFacts(t, iv, fcs, store.reindexRoot, d, slack);
    if block !in t.nodes || queried !in t.nodes {
      return Err(KeyNotFound);
    }
    CoveringDecides(t, fcs, d, block, queried);
    var onChain := IsChainAncestorOf(store, block, queried);
    if onChain {
      return Ok(true);
    }
    ListedHere(t, fcs, d, block);
    ListedOrdered(t, iv, d, block, fcs[block]);
    ListedSeparates(t, iv, fcs[block], queried);
    var out := BinarySearchDescendant(iv, fcs[block], queried);
    SearchMeans(t, fcs[block], queried, out);
    return Ok(out.Found?);
  }

  lemma SearchMeans(t: Tree, s: seq<Hash>, b: Hash, out: SearchOutput)
    requires t.WF() && b in t.nodes
    requires out.Found? ==> out.index < |s| && out.hash == s[out.index] && t.Anc(out.hash, b)
    requires out.NotFound? ==> forall k :: 0 <= k < |s| ==> !t.Anc(s[k], b)
    ensures out.Found? <==> CoveredBy(t, s, b)
  {
  }

  lemma MirrorFacts(t: Tree, iv: Labels, fcs: Covering, root: Hash, d: Dag, slack: nat)
    requires Mirrors(t, iv, fcs, root, d, slack)
    ensures t.WF() && Good(t, iv, NONE) && iv.Keys == t.nodes.Keys && fcs.Keys == t.nodes.Keys
            && t.nodes.Keys == d.Blocks()
    ensures Sound(t, iv, root, slack) && Spans(t, d) && Covers(t, fcs, d) && d.Valid() && t.origin in t.nodes
            && t.origin in iv
  {
  }

  lemma ListedHere(t: Tree, fcs: Covering, d: Dag, a: Hash)
    requires t.WF() && Covers(t, fcs, d) && a in t.nodes
    ensures a in fcs && Listed(t, d, a, fcs[a])
  {
  }

  // ----- a new block -----

  /** Like `Complete`, but the block `b` may still be missing. */
  ghost predicate CompleteBut(t: Tree, d: Dag, a: Hash, s: seq<Hash>, b: Hash, missing: bool)
    requires t.WF()
  {
    forall x :: x in t.nodes && a in d.Past(x) ==> t.Anc(a, x) || CoveredBy(t, s, x) || (missing && x == b)
  }

  /** `b` has still to be entered in the covering sets of the blocks in `todo`. */
  ghost predicate Entering(t: Tree, fcs: Covering, d: Dag, b: Hash, todo: set<Hash>)
    requires t.WF() && b in t.nodes
  {
    && fcs.Keys == t.nodes.Keys && todo <= t.nodes.Keys
    && (forall a :: a in t.nodes ==> Listed(t, d, a, fcs[a]))
    && (forall a :: a in t.nodes ==> CompleteBut(t, d, a, fcs[a], b, a in todo))
    && (forall a :: a in todo ==> a in d.Past(b) && !CoveredBy(t, fcs[a], b))
  }

  /** `b` is a new leaf of the tree and of the DAG. */
  ghost predicate NewLeaf(t: Tree, t': Tree, d: Dag, d': Dag, b: Hash, p: Hash, parents: set<Hash>) {
    && Grown(t, t', b, p) && d'.Valid() && d' == Block(d, b, parents) && p in parents && Spans(t, d)
  }

  lemma LeafFacts(t: Tree, t': Tree, d: Dag, d': Dag, b: Hash, p: Hash, parents: set<Hash>)
    requires NewLeaf(t, t', d, d', b, p, parents)
    ensures t.WF() && t'.WF() && p in t.nodes && b !in t.nodes && b in t'.nodes && t'.nodes.Keys == t.nodes.Keys + {b}
    ensures Grown(t, t', b, p) && Spans(t, d) && d.Valid() && t.nodes.Keys == d.Blocks()
    ensures forall x :: x in t.nodes ==> d'.Past(x) == d.Past(x) && d.Past(x) <= t.nodes.Keys
    ensures d'.Past(b) == parents + d.PastOf(parents) && d'.Past(b) <= t.nodes.Keys
    ensures t'.Children(b) == []
  {
    GrownFacts(t, t', b, p);
    forall x | x in t.nodes ensures d'.Past(x) == d.Past(x) && d.Past(x) <= t.nodes.Keys {
      PastIn(d, x);
    }
    PastIn(d', b);
  }

  lemma LeafSpans(t: Tree, t': Tree, d: Dag, d': Dag, b: Hash, p: Hash, parents: set<Hash>)
    requires NewLeaf(t, t', d, d', b, p, parents)
    ensures Spans(t', d')
  {
    LeafFacts(t, t', d, d', b, p, parents);
    GrownFacts(t, t', b, p);
    assert t.origin == d.Root() && t.nodes.Keys == d.Blocks();
    hide Grown, Tree.WF;
    forall x | x in t'.nodes && x != t'.origin ensures t'.Parent(x) in d'.Past(x) {
      if x != b { GrownNode(t, t', b, p, x); }
    }
  }

  lemma LeafListed(t: Tree, t': Tree, d: Dag, d': Dag, b: Hash, p: Hash, parents: set<Hash>, a: Hash, s: seq<Hash>)
    requires NewLeaf(t, t', d, d', b, p, parents) && t.WF() && t'.WF() && Listed(t, d, a, s)
    ensures Listed(t', d', a, s)
  {
    hide NewLeaf, Grown, Tree.WF;
    LeafFacts(t, t', d, d', b, p, parents);
    forall i, j | 0 <= i < j < |s| ensures t'.Before(s[i], s[j]) {
      GrownBefore(t, t', b, p, s[i], s[j]);
    }
  }

  lemma LeafCovered(t: Tree, t': Tree, b: Hash, p: Hash, s: seq<Hash>, x: Hash)
    requires Grown(t, t', b, p) && t.WF() && t'.WF() && x in t'.nodes && (x in t.nodes || x == b)
    requires p in t.nodes && forall i :: 0 <= i < |s| ==> s[i] in t.nodes
    requires b !in t.nodes
    ensures CoveredBy(t', s, x) <==> CoveredBy(t, s, if x == b then p else x)
  {
    hide Grown, Tree.WF;
    var y := if x == b then p else x;
    forall i | 0 <= i < |s| ensures t'.Anc(s[i], x) <==> t.Anc(s[i], y) {
      GrownAnc(t, t', b, p, s[i], x);
    }
  }

  lemma LeafComplete(t: Tree, t': Tree, d: Dag, d': Dag, b: Hash, p: Hash, parents: set<Hash>, fcs: Covering, a: Hash)
    requires NewLeaf(t, t', d, d', b, p, parents) && t.WF() && t'.WF() && Covers(t, fcs, d) && a in t.nodes && a in fcs
    ensures CompleteBut(t', d', a, fcs[a], b, a in MergeSet(d, parents, p))
  {
    hide NewLeaf, Grown, Tree.WF, Covers, MergeSet;
    LeafFacts(t, t', d, d', b, p, parents);
    ListedHere(t, fcs, d, a);
    forall x | x in t'.nodes && a in d'.Past(x)
      ensures t'.Anc(a, x) || CoveredBy(t', fcs[a], x) || (a in MergeSet(d, parents, p) && x == b)
    {
      var y := if x == b then p else x;
      if x == b { MergeSetMember(d, parents, p, a); }
      if Reaches(d, a, y) {
        CoveringDecides(t, fcs, d, a, y);
        LeafCovered(t, t', b, p, fcs[a], x);
        GrownAnc(t, t', b, p, a, x);
      }
    }
  }

  lemma LeafUncovered(t: Tree, t': Tree, d: Dag, d': Dag, b: Hash, p: Hash, parents: set<Hash>, fcs: Covering, a: Hash)
    requires NewLeaf(t, t', d, d', b, p, parents) && t.WF() && t'.WF() && Covers(t, fcs, d) && a in t.nodes && a in fcs
    requires a in MergeSet(d, parents, p)
    ensures b in t'.nodes && a in d'.Past(b) && !CoveredBy(t', fcs[a], b)
  {
    hide NewLeaf, Grown, Tree.WF, Covers, MergeSet, CoveredBy;
    LeafFacts(t, t', d, d', b, p, parents);
    ListedHere(t, fcs, d, a);
    MergeSetMember(d, parents, p, a);
    LeafCovered(t, t', b, p, fcs[a], b);
    CoveringDecides(t, fcs, d, a, p);
  }

  lemma LeafEntering(t: Tree, t': Tree, d: Dag, d': Dag, b: Hash, p: Hash, parents: set<Hash>, fcs: Covering)
    requires NewLeaf(t, t', d, d', b, p, parents) && t.WF() && t'.WF() && Covers(t, fcs, d)
    ensures b in t'.nodes && Entering(t', fcs[b := []], d', b, MergeSet(d, parents, p))
  {
    hide NewLeaf, Grown, Tree.WF, Covers, MergeSet, CoveredBy, Listed, CompleteBut;
    CoversKeys(t, fcs, d);
    LeafFacts(t, t', d, d', b, p, parents);
    var fcs' := fcs[b := []];
    forall a | a in MergeSet(d, parents, p) ensures a in t.nodes && a in d'.Past(b) && !CoveredBy(t', fcs'[a], b) {
      MergeSetMember(d, parents, p, a);
      LeafUncovered(t, t', d, d', b, p, parents, fcs, a);
    }
    forall a | a in t'.nodes
      ensures Listed(t', d', a, fcs'[a]) && CompleteBut(t', d', a, fcs'[a], b, a in MergeSet(d, parents, p)) {
      if a == b {
        NothingListed(t', d', b);
        LeafAbove(t, t', d, d', b, p, parents, b in MergeSet(d, parents, p));
      } else {
        ListedHere(t, fcs, d, a);
        LeafListed(t, t', d, d', b, p, parents, a, fcs[a]);
        LeafComplete(t, t', d, d', b, p, parents, fcs, a);
      }
    }
  }

  lemma CoversKeys(t: Tree, fcs: Covering, d: Dag)
    requires t.WF() && Covers(t, fcs, d)
    ensures fcs.Keys == t.nodes.Keys
  {
  }

  lemma NothingListed(t: Tree, d: Dag, a: Hash)
    requires t.WF()
    ensures Listed(t, d, a, [])
  {
  }

  lemma LeafAbove(t: Tree, t': Tree, d: Dag, d': Dag, b: Hash, p: Hash, parents: set<Hash>, missing: bool)
    requires NewLeaf(t, t', d, d', b, p, parents) && t'.WF()
    ensures CompleteBut(t', d', b, [], b, missing)
  {
    hide NewLeaf;
    LeafFacts(t, t', d, d', b, p, parents);
    PastIn(d', b) by { NewLeafValid(t, t', d, d', b, p, parents); }
  }

  lemma NewLeafValid(t: Tree, t': Tree, d: Dag, d': Dag, b: Hash, p: Hash, parents: set<Hash>)
    requires NewLeaf(t, t', d, d', b, p, parents)
    ensures d'.Valid()
  {
  }

  // ----- entering the new block in the covering sets -----

  function InsertAt(s: seq<Hash>, i: nat, b: Hash): seq<Hash>
    requires i <= |s|
  {
    s[..i] + [b] + s[i..]
  }

  lemma InsertAtIs(s: seq<Hash>, i: nat, b: Hash)
    requires i <= |s|
    ensures |InsertAt(s, i, b)| == |s| + 1
    ensures forall k :: 0 <= k < i ==> InsertAt(s, i, b)[k] == s[k]
    ensures InsertAt(s, i, b)[i] == b
    ensures forall k :: i < k <= |s| ==> InsertAt(s, i, b)[k] == s[k - 1]
  {
  }

  lemma LeafReachesNone(t: Tree, b: Hash, x: Hash)
    requires t.WF() && b in t.nodes && t.Children(b) == [] && x in t.nodes && t.Anc(b, x)
    ensures x == b
  {
    if x != b { var i := ChildToward(t, b, x); }
  }

  /** A new leaf that no listed block reaches lies beside each of them, on the side the labels tell. */
  lemma BesideListed(t: Tree, iv: Labels, c: Hash, b: Hash)
    requires Good(t, iv, NONE) && c in t.nodes && b in t.nodes && t.Children(b) == [] && !t.Anc(c, b)
    ensures iv[c].end < iv[b].end ==> t.Before(c, b)
    ensures iv[b].end < iv[c].start ==> t.Before(b, c)
  {
    assert !IsEmpty(iv[c]) && !IsEmpty(iv[b]);
    hide Good, Tree.WF;
    Trichotomy(t, c, b);
    if t.Anc(b, c) { LeafReachesNone(t, b, c); }
    if t.Before(c, b) { BeforeMeansLeft(t, iv, NONE, c, b); }
    if t.Before(b, c) { BeforeMeansLeft(t, iv, NONE, b, c); }
  }

  lemma InsertedListed(t: Tree, iv: Labels, d: Dag, m: Hash, s: seq<Hash>, b: Hash, i: nat)
    requires Good(t, iv, NONE) && Listed(t, d, m, s) && b in t.nodes && t.Children(b) == [] && m in d.Past(b)
    requires i <= |s| && forall k :: 0 <= k < |s| ==> !t.Anc(s[k], b)
    requires forall k :: 0 <= k < i ==> iv[s[k]].end < iv[b].end
    requires forall k :: i <= k < |s| ==> iv[b].end < iv[s[k]].start
    ensures Listed(t, d, m, InsertAt(s, i, b))
  {
    assert t.WF();
    hide Good, Tree.WF, InsertAt, Tree.Anc, Tree.Before;
    var s' := InsertAt(s, i, b);
    InsertAtIs(s, i, b);
    forall k | 0 <= k < |s'| ensures s'[k] in t.nodes && m in d.Past(s'[k]) {
      if k != i { assert s'[k] == s[if k < i then k else k - 1]; }
    }
    forall j, k | 0 <= j < k < |s'| ensures t.Before(s'[j], s'[k]) {
      if k == i {
        BesideListed(t, iv, s[j], b);
      } else if j == i {
        BesideListed(t, iv, s[k - 1], b);
      } else {
        assert t.Before(s[if j < i then j else j - 1], s[if k < i then k else k - 1]);
      }
    }
  }

  /** Enters `newBlock` in the covering set of `mergedBlock`, in order. An entry that already
      reaches `newBlock` is an error. */
  method InsertToFutureCoveringSet(store: Store, mergedBlock: Hash, newBlock: Hash, ghost d: Dag)
    returns (r: Result<()>)
    requires Good(store.tree, store.interval, NONE) && newBlock in store.tree.nodes
             && store.tree.Children(newBlock) == []
    requires store.futureCovering.Keys == store.tree.nodes.Keys
    requires mergedBlock in store.tree.nodes ==>
               Listed(store.tree, d, mergedBlock, store.futureCovering[mergedBlock]) && mergedBlock in d.Past(newBlock)
    modifies store`futureCovering
    ensures mergedBlock !in store.tree.nodes ==> r == Err(KeyNotFound) && unchanged(store)
    ensures mergedBlock in store.tree.nodes
            && CoveredBy(store.tree, old(store.futureCovering)[mergedBlock], newBlock) ==>
              r == Err(DataInconsistency) && unchanged(store)
    ensures mergedBlock in store.tree.nodes
            && !CoveredBy(store.tree, old(store.futureCovering)[mergedBlock], newBlock) ==>
              var s := old(store.futureCovering)[mergedBlock];
              && r.Ok?
              && (exists i: nat :: i <= |s|
                                   && store.futureCovering
                                   == old(store.futureCovering)[mergedBlock := InsertAt(s, i, newBlock)])
              && Listed(store.tree, d, mergedBlock, store.futureCovering[mergedBlock])
  {
    var t, iv, fcs := store.tree, store.interval, store.futureCovering;
    if mergedBlock !in fcs {
      return Err(KeyNotFound);
    }
    hide *;
    GoodWF(t, iv);
    var s := fcs[mergedBlock];
    ListedOrdered(t, iv, d, mergedBlock, s);
    ListedSeparates(t, iv, s, newBlock);
    var out := BinarySearchDescendant(iv, s, newBlock);
    SearchMeans(t, s, newBlock, out);
    if out.Found? {
      return Err(DataInconsistency);
    }
    InsertedListed(t, iv, d, mergedBlock, s, newBlock, out.index);
    store.futureCovering := fcs[mergedBlock := InsertAt(s, out.index, newBlock)];
    return Ok(());
  }

  lemma InsertedCovers(t: Tree, d: Dag, a: Hash, s: seq<Hash>, b: Hash, i: nat, missing: bool)
    requires t.WF() && b in t.nodes && i <= |s| && CompleteBut(t, d, a, s, b, missing)
    ensures CompleteBut(t, d, a, InsertAt(s, i, b), b, false)
  {
    var s' := InsertAt(s, i, b);
    assert s'[i] == b && t.Anc(b, b);
    forall x | x in t.nodes && CoveredBy(t, s, x) ensures CoveredBy(t, s', x) {
      var k :| 0 <= k < |s| && t.Anc(s[k], x);
      assert s'[if k < i then k else k + 1] == s[k];
    }
  }

  lemma EnteringStep(t: Tree, d: Dag, b: Hash, todo: set<Hash>, fcs: Covering, fcs': Covering, m: Hash, i: nat)
    requires t.WF() && b in t.nodes && Entering(t, fcs, d, b, todo) && m in todo && m in t.nodes
    requires i <= |fcs[m]| && fcs' == fcs[m := InsertAt(fcs[m], i, b)] && Listed(t, d, m, fcs'[m])
    ensures Entering(t, fcs', d, b, todo - {m})
  {
    hide Listed, CompleteBut, CoveredBy, Tree.WF;
    InsertedCovers(t, d, m, fcs[m], b, i, true);
  }

  lemma EnteringDone(t: Tree, fcs: Covering, d: Dag, b: Hash)
    requires t.WF() && b in t.nodes && Entering(t, fcs, d, b, {})
    ensures Covers(t, fcs, d)
  {
    hide Listed, CoveredBy, Tree.WF;
    forall a | a in t.nodes ensures Complete(t, d, a, fcs[a]) {
      assert CompleteBut(t, d, a, fcs[a], b, false);
    }
  }

  lemma EnteringHere(t: Tree, fcs: Covering, d: Dag, b: Hash, todo: set<Hash>, m: Hash)
    requires t.WF() && b in t.nodes && Entering(t, fcs, d, b, todo) && m in todo
    ensures fcs.Keys == t.nodes.Keys && m in t.nodes && Listed(t, d, m, fcs[m]) && m in d.Past(b)
            && !CoveredBy(t, fcs[m], b)
  {
  }

  lemma ElementsStep(s: seq<Hash>, i: nat)
    requires i < |s| && NoDup(s)
    ensures s[i] in Elems(s[i..]) && Elems(s[i + 1..]) == Elems(s[i..]) - {s[i]}
  {
    assert s[i..][0] == s[i] && s[i..][1..] == s[i + 1..];
    forall x | x in s[i..] && x != s[i] ensures x in s[i + 1..] {
      var k :| 0 <= k < |s[i..]| && s[i..][k] == x;
      assert s[i + 1..][k - 1] == x;
    }
  }

  /** Enters `newBlock` in the covering set of every block it merges. */
  method AddDagBlock(store: Store, newBlock: Hash, mergeset: seq<Hash>, ghost d: Dag) returns (r: Result<()>)
    requires Good(store.tree, store.interval, NONE) && newBlock in store.tree.nodes
             && store.tree.Children(newBlock) == []
    requires NoDup(mergeset) && Entering(store.tree, store.futureCovering, d, newBlock, Elems(mergeset))
    modifies store`futureCovering
    ensures r.Ok? && Covers(store.tree, store.futureCovering, d)
  {
    hide *;
    var t := store.tree;
    GoodWF(t, store.interval);
    assert mergeset[0..] == mergeset;
    for i := 0 to |mergeset|
      invariant Entering(t, store.futureCovering, d, newBlock, Elems(mergeset[i..]))
    {
      ghost var fcs := store.futureCovering;
      ElementsStep(mergeset, i);
      EnteringHere(t, fcs, d, newBlock, Elems(mergeset[i..]), mergeset[i]);
      var inserted := InsertToFutureCoveringSet(store, mergeset[i], newBlock, d);
      if inserted.Err? {
        return inserted;
      }
      ghost var at: nat :| at <= |fcs[mergeset[i]]|
        && store.futureCovering == fcs[mergeset[i] := InsertAt(fcs[mergeset[i]], at, newBlock)];
      EnteringStep(t, d, newBlock, Elems(mergeset[i..]), fcs, store.futureCovering, mergeset[i], at);
    }
    assert Elems(mergeset[|mergeset|..]) == {} by { NoElems(mergeset); }
    EnteringDone(t, store.futureCovering, d, newBlock);
    r := Ok(());
  }

  lemma GoodWF(t: Tree, iv: Labels)
    requires Good(t, iv, NONE)
    ensures t.WF() && iv.Keys == t.nodes.Keys
  {
  }

  lemma NoElems(s: seq<Hash>)
    ensures Elems(s[|s|..]) == {}
  {
  }

  /** Adds a block with the given parents. The reachability data mirror the grown DAG, as long
      as the caller names the true selected parent and mergeset and labels cannot run out. */
  method AddBlock(store: Store, newBlock: Hash, selectedParent: Hash, mergeset: seq<Hash>, slack: nat,
                  ghost d: Dag, ghost parents: set<Hash>)
    returns (r: Result<()>)
    requires Mirrors(store.tree, store.interval, store.futureCovering, store.reindexRoot, d, slack)
    requires newBlock != NONE && Block(d, newBlock, parents).Valid() && selectedParent in parents
    requires NoDup(mergeset) && Elems(mergeset) == MergeSet(d, parents, selectedParent)
    requires store.tree.origin in store.interval
             && Roomy(|store.tree.nodes| + 1, slack, Size(store.interval[store.tree.origin]))
    modifies store`tree, store`interval, store`futureCovering
    ensures r.Ok? && store.tree == old(store.tree).Insert(newBlock, selectedParent)
    ensures Mirrors(store.tree, store.interval, store.futureCovering, store.reindexRoot, Block(d, newBlock, parents),
                    slack)
    ensures store.tree.origin in store.interval
            && store.interval[store.tree.origin] == old(store.interval[store.tree.origin])
  {
    hide *;
    ghost var t, fcs := store.tree, store.futureCovering;
    BlockReady(t, store.interval, fcs, store.reindexRoot, d, slack, newBlock, selectedParent, parents);
    var added := AddTreeBlock(store, newBlock, selectedParent, slack);
    if added.Err? {
      return added;
    }
    BlockEntering(t, store.tree, store.interval, fcs, store.reindexRoot, d, slack, newBlock, selectedParent, parents);
    r := AddDagBlock(store, newBlock, mergeset, Block(d, newBlock, parents));
    MirrorsNow(store.tree, store.interval, store.futureCovering, store.reindexRoot, Block(d, newBlock, parents), slack);
  }

  lemma BlockReady(t: Tree, iv: Labels, fcs: Covering, root: Hash, d: Dag, slack: nat, b: Hash, p: Hash,
                   parents: set<Hash>)
    requires Mirrors(t, iv, fcs, root, d, slack)
    requires Block(d, b, parents).Valid() && p in parents
    ensures Sound(t, iv, root, slack) && p in t.nodes && b !in t.nodes && t.origin in t.nodes && t.origin in iv
    ensures Spans(t, d) && t.WF() && Covers(t, fcs, d)
  {
    hide Mirrors, Sound, Spans, Covers, Tree.WF, Good;
    MirrorFacts(t, iv, fcs, root, d, slack);
  }

  lemma BlockEntering(t: Tree, t': Tree, iv: Labels, fcs: Covering, root: Hash, d: Dag, slack: nat, b: Hash, p: Hash,
                      parents: set<Hash>)
    requires Spans(t, d) && t.WF() && Covers(t, fcs, d) && Sound(t', iv, root, slack)
    requires b != NONE && Block(d, b, parents).Valid() && p in parents && p in t.nodes && t' == t.Insert(b, p)
    ensures Good(t', iv, NONE) && t'.WF() && b in t'.nodes && t'.Children(b) == []
    ensures Entering(t', fcs[b := []], Block(d, b, parents), b, MergeSet(d, parents, p))
    ensures Spans(t', Block(d, b, parents))
  {
    hide *;
    var d' := Block(d, b, parents);
    SoundGood(t', iv, root, slack);
    LeafNow(t, t', d, d', b, p, parents);
    LeafFacts(t, t', d, d', b, p, parents);
    LeafEntering(t, t', d, d', b, p, parents, fcs);
    LeafSpans(t, t', d, d', b, p, parents);
  }

  lemma LeafNow(t: Tree, t': Tree, d: Dag, d': Dag, b: Hash, p: Hash, parents: set<Hash>)
    requires Spans(t, d) && d' == Block(d, b, parents) && d'.Valid() && p in parents && b != NONE && p in t.nodes
    requires t' == t.Insert(b, p)
    ensures NewLeaf(t, t', d, d', b, p, parents)
  {
    hide Grown;
    InsertGrows(t, b, p);
  }

  lemma MirrorsNow(t: Tree, iv: Labels, fcs: Covering, root: Hash, d: Dag, slack: nat)
    requires Sound(t, iv, root, slack) && Spans(t, d) && t.WF() && Covers(t, fcs, d)
    ensures Mirrors(t, iv, fcs, root, d, slack) && t.origin in iv
  {
    hide Good, LeanChain, Covers;
    SoundFacts(t, iv, root, slack);
  }

  /** A hint about the virtual selected parent moves labels around but changes no answer. */
  method HintVirtualSelectedParent(store: Store, hint: Hash, depth: nat, slack: nat, ghost d: Dag)
    returns (r: Result<()>)
    requires Mirrors(store.tree, store.interval, store.futureCovering, store.reindexRoot, d, slack)
    requires store.tree.origin in store.interval
             && Roomy(|store.tree.nodes|, slack, Size(store.interval[store.tree.origin]))
    modifies store`interval, store`reindexRoot
    ensures Mirrors(store.tree, store.interval, store.futureCovering, store.reindexRoot, d, slack)
    ensures store.tree.origin in store.interval
            && store.interval[store.tree.origin] == old(store.interval[store.tree.origin])
    ensures hint in store.tree.nodes && hint != old(store.reindexRoot) && depth > 0 ==> r.Ok?
  {
    hide *;
    MirrorFacts(store.tree, store.interval, store.futureCovering, store.reindexRoot, d, slack);
    r := TryAdvancingReindexRoot(store, hint, depth, slack);
    MirrorsNow(store.tree, store.interval, store.futureCovering, store.reindexRoot, d, slack);
  }

  /** The freshly initialised store mirrors the DAG that holds only the origin. */
  lemma InitMirrors(origin: Hash, capacity: Interval, slack: nat)
    requires origin != NONE && !IsEmpty(capacity)
    ensures Mirrors(Tree(origin, map[origin := Node(NONE, [], 0)]), map[origin := capacity], map[origin := []], origin,
                    Origin(origin), slack)
  {
    var t := Tree(origin, map[origin := Node(NONE, [], 0)]);
    var iv: Labels := map[origin := capacity];
    assert t.NodeWF(origin);
    assert iv.Keys == t.nodes.Keys == {origin};
    assert t.WF();
    assert Placed(t, iv, origin);
    forall x | x in t.nodes && x != origin && t.Anc(x, origin) ensures false {}
  }
}
