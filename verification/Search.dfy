/** Binary search for the block of an ordered list whose interval contains a given block. */
module DescendantSearch {
  import opened Hashes
  import opened Intervals
  import opened ReachabilityTree
  import opened ReachabilityStore

  datatype SearchOutput = NotFound(index: nat) | Found(hash: Hash, index: nat)

  /** The listed intervals lie strictly left to right. */
  ghost predicate Ordered(iv: Labels, hashes: seq<Hash>) {
    && (forall i :: 0 <= i < |hashes| ==> hashes[i] in iv)
    && (forall i, j :: 0 <= i < j < |hashes| ==> iv[hashes[i]].end < iv[hashes[j]].start)
  }

  /** The last label of `d` is inside `i`, or is where `i` starts. */
  predicate Meets(i: Interval, d: Interval) {
    i.start <= d.end && (d.end <= i.end || i.start == d.end)
  }

  /** A listed interval that reaches the last label of `d` contains all of `d`. */
  ghost predicate Separates(iv: Labels, hashes: seq<Hash>, d: Interval)
    requires Ordered(iv, hashes)
  {
    forall i :: 0 <= i < |hashes| && Meets(iv[hashes[i]], d) ==> Contains(iv[hashes[i]], d)
  }

  /** Finds the listed block whose interval meets that of `descendant`; otherwise no listed interval
      contains it, and the position is where `descendant` would be inserted. */
  method BinarySearchDescendant(iv: Labels, hashes: seq<Hash>, descendant: Hash) returns (out: SearchOutput)
    requires descendant in iv && !IsEmpty(iv[descendant]) && Ordered(iv, hashes)
    ensures out.Found? ==> out.index < |hashes| && out.hash == hashes[out.index] && Meets(iv[out.hash], iv[descendant])
    ensures out.Found? && Separates(iv, hashes, iv[descendant]) ==> Contains(iv[out.hash], iv[descendant])
    ensures out.NotFound? ==>
              && out.index <= |hashes|
              && (forall k :: 0 <= k < |hashes| ==> !Contains(iv[hashes[k]], iv[descendant]))
              && (forall k :: out.index <= k < |hashes| ==> iv[descendant].end < iv[hashes[k]].start)
    ensures out.NotFound? && Separates(iv, hashes, iv[descendant]) ==>
              forall k :: 0 <= k < out.index ==> iv[hashes[k]].end < iv[descendant].end
  {
    var point := iv[descendant].end;
    var lo, hi := 0, |hashes|;
    while lo < hi
      invariant 0 <= lo <= hi <= |hashes|
      invariant forall k :: 0 <= k < lo ==> iv[hashes[k]].start < point
      invariant forall k :: hi <= k < |hashes| ==> point < iv[hashes[k]].start
    {
      var mid := (lo + hi) / 2;
      if iv[hashes[mid]].start == point {
        return Found(hashes[mid], mid);
      } else if iv[hashes[mid]].start < point {
        StartsIncrease(iv, hashes, mid);
        lo := mid + 1;
      } else {
        StartsIncrease(iv, hashes, mid);
        hi := mid;
      }
    }
    if lo > 0 && Contains(iv[hashes[lo - 1]], iv[descendant]) {
      return Found(hashes[lo - 1], lo - 1);
    }
    forall k | 0 <= k < lo - 1 ensures iv[hashes[k]].end < point {
      assert iv[hashes[k]].end < iv[hashes[lo - 1]].start;
    }
    return NotFound(lo);
  }

  lemma StartsIncrease(iv: Labels, hashes: seq<Hash>, m: nat)
    requires Ordered(iv, hashes) && m < |hashes|
    ensures forall k :: 0 <= k < m ==> iv[hashes[k]].start <= iv[hashes[m]].start
    ensures forall k :: m <= k < |hashes| ==> iv[hashes[m]].start <= iv[hashes[k]].start
  {
    forall k | 0 <= k < m ensures iv[hashes[k]].start <= iv[hashes[m]].start {
      assert iv[hashes[k]].end < iv[hashes[m]].start;
    }
    forall k | m <= k < |hashes| ensures iv[hashes[m]].start <= iv[hashes[k]].start {
      if m < k { assert iv[hashes[m]].end < iv[hashes[k]].start; }
    }
  }

  /** Children in order, of which only the last may be empty. */
  ghost predicate InOrder(t: Tree, iv: Labels, a: Hash)
    requires t.WF() && iv.Keys == t.nodes.Keys && a in t.nodes
  {
    && Consecutive(t, iv, a)
    && forall k :: 0 <= k < |t.Children(a)| - 1 ==> !IsEmpty(iv[t.Children(a)[k]])
  }

  lemma ChildrenOrdered(t: Tree, iv: Labels, a: Hash)
    requires t.WF() && iv.Keys == t.nodes.Keys && a in t.nodes && InOrder(t, iv, a)
    ensures Ordered(iv, t.Children(a))
  {
    forall i, j | 0 <= i < j < |t.Children(a)| ensures iv[t.Children(a)[i]].end < iv[t.Children(a)[j]].start {
      SiblingsOrdered(t, iv, a, i, j);
    }
  }

  /** The children of `a` separate any block below the `i`-th child. */
  lemma ChildrenSeparate(t: Tree, iv: Labels, a: Hash, i: nat, d: Interval)
    requires t.WF() && iv.Keys == t.nodes.Keys && a in t.nodes && InOrder(t, iv, a)
    requires i < |t.Children(a)| && Contains(iv[t.Children(a)[i]], d) && !IsEmpty(d)
    ensures Ordered(iv, t.Children(a)) && Separates(iv, t.Children(a), d)
    ensures forall k :: 0 <= k < |t.Children(a)| && Contains(iv[t.Children(a)[k]], d) ==> k == i
  {
    ChildrenOrdered(t, iv, a);
    var cs := t.Children(a);
    forall k | 0 <= k < |cs| && k != i ensures !Meets(iv[cs[k]], d) {
      if k < i {
        assert iv[cs[k]].end < iv[cs[i]].start;
      } else {
        assert iv[cs[i]].end < iv[cs[k]].start;
      }
    }
  }

  /** Everything from below `a` down to `b` lies where it belongs. */
  ghost predicate PathPlaced(t: Tree, iv: Labels, a: Hash, b: Hash)
    requires t.WF() && iv.Keys == t.nodes.Keys && b in t.nodes
  {
    forall x :: x in t.nodes && x != a && t.Anc(a, x) && t.Anc(x, b) ==> Placed(t, iv, x)
  }

  /** Finds the child of `ancestor` whose interval meets that of `descendant`, if any. For a strict
      descendant with a labelled path this is the child on the way to it. */
  method NextChainAncestorUnchecked(t: Tree, iv: Labels, descendant: Hash, ancestor: Hash) returns (r: Result<Hash>)
    requires t.WF() && iv.Keys == t.nodes.Keys && descendant in t.nodes && ancestor in t.nodes
    requires InOrder(t, iv, ancestor) && !IsEmpty(iv[descendant])
    ensures r.Ok? ==>
              r.value in t.nodes && r.value != t.origin && t.Parent(r.value) == ancestor
                && Meets(iv[r.value], iv[descendant])
    ensures r.Err? ==>
              r.error == BadQuery
                && forall k :: 0 <= k < |t.Children(ancestor)| ==>
                                 !Contains(iv[t.Children(ancestor)[k]], iv[descendant])
    ensures ancestor != descendant && t.Anc(ancestor, descendant) && PathPlaced(t, iv, ancestor, descendant) ==>
              r.Ok? && t.Anc(r.value, descendant)
  {
    ChildrenOrdered(t, iv, ancestor);
    var out := BinarySearchDescendant(iv, t.Children(ancestor), descendant);
    if ancestor != descendant && t.Anc(ancestor, descendant) && PathPlaced(t, iv, ancestor, descendant) {
      OnTheWay(t, iv, descendant, ancestor);
    }
    r := if out.Found? then Ok(out.hash) else Err(BadQuery);
  }

  /** Only the child on the way to `d` meets it. */
  lemma OnTheWay(t: Tree, iv: Labels, d: Hash, a: Hash)
    requires t.WF() && iv.Keys == t.nodes.Keys && d in t.nodes && a in t.nodes && InOrder(t, iv, a) && !IsEmpty(iv[d])
    requires a != d && t.Anc(a, d) && PathPlaced(t, iv, a, d)
    ensures exists k :: 0 <= k < |t.Children(a)| && Contains(iv[t.Children(a)[k]], iv[d])
    ensures forall k :: 0 <= k < |t.Children(a)| && Meets(iv[t.Children(a)[k]], iv[d]) ==> t.Anc(t.Children(a)[k], d)
  {
    var i := ChildToward(t, a, d);
    ChildDesc(t, a, i);
    PathContains(t, iv, t.Children(a)[i], d);
    ChildrenSeparate(t, iv, a, i, iv[d]);
  }

  lemma {:induction false} PathContains(t: Tree, iv: Labels, a: Hash, b: Hash)
    requires t.WF() && iv.Keys == t.nodes.Keys && a in t.nodes && b in t.nodes && t.Anc(a, b)
    requires forall x :: x in t.nodes && t.Anc(a, x) && t.Anc(x, b) ==> Placed(t, iv, x)
    ensures Contains(iv[a], iv[b])
    decreases t.Height(b)
  {
    if a != b {
      var p := t.Parent(b);
      forall x | x in t.nodes && t.Anc(a, x) && t.Anc(x, p) ensures t.Anc(x, b) {}
      PathContains(t, iv, a, p);
      var i :| 0 <= i < |t.Children(p)| && t.Children(p)[i] == b;
      assert t.Anc(p, p) && t.Anc(p, b);
      assert Placed(t, iv, p);
    }
  }
}
