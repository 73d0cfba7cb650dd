/** Counting subtree sizes with the queue-based traversal used during reindexing. */
module SubtreeCount {
  import opened Hashes
  import opened ReachabilityTree

  /** A cache of subtree sizes: correct, and closed under taking children. */
  ghost predicate SizesOk(t: Tree, sizes: map<Hash, nat>)
    requires t.WF()
  {
    forall b :: b in sizes ==>
      && b in t.nodes && sizes[b] == t.SubtreeSize(b)
      && forall i :: 0 <= i < |t.Children(b)| ==> t.Children(b)[i] in sizes
  }

  function CountIn(s: seq<Hash>, done: set<Hash>): nat {
    if s == [] then 0 else CountIn(s[..|s| - 1], done) + if s[|s| - 1] in done then 1 else 0
  }

  lemma {:induction false} CountInAll(s: seq<Hash>, done: set<Hash>)
    ensures CountIn(s, done) <= |s|
    ensures CountIn(s, done) == |s| <==> forall i :: 0 <= i < |s| ==> s[i] in done
  {
    if s != [] {
      CountInAll(s[..|s| - 1], done);
    }
  }

  lemma {:induction false} CountInAdd(s: seq<Hash>, done: set<Hash>, x: Hash)
    requires NoDup(s) && x !in done
    ensures CountIn(s, done + {x}) == CountIn(s, done) + if x in s then 1 else 0
  {
    if s != [] {
      CountInAdd(s[..|s| - 1], done, x);
    }
  }

  lemma {:induction false} CountInNone(s: seq<Hash>, done: set<Hash>)
    requires forall i :: 0 <= i < |s| ==> s[i] !in done
    ensures CountIn(s, done) == 0
  {
    if s != [] {
      CountInNone(s[..|s| - 1], done);
    }
  }

  function Get(counts: map<Hash, nat>, b: Hash): nat {
    if b in counts then counts[b] else 0
  }

  function SumOf(sizes: map<Hash, nat>, cs: seq<Hash>): nat
    requires forall i :: 0 <= i < |cs| ==> cs[i] in sizes
  {
    if cs == [] then 0 else SumOf(sizes, cs[..|cs| - 1]) + sizes[cs[|cs| - 1]]
  }

  lemma {:induction false} SumOfSizes(t: Tree, sizes: map<Hash, nat>, cs: seq<Hash>)
    requires t.WF() && SizesOk(t, sizes)
    requires forall i :: 0 <= i < |cs| ==> cs[i] in sizes
    ensures SumOf(sizes, cs) == t.SumSizes(cs)
  {
    if cs != [] {
      SumOfSizes(t, sizes, cs[..|cs| - 1]);
    }
  }

  /** The traversal state: `waiting` blocks are in the queue, `open` blocks were expanded and
      still miss the size of a child, `done` blocks have a known size which their parent has
      counted -- except that the parent of `up`, if any, has not counted it yet. */
  ghost predicate Traversal(t: Tree, block: Hash, sizes: map<Hash, nat>, counts: map<Hash, nat>,
                            waiting: set<Hash>, open: set<Hash>, done: set<Hash>, up: Hash)
    requires t.WF()
  {
    && SizesOk(t, sizes)
    && Region(t, block, sizes, waiting, open, done)
    && counts.Keys <= open + done
    && (forall q :: q in open ==> OpenOk(t, block, counts, waiting + open + done, done, up, q))
  }

  ghost predicate Region(t: Tree, block: Hash, sizes: map<Hash, nat>, waiting: set<Hash>, open: set<Hash>,
                         done: set<Hash>)
    requires t.WF()
  {
    && waiting + open + done <= t.nodes.Keys
    && waiting !! open && waiting !! done && open !! done
    && block in waiting + open + done
    && (forall q :: q in waiting + open ==> t.Anc(block, q) && (q != block ==> t.Parent(q) in open))
    && (forall q :: q in open ==> q !in sizes)
    && (forall q :: q in done ==> q in sizes && (q != block ==> t.Parent(q) in open + done))
  }

  ghost predicate OpenOk(t: Tree, block: Hash, counts: map<Hash, nat>, seen: set<Hash>, done: set<Hash>, up: Hash,
                         q: Hash)
    requires t.WF() && q in t.nodes
  {
    && (forall i :: 0 <= i < |t.Children(q)| ==> t.Children(q)[i] in seen)
    && Get(counts, q) < |t.Children(q)|
    && CountIn(t.Children(q), done) ==
       Get(counts, q) + if up in t.nodes && up != block && t.Parent(up) == q then 1 else 0
  }

  lemma Start(t: Tree, block: Hash, sizes: map<Hash, nat>)
    requires t.WF() && block in t.nodes && SizesOk(t, sizes)
    ensures Traversal(t, block, sizes, map[], {block}, {}, {}, NONE)
  {
  }

  lemma Queued(t: Tree, block: Hash, sizes: map<Hash, nat>, counts: map<Hash, nat>,
               waiting: set<Hash>, open: set<Hash>, done: set<Hash>, c: Hash)
    requires t.WF() && Traversal(t, block, sizes, counts, waiting, open, done, NONE) && c in waiting
    ensures c in t.nodes && c !in open + done
  {
  }

  /** The start block has no one to push its size to. */
  lemma AtTop(t: Tree, block: Hash, sizes: map<Hash, nat>, counts: map<Hash, nat>,
              waiting: set<Hash>, open: set<Hash>, done: set<Hash>)
    requires t.WF() && Traversal(t, block, sizes, counts, waiting, open, done, block)
    ensures Traversal(t, block, sizes, counts, waiting, open, done, NONE)
  {
    forall q | q in open ensures OpenOk(t, block, counts, waiting + open + done, done, NONE, q) {
      assert OpenOk(t, block, counts, waiting + open + done, done, block, q);
    }
  }

  lemma ChildSet(t: Tree, p: Hash, x: Hash)
    requires t.WF() && p in t.nodes && x in t.nodes
    ensures NoDup(t.Children(p))
    ensures x in t.Children(p) <==> x != t.origin && t.Parent(x) == p
  {
    assert t.NodeWF(p) && t.NodeWF(x);
  }

  /** `x` is a child of `c` below `block` that has not been met. */
  ghost predicate Unseen(t: Tree, block: Hash, seen: set<Hash>, c: Hash, x: Hash)
    requires t.WF()
  {
    x !in seen && x in t.nodes && t.Anc(block, x) && t.Parent(x) == c
  }

  lemma UnseenChild(t: Tree, block: Hash, sizes: map<Hash, nat>, waiting: set<Hash>, open: set<Hash>, done: set<Hash>,
                    c: Hash, x: Hash)
    requires t.WF() && c in waiting && Region(t, block, sizes, waiting, open, done) && x in Elems(t.Children(c))
    ensures Unseen(t, block, waiting + open + done, c, x)
  {
    hide Tree.WF;
    var i :| 0 <= i < |t.Children(c)| && t.Children(c)[i] == x;
    ChildDesc(t, c, i);
    AncTrans(t, block, c, x);
    if x == block { AncHeight(t, block, c); }
  }

  lemma RegionFacts(t: Tree, block: Hash, sizes: map<Hash, nat>, waiting: set<Hash>, open: set<Hash>, done: set<Hash>,
                    c: Hash)
    requires t.WF() && c in waiting && Region(t, block, sizes, waiting, open, done)
    ensures c in t.nodes && c !in open && c !in done && open <= t.nodes.Keys
  {
    hide Tree.WF;
  }

  lemma KidsApart(t: Tree, block: Hash, waiting: set<Hash>, open: set<Hash>, done: set<Hash>, c: Hash, kids: set<Hash>)
    requires t.WF() && forall x :: x in kids ==> Unseen(t, block, waiting + open + done, c, x)
    ensures kids !! waiting && kids !! done
  {
    hide Tree.WF;
  }

  lemma ExpandRegion(t: Tree, block: Hash, sizes: map<Hash, nat>, waiting: set<Hash>, open: set<Hash>, done: set<Hash>,
                     c: Hash, kids: set<Hash>)
    requires t.WF() && c in waiting && c !in sizes && Region(t, block, sizes, waiting, open, done)
    requires forall x :: x in kids ==> Unseen(t, block, waiting + open + done, c, x)
    ensures Region(t, block, sizes, waiting - {c} + kids, open + {c}, done)
  {
    hide Tree.WF;
  }

  lemma OpenWider(t: Tree, block: Hash, counts: map<Hash, nat>, seen: set<Hash>, wider: set<Hash>, done: set<Hash>,
                  q: Hash)
    requires t.WF() && q in t.nodes && seen <= wider && OpenOk(t, block, counts, seen, done, NONE, q)
    ensures OpenOk(t, block, counts, wider, done, NONE, q)
  {
    hide Tree.WF;
  }

  lemma OpenNew(t: Tree, block: Hash, counts: map<Hash, nat>, seen: set<Hash>, done: set<Hash>, c: Hash)
    requires t.WF() && c in t.nodes && c !in counts && t.Children(c) != []
    requires Elems(t.Children(c)) <= seen && Elems(t.Children(c)) !! done
    ensures OpenOk(t, block, counts, seen, done, NONE, c)
  {
    CountInNone(t.Children(c), done);
    assert NONE !in t.nodes;
    hide Tree.WF;
  }

  lemma Expand(t: Tree, block: Hash, sizes: map<Hash, nat>, counts: map<Hash, nat>,
               waiting: set<Hash>, open: set<Hash>, done: set<Hash>, c: Hash)
    requires t.WF() && c in waiting && Traversal(t, block, sizes, counts, waiting, open, done, NONE)
    requires t.Children(c) != [] && c !in sizes
    ensures Elems(t.Children(c)) !! waiting && NoDup(t.Children(c))
    ensures Traversal(t, block, sizes, counts, waiting - {c} + Elems(t.Children(c)), open + {c}, done, NONE)
  {
    hide Tree.WF, OpenOk, Elems, NoDup, Region, SizesOk;
    RegionFacts(t, block, sizes, waiting, open, done, c);
    var kids := Elems(t.Children(c));
    ChildSet(t, c, c);
    forall x | x in kids ensures Unseen(t, block, waiting + open + done, c, x) {
      UnseenChild(t, block, sizes, waiting, open, done, c, x);
    }
    ExpandRegion(t, block, sizes, waiting, open, done, c, kids);
    var seen := waiting - {c} + kids + (open + {c}) + done;
    assert waiting + open + done <= seen;
    KidsApart(t, block, waiting, open, done, c, kids);
    OpenNew(t, block, counts, seen, done, c);
    forall q | q in open ensures OpenOk(t, block, counts, seen, done, NONE, q) {
      OpenWider(t, block, counts, waiting + open + done, seen, done, q);
    }
  }

  /** One more block with a known size: the parent now misses it by one. */
  lemma CountChild(t: Tree, block: Hash, counts: map<Hash, nat>, seen: set<Hash>, done: set<Hash>, up: Hash, c: Hash,
                   q: Hash)
    requires t.WF() && q in t.nodes && c in t.nodes && q != c && c !in done
    requires OpenOk(t, block, counts, seen, done, up, q)
    requires up in t.nodes && up != block ==> t.Parent(up) != q
    requires t.Anc(block, c) && t.Anc(block, q)
    ensures OpenOk(t, block, counts, seen, done + {c}, c, q)
  {
    ChildSet(t, q, c);
    CountInAdd(t.Children(q), done, c);
    if c == block && c != t.origin && t.Parent(c) == q { AncHeight(t, block, q); }
  }

  lemma Pop(t: Tree, block: Hash, sizes: map<Hash, nat>, counts: map<Hash, nat>,
            waiting: set<Hash>, open: set<Hash>, done: set<Hash>, c: Hash, sizes': map<Hash, nat>)
    requires t.WF() && c in waiting && Traversal(t, block, sizes, counts, waiting, open, done, NONE)
    requires sizes' == if t.Children(c) == [] then sizes[c := 1] else sizes
    requires c in sizes'
    ensures Traversal(t, block, sizes', counts, waiting - {c}, open, done + {c}, c)
    ensures c in t.nodes && (c != block ==> c != t.origin && t.Parent(c) in open)
  {
    SubtreeSizeRec(t, c);
    assert (waiting - {c}) + open + (done + {c}) == waiting + open + done;
    forall q | q in open ensures OpenOk(t, block, counts, waiting + open + done, done + {c}, c, q) {
      assert OpenOk(t, block, counts, waiting + open + done, done, NONE, q);
      CountChild(t, block, counts, waiting + open + done, done, NONE, c, q);
    }
  }

  lemma Pushed(t: Tree, block: Hash, sizes: map<Hash, nat>, counts: map<Hash, nat>,
               waiting: set<Hash>, open: set<Hash>, done: set<Hash>, up: Hash, p: Hash)
    requires t.WF() && Traversal(t, block, sizes, counts, waiting, open, done, up)
    requires up in done && up != block && p == t.Parent(up) && p in open
    requires Get(counts, p) + 1 < |t.Children(p)|
    ensures Traversal(t, block, sizes, counts[p := Get(counts, p) + 1], waiting, open, done, NONE)
  {
    var counts' := counts[p := Get(counts, p) + 1];
    forall q | q in open ensures OpenOk(t, block, counts', waiting + open + done, done, NONE, q) {
      assert OpenOk(t, block, counts, waiting + open + done, done, up, q);
    }
  }

  lemma AllCounted(t: Tree, block: Hash, sizes: map<Hash, nat>, counts: map<Hash, nat>,
                   waiting: set<Hash>, open: set<Hash>, done: set<Hash>, up: Hash, p: Hash)
    requires t.WF() && Traversal(t, block, sizes, counts, waiting, open, done, up)
    requires up in done && up != block && p == t.Parent(up) && p in open
    requires Get(counts, p) + 1 >= |t.Children(p)|
    ensures forall i :: 0 <= i < |t.Children(p)| ==> t.Children(p)[i] in done && t.Children(p)[i] in sizes
    ensures SumOf(sizes, t.Children(p)) + 1 == t.SubtreeSize(p)
  {
    assert OpenOk(t, block, counts, waiting + open + done, done, up, p);
    CountInAll(t.Children(p), done);
    SumOfSizes(t, sizes, t.Children(p));
    SubtreeSizeRec(t, p);
  }

  lemma CompletedRegion(t: Tree, block: Hash, sizes: map<Hash, nat>,
                        waiting: set<Hash>, open: set<Hash>, done: set<Hash>, p: Hash, sizes': map<Hash, nat>)
    requires t.WF() && Region(t, block, sizes, waiting, open, done) && p in open
    requires forall i :: 0 <= i < |t.Children(p)| ==> t.Children(p)[i] in done
    requires sizes'.Keys == sizes.Keys + {p}
    ensures Region(t, block, sizes', waiting, open - {p}, done + {p})
    ensures p != block ==> p != t.origin && t.Parent(p) in open - {p}
  {
    forall q | q in waiting + (open - {p}) && q != block ensures t.Parent(q) in open - {p} {
      ChildSet(t, p, q);
    }
  }

  lemma CompletedCounts(t: Tree, block: Hash, counts: map<Hash, nat>, seen: set<Hash>, open: set<Hash>,
                        done: set<Hash>, up: Hash, p: Hash)
    requires t.WF() && open <= t.nodes.Keys && open !! done && p in open
    requires up in t.nodes && up != block && p == t.Parent(up)
    requires forall q :: q in open ==> t.Anc(block, q)
    requires forall q :: q in open ==> OpenOk(t, block, counts, seen, done, up, q)
    ensures forall q :: q in open - {p} ==> OpenOk(t, block, counts[p := Get(counts, p) + 1], seen, done + {p}, p, q)
  {
    var counts' := counts[p := Get(counts, p) + 1];
    forall q | q in open - {p} ensures OpenOk(t, block, counts', seen, done + {p}, p, q) {
      CountChild(t, block, counts, seen, done, up, p, q);
      assert Get(counts', q) == Get(counts, q);
    }
  }

  lemma Completed(t: Tree, block: Hash, sizes: map<Hash, nat>, counts: map<Hash, nat>,
                  waiting: set<Hash>, open: set<Hash>, done: set<Hash>, up: Hash, p: Hash)
    requires t.WF() && Traversal(t, block, sizes, counts, waiting, open, done, up)
    requires up in done && up != block && p == t.Parent(up) && p in open
    requires forall i :: 0 <= i < |t.Children(p)| ==> t.Children(p)[i] in done && t.Children(p)[i] in sizes
    ensures Traversal(t, block, sizes[p := t.SubtreeSize(p)], counts[p := Get(counts, p) + 1], waiting, open - {p},
                      done + {p}, p)
    ensures p != block ==> p != t.origin && t.Parent(p) in open - {p}
  {
    hide Region, OpenOk, SizesOk, Tree.WF, Tree.SubtreeSize;
    OpenFacts(t, block, sizes, waiting, open, done);
    var sizes' := sizes[p := t.SubtreeSize(p)];
    CompletedRegion(t, block, sizes, waiting, open, done, p, sizes');
    CompletedCounts(t, block, counts, waiting + open + done, open, done, up, p);
    SizesGrow(t, sizes, p);
    assert waiting + (open - {p}) + (done + {p}) == waiting + open + done;
  }

  lemma OpenFacts(t: Tree, block: Hash, sizes: map<Hash, nat>, waiting: set<Hash>, open: set<Hash>, done: set<Hash>)
    requires t.WF() && Region(t, block, sizes, waiting, open, done)
    ensures open + done <= t.nodes.Keys && open !! done && forall q :: q in open ==> t.Anc(block, q)
  {
    hide Tree.WF;
  }

  lemma SizesGrow(t: Tree, sizes: map<Hash, nat>, p: Hash)
    requires t.WF() && p in t.nodes && SizesOk(t, sizes)
    requires forall i :: 0 <= i < |t.Children(p)| ==> t.Children(p)[i] in sizes
    ensures SizesOk(t, sizes[p := t.SubtreeSize(p)])
  {
    hide Tree.WF, Tree.SubtreeSize;
  }

  /** Once the queue is empty no block can still be waiting for a child. */
  lemma {:induction false} Drained(t: Tree, block: Hash, sizes: map<Hash, nat>, counts: map<Hash, nat>,
                                   open: set<Hash>, done: set<Hash>, q: Hash)
    requires t.WF() && Traversal(t, block, sizes, counts, {}, open, done, NONE) && q in t.nodes
    ensures q !in open
    decreases |t.nodes| - t.Height(q)
  {
    if q in open {
      assert OpenOk(t, block, counts, {} + open + done, done, NONE, q);
      CountInAll(t.Children(q), done);
      var i :| 0 <= i < |t.Children(q)| && t.Children(q)[i] !in done;
      assert t.NodeWF(t.Children(q)[i]) && t.NodeWF(q);
      Drained(t, block, sizes, counts, open, done, t.Children(q)[i]);
    }
  }

  lemma Finished(t: Tree, block: Hash, sizes: map<Hash, nat>, counts: map<Hash, nat>, open: set<Hash>, done: set<Hash>)
    requires t.WF() && block in t.nodes && Traversal(t, block, sizes, counts, {}, open, done, NONE)
    ensures SizesOk(t, sizes) && block in sizes
  {
    Drained(t, block, sizes, counts, open, done, block);
  }
}
