/** Ten blocks for which filtering the virtual parents does not restore the merge depth bound. */
module BoundExample {
  import opened Hashes
  import opened Intervals
  import opened BlockDag
  import opened Ghostdag
  import opened Colouring
  import opened Sorting
  import opened GreedyColouring
  import opened Capacity
  import opened GhostdagProtocol
  import HeaderCommit
  import opened VirtualParents

  /** Block 2 is the merge depth root; 8, 9 and 10 are the tips, of which 9 is the heaviest by the work of 6. */
  ghost predicate TenBlocks(d: Dag, works: map<Hash, nat>) {
    && d.Valid() && d.Root() == 1 && d.Blocks() == {1, 2, 3, 4, 5, 6, 7, 8, 9, 10} && works.Keys == d.Blocks()
    && d.Parents(2) == {1} && d.Parents(3) == {1} && d.Parents(4) == {1} && d.Parents(5) == {2} && d.Parents(6) == {2}
    && d.Parents(7) == {5, 3} && d.Parents(8) == {2, 3} && d.Parents(9) == {5, 6} && d.Parents(10) == {7, 4}
    && forall b :: b in works ==> works[b] == if b == 6 then 5 else 1
  }

  lemma OneParent(d: Dag, b: Hash, p: Hash)
    requires d.Valid() && d.Parents(b) == {p}
    ensures d.Past(b) == {p} + d.Past(p)
  {
    PastUnfold(d, b);
  }

  lemma TwoParents(d: Dag, b: Hash, p: Hash, q: Hash)
    requires d.Valid() && d.Parents(b) == {p, q}
    ensures d.Past(b) == {p, q} + d.Past(p) + d.Past(q)
  {
    PastUnfold(d, b);
  }

  /** The past of each block. */
  ghost predicate Pasts(d: Dag) {
    && d.Past(1) == {} && d.Past(2) == {1} && d.Past(3) == {1} && d.Past(4) == {1}
    && d.Past(5) == {1, 2} && d.Past(6) == {1, 2} && d.Past(7) == {1, 2, 3, 5} && d.Past(8) == {1, 2, 3}
    && d.Past(9) == {1, 2, 5, 6} && d.Past(10) == {1, 2, 3, 4, 5, 7}
  }

  lemma PastsAre(d: Dag, works: map<Hash, nat>)
    requires TenBlocks(d, works)
    ensures Pasts(d)
  {
    hide Dag.Past, Dag.Parents, Dag.Valid, Dag.Blocks, Dag.Root;
    RootReaches(d, 1);
    OneParent(d, 2, 1);
    OneParent(d, 3, 1);
    OneParent(d, 4, 1);
    OneParent(d, 5, 2);
    OneParent(d, 6, 2);
    TwoParents(d, 7, 5, 3);
    TwoParents(d, 8, 2, 3);
    TwoParents(d, 9, 5, 6);
    TwoParents(d, 10, 7, 4);
  }

  // ----- clusters -----

  lemma TooMany(d: Dag, s: set<Hash>, x: Hash, a: Hash, b: Hash, c: Hash)
    requires {a, b, c, x} <= s && a != b && b != c && a != c
    requires Anticone(d, x, a) && Anticone(d, x, b) && Anticone(d, x, c)
    ensures !KCluster(d, s, 2)
  {
    hide Anticone;
    assert {a, b, c} <= AnticoneIn(d, x, s);
    SubsetSize({a, b, c}, AnticoneIn(d, x, s));
    assert |{a, b, c}| == 3;
  }

  lemma Few(d: Dag, s: set<Hash>, x: Hash, a: Hash, b: Hash)
    requires AnticoneIn(d, x, s) <= {a, b}
    ensures |AnticoneIn(d, x, s)| <= 2
  {
    SubsetSize(AnticoneIn(d, x, s), {a, b});
  }

  /** 7 joins the blue set of 9. */
  lemma SevenJoins(d: Dag)
    requires Pasts(d)
    ensures KCluster(d, {1, 2, 5, 6, 9} + {7}, 2) && KCluster(d, {1, 2} + {5, 6}, 2)
  {
    hide Dag.Past;
    var s := {1, 2, 5, 6, 9} + {7};
    forall x | x in s ensures |AnticoneIn(d, x, s)| <= 2 {
      if x == 6 { Few(d, s, x, 5, 7); }
      else if x == 7 { Few(d, s, x, 6, 9); }
      else if x == 5 { Few(d, s, x, 6, 6); }
      else if x == 9 { Few(d, s, x, 7, 7); }
      else { Few(d, s, x, 1, 1); }
    }
    var r := {1, 2} + {5, 6};
    forall x | x in r ensures |AnticoneIn(d, x, r)| <= 2 {
      Few(d, r, x, 5, 6);
    }
  }

  /** Next to the blue set of 9, blocks 3, 4 and 8 have too many blues in their anticone; 10 would give 6
      too many once 7 is blue. */
  lemma OthersDoNot(d: Dag, s: set<Hash>, x: Hash)
    requires Pasts(d) && {2, 5, 6, 9, x} <= s && (x == 3 || x == 4 || x == 8 || (x == 10 && 7 in s))
    ensures !KCluster(d, s, 2)
  {
    hide Dag.Past;
    if x == 10 { TooMany(d, s, 6, 5, 7, 10); } else { TooMany(d, s, x, 5, 6, 9); }
  }

  // ----- greedy colouring -----

  /** If only `c` joins, and what comes behind it does not join it, the greedy colouring is `c` alone. */
  lemma {:induction false} OnlyOne(d: Dag, s: set<Hash>, merged: seq<Hash>, k: nat, c: Hash)
    requires KCluster(d, s + {c}, k) && NoDup(merged)
    requires forall i :: 0 <= i < |merged| && merged[i] != c && c !in merged[..i] ==> !KCluster(d, s + {merged[i]}, k)
    requires forall i :: 0 <= i < |merged| && c in merged[..i] ==> !KCluster(d, s + {c} + {merged[i]}, k)
    ensures GreedyBlues(d, s, merged, k) == if c in merged then [c] else []
  {
    hide KCluster, GreedyBlues;
    if merged == [] {
      GreedyNone(d, s, k);
    } else {
      var n := |merged| - 1;
      var m, last := merged[..n], merged[n];
      forall i | 0 <= i < n ensures m[i] == merged[i] && m[..i] == merged[..i] {}
      OnlyOne(d, s, m, k, c);
      assert merged == m + [last];
      GreedyLast(d, s, m, last, k);
      ElemsSingle(c);
      ElemsEmpty();
      assert s + {} == s;
    }
  }

  lemma GreedyNone(d: Dag, s: set<Hash>, k: nat)
    ensures GreedyBlues(d, s, [], k) == []
  {
  }

  lemma GreedyLast(d: Dag, s: set<Hash>, merged: seq<Hash>, c: Hash, k: nat)
    ensures var elder := GreedyBlues(d, s, merged, k);
            GreedyBlues(d, s, merged + [c], k)
            == elder + if KCluster(d, s + Elems(elder) + {c}, k) then [c] else []
  {
    hide KCluster, Elems;
    assert (merged + [c])[..|merged|] == merged;
  }

  lemma {:induction false} NoneJoins(d: Dag, s: set<Hash>, merged: seq<Hash>, k: nat)
    requires forall i :: 0 <= i < |merged| ==> !KCluster(d, s + {merged[i]}, k)
    ensures GreedyBlues(d, s, merged, k) == []
  {
    hide KCluster;
    if merged != [] {
      NoneJoins(d, s, merged[..|merged| - 1], k);
      assert s + Elems([]) == s;
    }
  }

  // ----- the data of the blocks -----

  lemma SortedNone(g: Colours)
    ensures Sorted(g, {}) == []
  {
    ElemsEmpty();
    NothingListed(Sorted(g, {}));
  }

  lemma SortedOne(g: Colours, x: Hash)
    requires x in g
    ensures Sorted(g, {x}) == [x]
  {
    ElemsSingle(x);
    AscendingUnique(g, [x], Sorted(g, {x}));
  }

  /** A block with one parent. */
  lemma Alone(d: Dag, g: Colours, works: map<Hash, nat>, b: Hash, p: Hash)
    requires Computed(d, g, works, 2) && Chained(d, g) && b in g && b != d.Root() && d.Parents(b) == {p} && p in g
    ensures p in works && g[b].selectedParent == p && g[b].blueWork == g[p].blueWork + works[p]
    ensures BlueSet(d, g, b) == BlueSet(d, g, p) + {p}
  {
    hide *;
    ComputedAt(d, g, works, 2, b);
    NaiveHeaviest(d, g, works, 2, {p}, g[b]);
    NothingMerged(d, p);
    Single(d, g, works, g[b], p);
    BlueUnfold(d, g, b);
  }

  lemma NothingMerged(d: Dag, p: Hash)
    ensures MergeSet(d, {p}, p) == {}
  {
    assert d.PastOf({p}) == d.Past(p);
  }

  lemma Single(d: Dag, g: Colours, works: map<Hash, nat>, data: Data, p: Hash)
    requires Naive(d, g, works, 2, {p}, data) && data.selectedParent == p && MergeSet(d, {p}, p) == {}
    ensures Chained(d, g) && p in g && p in works && data.blueWork == g[p].blueWork + works[p]
    ensures BlueOf(d, g, data) == BlueSet(d, g, p) + {p}
  {
    hide Chained, KCluster, MergeSet, BlueSet, Sized;
    SortedNone(g);
    assert data.blues == [p] && data.blues[0] in works;
    SumOne(works, p);
    ElemsSingle(p);
  }

  lemma SumOne(works: map<Hash, nat>, p: Hash)
    requires p in works
    ensures SumWork(works, [p]) == works[p]
  {
    assert [p][..0] == [];
    assert SumWork(works, []) == 0;
  }

  lemma SumTwo(works: map<Hash, nat>, p: Hash, q: Hash)
    requires p in works && q in works
    ensures SumWork(works, [p, q]) == works[p] + works[q]
  {
    SumOne(works, p);
    assert [p, q][..1] == [p];
  }

  /** Data with two parents of which one is merged alone. */
  lemma Pair(d: Dag, g: Colours, works: map<Hash, nat>, data: Data, sp: Hash, other: Hash)
    requires Naive(d, g, works, 2, {sp, other}, data) && data.selectedParent == sp && sp in g && other in g
    requires MergeSet(d, {sp, other}, sp) == {other} && Chained(d, g) && sp in works && other in works
    ensures data.blueWork <= g[sp].blueWork + works[sp] + works[other]
    ensures KCluster(d, BlueSet(d, g, sp) + {sp} + {other}, 2) ==>
              data.blueWork == g[sp].blueWork + works[sp] + works[other]
              && BlueOf(d, g, data) == BlueSet(d, g, sp) + {sp, other}
  {
    hide Chained, KCluster, MergeSet, BlueSet, GreedyBlues, SumWork, NaiveSizes, Sorted, Heaviest, Elems;
    SortedOne(g, other);
    var s := BlueSet(d, g, sp) + {sp};
    GreedyOne(d, s, other);
    SumOne(works, sp);
    SumTwo(works, sp, other);
    TwoListed(sp, other);
  }

  lemma TwoListed(p: Hash, q: Hash)
    ensures [p] + [q] == [p, q] && [p] + [] == [p] && Elems([p, q]) == {p, q}
  {
  }

  lemma GreedyOne(d: Dag, s: set<Hash>, c: Hash)
    ensures GreedyBlues(d, s, [c], 2) == if KCluster(d, s + {c}, 2) then [c] else []
  {
    hide KCluster;
    GreedyLast(d, s, [], c, 2);
    assert [] + [c] == [c] && s + Elems([]) == s;
  }

  /** What is needed of the ten blocks' data. */
  ghost predicate Colours9(d: Dag, g: Colours) {
    && Chained(d, g) && g.Keys == d.Blocks() && d.Root() == 1 && {1, 2, 3, 4, 5, 6, 7, 8, 9, 10} <= g.Keys
    && g[5].selectedParent == 2 && g[6].selectedParent == 2 && g[7].selectedParent == 5
    && (g[9].selectedParent == 5 || g[9].selectedParent == 6)
    && g[8].blueWork < g[9].blueWork && g[10].blueWork < g[9].blueWork && g[7].blueWork < g[10].blueWork
    && BlueSet(d, g, 9) == {1, 2, 5, 6}
  }

  lemma LowBlocks(d: Dag, g: Colours, works: map<Hash, nat>)
    requires TenBlocks(d, works) && Computed(d, g, works, 2) && Chained(d, g) && g.Keys == d.Blocks()
    ensures 1 in g && 2 in g && 3 in g && 4 in g && 5 in g && 6 in g
    ensures g[2].blueWork == 1 && g[3].blueWork == 1 && g[4].blueWork == 1 && g[5].blueWork == 2 && g[6].blueWork == 2
    ensures g[5].selectedParent == 2 && g[6].selectedParent == 2
    ensures BlueSet(d, g, 5) == {1, 2} && BlueSet(d, g, 6) == {1, 2}
  {
    hide Chained, Computed;
    ComputedRoot(d, g, works, 2);
    assert BlueSet(d, g, 1) == {};
    hide BlueSet;
    Alone(d, g, works, 2, 1);
    Alone(d, g, works, 3, 1);
    Alone(d, g, works, 4, 1);
    Alone(d, g, works, 5, 2);
    Alone(d, g, works, 6, 2);
  }

  lemma HeavierSelected(g: Colours, sp: Hash, other: Hash, data: Data)
    requires Heaviest(g, {sp, other}, data.selectedParent) && sp in g && other in g
    requires g[other].blueWork < g[sp].blueWork
    ensures data.selectedParent == sp
  {
  }

  lemma NaiveHeaviest(d: Dag, g: Colours, works: map<Hash, nat>, k: nat, parents: set<Hash>, data: Data)
    requires Naive(d, g, works, k, parents, data)
    ensures Heaviest(g, parents, data.selectedParent) && data.selectedParent in parents
  {
    hide NaiveColours, NaiveWork, NaiveSizes, Chained;
  }

  lemma HighBlocks(d: Dag, g: Colours, works: map<Hash, nat>)
    requires TenBlocks(d, works) && Coloured(d, g, 2) && Computed(d, g, works, 2)
    ensures Colours9(d, g)
  {
    hide *;
    ColouredChained(d, g, 2);
    Members(d, works);
    PastsAre(d, works);
    LowBlocks(d, g, works);
    Seven(d, g, works);
    Eight(d, g, works);
    Nine(d, g, works);
    Ten(d, g, works);
    TenHeavier(d, g, works);
    Colours9Now(d, g);
  }

  lemma Members(d: Dag, works: map<Hash, nat>)
    requires TenBlocks(d, works)
    ensures d.Valid() && d.Root() == 1 && works.Keys == d.Blocks() && d.Blocks() == {1, 2, 3, 4, 5, 6, 7, 8, 9, 10}
    ensures works[2] == 1 && works[3] == 1 && works[4] == 1 && works[5] == 1 && works[6] == 5 && works[7] == 1
    ensures d.Parents(7) == {5, 3} && d.Parents(8) == {2, 3} && d.Parents(9) == {5, 6} && d.Parents(10) == {7, 4}
  {
    hide Dag.Valid, Dag.Blocks, Dag.Parents, Dag.Root;
  }

  lemma Colours9Now(d: Dag, g: Colours)
    requires Chained(d, g) && g.Keys == d.Blocks() && d.Root() == 1 && d.Blocks() == {1, 2, 3, 4, 5, 6, 7, 8, 9, 10}
    requires g[5].selectedParent == 2 && g[6].selectedParent == 2 && g[7].selectedParent == 5
    requires g[9].selectedParent == 5 || g[9].selectedParent == 6
    requires g[8].blueWork < g[9].blueWork && g[10].blueWork < g[9].blueWork && g[7].blueWork < g[10].blueWork
    requires BlueSet(d, g, 9) == {1, 2, 5, 6}
    ensures Colours9(d, g)
  {
    hide Chained, BlueSet;
  }

  lemma OnlyOther(d: Dag, sp: Hash, other: Hash)
    requires Pasts(d) && ((sp == 5 && other == 3) || (sp == 2 && other == 3) || (sp == 3 && other == 2)
                          || (sp == 5 && other == 6) || (sp == 6 && other == 5) || (sp == 7 && other == 4))
    ensures MergeSet(d, {sp, other}, sp) == {other}
  {
    hide Dag.Past;
    assert d.PastOf({sp, other}) == d.Past(sp) + d.Past(other);
  }

  lemma Seven(d: Dag, g: Colours, works: map<Hash, nat>)
    requires TenBlocks(d, works) && Computed(d, g, works, 2) && Chained(d, g) && g.Keys == d.Blocks() && Pasts(d)
    requires 5 in g && 3 in g && 7 in g && g[5].blueWork == 2 && g[3].blueWork == 1
    ensures g[7].selectedParent == 5 && g[7].blueWork <= 4
  {
    hide *;
    Members(d, works);
    ComputedAt(d, g, works, 2, 7);
    NaiveHeaviest(d, g, works, 2, {5, 3}, g[7]);
    HeavierSelected(g, 5, 3, g[7]);
    OnlyOther(d, 5, 3);
    Pair(d, g, works, g[7], 5, 3);
  }

  lemma Eight(d: Dag, g: Colours, works: map<Hash, nat>)
    requires TenBlocks(d, works) && Computed(d, g, works, 2) && Chained(d, g) && g.Keys == d.Blocks() && Pasts(d)
    requires 2 in g && 3 in g && 8 in g && g[2].blueWork == 1 && g[3].blueWork == 1
    ensures g[8].blueWork <= 3
  {
    hide *;
    Members(d, works);
    ComputedAt(d, g, works, 2, 8);
    NaiveHeaviest(d, g, works, 2, {2, 3}, g[8]);
    var sp := g[8].selectedParent;
    var other := if sp == 2 then 3 else 2;
    assert {2, 3} == {sp, other};
    OnlyOther(d, sp, other);
    Pair(d, g, works, g[8], sp, other);
  }

  lemma Nine(d: Dag, g: Colours, works: map<Hash, nat>)
    requires TenBlocks(d, works) && Computed(d, g, works, 2) && Chained(d, g) && g.Keys == d.Blocks() && Pasts(d)
    requires 5 in g && 6 in g && 9 in g && g[5].blueWork == 2 && g[6].blueWork == 2
    requires BlueSet(d, g, 5) == {1, 2} && BlueSet(d, g, 6) == {1, 2}
    ensures (g[9].selectedParent == 5 || g[9].selectedParent == 6) && g[9].blueWork == 8
    ensures BlueSet(d, g, 9) == {1, 2, 5, 6}
  {
    hide *;
    Members(d, works);
    ComputedAt(d, g, works, 2, 9);
    NaiveHeaviest(d, g, works, 2, {5, 6}, g[9]);
    var sp := g[9].selectedParent;
    var other := if sp == 5 then 6 else 5;
    assert {5, 6} == {sp, other};
    OnlyOther(d, sp, other);
    SevenJoins(d);
    assert {1, 2} + {5, 6} == {1, 2} + {sp} + {other};
    Pair(d, g, works, g[9], sp, other);
    BlueUnfold(d, g, 9);
  }

  lemma Ten(d: Dag, g: Colours, works: map<Hash, nat>)
    requires TenBlocks(d, works) && Computed(d, g, works, 2) && Chained(d, g) && g.Keys == d.Blocks() && Pasts(d)
    requires WorkGrows(d, g) && 5 in g && 4 in g && 7 in g && 10 in g && g[5].blueWork == 2 && g[4].blueWork == 1
    requires g[7].blueWork <= 4
    ensures g[10].blueWork <= 6
  {
    hide *;
    Members(d, works);
    ParentLighter(d, g, 5, 7);
    ComputedAt(d, g, works, 2, 10);
    NaiveHeaviest(d, g, works, 2, {7, 4}, g[10]);
    HeavierSelected(g, 7, 4, g[10]);
    OnlyOther(d, 7, 4);
    Pair(d, g, works, g[10], 7, 4);
  }

  lemma ParentLighter(d: Dag, g: Colours, p: Hash, b: Hash)
    requires WorkGrows(d, g) && b in g && p in d.Parents(b)
    ensures p in g && g[p].blueWork < g[b].blueWork
  {
  }

  lemma TenHeavier(d: Dag, g: Colours, works: map<Hash, nat>)
    requires TenBlocks(d, works) && WorkGrows(d, g) && 10 in g
    ensures 7 in g && g[7].blueWork < g[10].blueWork
  {
    hide *;
    Members(d, works);
    ParentLighter(d, g, 7, 10);
  }

  // ----- the virtual parents -----

  lemma MergedByAll(d: Dag)
    requires Pasts(d)
    ensures MergeSet(d, {8, 9, 10}, 9) == {3, 4, 7, 8, 10} && MergeSet(d, {8, 9}, 9) == {3, 8}
  {
    hide Dag.Past, Dag.PastOf, MergeSet;
    PastOfTips(d);
    MergeSetIs(d, {8, 9, 10}, 9);
    MergeSetIs(d, {8, 9}, 9);
    TipSets();
  }

  lemma MergeSetIs(d: Dag, parents: set<Hash>, sp: Hash)
    ensures MergeSet(d, parents, sp) == parents + d.PastOf(parents) - d.Past(sp) - {sp}
  {
  }

  lemma TipSets()
    ensures {8, 9, 10} + {1, 2, 3, 4, 5, 6, 7} - {1, 2, 5, 6} - {9} == {3, 4, 7, 8, 10}
    ensures {8, 9} + {1, 2, 3, 5, 6} - {1, 2, 5, 6} - {9} == {3, 8}
  {
  }

  lemma PastOfTips(d: Dag)
    requires Pasts(d)
    ensures d.PastOf({8, 9, 10}) == {1, 2, 3, 4, 5, 6, 7} && d.PastOf({8, 9}) == {1, 2, 3, 5, 6}
  {
    hide Dag.Past;
    PastOfThree(d, 8, 9, 10);
    PastOfThree(d, 8, 9, 9);
    assert {8, 9, 9} == {8, 9};
  }

  lemma PastOfThree(d: Dag, a: Hash, b: Hash, c: Hash)
    ensures d.PastOf({a, b, c}) == d.Past(a) + d.Past(b) + d.Past(c)
  {
    hide Dag.Past;
  }

  lemma NineSelected(d: Dag, g: Colours, works: map<Hash, nat>, parents: set<Hash>, data: Data)
    requires Colours9(d, g) && Naive(d, g, works, 2, parents, data) && 9 in parents && parents <= {8, 9, 10}
    ensures data.selectedParent == 9
  {
    hide Chained, NaiveColours, NaiveWork, NaiveSizes, BlueSet;
  }

  /** All three tips: 7 is blue beside 9, everything else is red. */
  lemma FirstColours(d: Dag, g: Colours, works: map<Hash, nat>, first: Data)
    requires Pasts(d) && Colours9(d, g) && Naive(d, g, works, 2, {8, 9, 10}, first)
    ensures first.blues == [9, 7] && Elems(first.reds) == {3, 4, 8, 10}
  {
    hide *;
    NineSelected(d, g, works, {8, 9, 10}, first);
    MergedByAll(d);
    ColoursOf(d, g, works, {8, 9, 10}, first);
    var merged := Sorted(g, {3, 4, 7, 8, 10});
    SevenFirst(d, g, merged);
    var s := {1, 2, 5, 6, 9};
    SevenJoins(d);
    forall i | 0 <= i < |merged| && merged[i] != 7 && 7 !in merged[..i] ensures !KCluster(d, s + {merged[i]}, 2) {
      assert merged[i] != 10 && merged[i] in {3, 4, 7, 8, 10};
      OthersDoNot(d, s + {merged[i]}, merged[i]);
    }
    forall i | 0 <= i < |merged| && 7 in merged[..i] ensures !KCluster(d, s + {7} + {merged[i]}, 2) {
      assert merged[i] in {3, 4, 8, 10};
      OthersDoNot(d, s + {7} + {merged[i]}, merged[i]);
    }
    OnlyOne(d, s, merged, 2, 7);
    BothListed();
  }

  lemma BothListed()
    ensures Elems([9] + [7]) == {9, 7} && Elems([9] + []) == {9} && [9] + [7] == [9, 7] && [9] + [] == [9]
  {
  }

  lemma ColoursOf(d: Dag, g: Colours, works: map<Hash, nat>, parents: set<Hash>, data: Data)
    requires Colours9(d, g) && Naive(d, g, works, 2, parents, data) && data.selectedParent == 9
    ensures MergeSet(d, parents, 9) <= g.Keys
    ensures data.blues == [9] + GreedyBlues(d, {1, 2, 5, 6, 9}, Sorted(g, MergeSet(d, parents, 9)), 2)
    ensures Elems(data.reds) == MergeSet(d, parents, 9) - Elems(data.blues)
  {
    hide Chained, NaiveWork, NaiveSizes, BlueSet, GreedyBlues, MergeSet;
    assert {1, 2, 5, 6} + {9} == {1, 2, 5, 6, 9};
  }

  lemma NotBefore(g: Colours, s: seq<Hash>, i: nat, j: nat)
    requires Ascending(g, s) && i < |s| && j < |s| && s[i] != s[j] && g[s[j]].blueWork < g[s[i]].blueWork
    ensures j < i
  {
  }

  /** 7 is sorted before 10. */
  lemma SevenFirst(d: Dag, g: Colours, merged: seq<Hash>)
    requires Colours9(d, g) && {3, 4, 7, 8, 10} <= g.Keys && merged == Sorted(g, {3, 4, 7, 8, 10})
    ensures NoDup(merged) && 7 in merged && forall i :: 0 <= i < |merged| ==> merged[i] in {3, 4, 7, 8, 10}
    ensures forall i :: 0 <= i < |merged| && merged[i] == 10 ==> 7 in merged[..i]
    ensures forall i :: 0 <= i < |merged| && 7 in merged[..i] ==> merged[i] != 7
  {
    hide Chained, BlueSet;
    AscendingDistinct(g, merged);
    forall i | 0 <= i < |merged| ensures merged[i] in {3, 4, 7, 8, 10} { assert merged[i] in Elems(merged); }
    assert 7 in Elems(merged);
    var j :| 0 <= j < |merged| && merged[j] == 7;
    forall i | 0 <= i < |merged| && merged[i] == 10 ensures 7 in merged[..i] {
      NotBefore(g, merged, i, j);
      assert merged[..i][j] == 7;
    }
  }

  /** Tips 8 and 9 alone: everything merged is red. */
  lemma FinalColours(d: Dag, g: Colours, works: map<Hash, nat>, data: Data)
    requires Pasts(d) && Colours9(d, g) && Naive(d, g, works, 2, {8, 9}, data)
    ensures data.blues == [9] && Elems(data.reds) == {3, 8}
  {
    hide *;
    NineSelected(d, g, works, {8, 9}, data);
    MergedByAll(d);
    ColoursOf(d, g, works, {8, 9}, data);
    var merged := Sorted(g, {3, 8});
    forall i | 0 <= i < |merged| ensures !KCluster(d, {1, 2, 5, 6, 9} + {merged[i]}, 2) {
      ListedIn(merged, i);
      OthersDoNot(d, {1, 2, 5, 6, 9} + {merged[i]}, merged[i]);
    }
    NoneJoins(d, {1, 2, 5, 6, 9}, merged, 2);
    BothListed();
  }

  lemma ListedIn(s: seq<Hash>, i: nat)
    requires i < |s|
    ensures s[i] in Elems(s)
  {
  }

  lemma Chains(d: Dag, g: Colours)
    requires Colours9(d, g)
    ensures OnChain(d, g, 2, 9) && OnChain(d, g, 2, 7)
  {
    assert OnChain(d, g, 2, 5) && OnChain(d, g, 2, 6);
    assert Linked(d, g, 9) && Linked(d, g, 7);
  }

  /** Block 4 is the one bad red of the three tips: 3 is excused by 7, and 2 reaches the others. */
  lemma FourIsBad(d: Dag, g: Colours, first: Data, r: Hash)
    requires Pasts(d) && Colours9(d, g) && first.blues == [9, 7] && Elems(first.reds) == {3, 4, 8, 10}
    ensures BadRed(d, g, first, 2, r) <==> r == 4
  {
    hide Chained, BlueSet, OnChain, Dag.Past, Dag.Blocks, Dag.Root;
    Chains(d, g);
    assert r in first.reds <==> r in Elems(first.reds);
    assert first.blues[0] == 9 && first.blues[1] == 7;
    assert Reaches(d, 3, 7) && Reaches(d, 2, 8) && Reaches(d, 2, 10);
  }

  /** A node with these ten blocks that filters its virtual parents: 10 leads to the bad red 4 and goes, and
      with it 7, the only block that excused 3. So 3 is a bad red of the parents that are left. */
  lemma BoundBroken(d: Dag, g: Colours, works: map<Hash, nat>, chosen: seq<Hash>, first: Data, kept: seq<Hash>,
                    data: Data)
    requires TenBlocks(d, works) && Coloured(d, g, 2) && Computed(d, g, works, 2) && Chained(d, g)
    requires g.Keys == d.Blocks() && Elems(chosen) == {8, 9, 10} && Naive(d, g, works, 2, Elems(chosen), first)
    requires Filtered(d, g, chosen, first, 2, kept) && Naive(d, g, works, 2, Elems(kept), data)
    ensures Elems(kept) == {8, 9} && BadRed(d, g, data, 2, 3)
  {
    hide *;
    PastsAre(d, works);
    HighBlocks(d, g, works);
    FirstColours(d, g, works, first);
    KeptAre(d, g, chosen, first, kept);
    FinalColours(d, g, works, data);
    ThreeIsBad(d, g, data);
  }

  lemma KeptAre(d: Dag, g: Colours, chosen: seq<Hash>, first: Data, kept: seq<Hash>)
    requires Pasts(d) && Colours9(d, g) && first.blues == [9, 7] && Elems(first.reds) == {3, 4, 8, 10}
    requires Elems(chosen) == {8, 9, 10} && Filtered(d, g, chosen, first, 2, kept)
    ensures Elems(kept) == {8, 9}
  {
    hide Chained, BlueSet, Dag.Past, BadRed;
    forall r ensures BadRed(d, g, first, 2, r) <==> r == 4 { FourIsBad(d, g, first, r); }
    assert Reaches(d, 4, 10) && !Reaches(d, 4, 8) && !Reaches(d, 4, 9);
    assert BadRed(d, g, first, 2, 4);
    forall h ensures h in kept <==> h in {8, 9} {
      assert h in chosen <==> h in Elems(chosen);
    }
  }

  lemma ThreeIsBad(d: Dag, g: Colours, data: Data)
    requires Pasts(d) && Colours9(d, g) && data.blues == [9] && Elems(data.reds) == {3, 8}
    ensures BadRed(d, g, data, 2, 3)
  {
    hide Chained, BlueSet, Dag.Past;
    assert 3 in Elems(data.reds);
  }

  // ----- a node gets there -----

  function ParentList(n: Hash): seq<Hash> {
    if n == 7 then [5, 3] else if n == 8 then [2, 3] else if n == 9 then [5, 6] else if n == 10 then [7, 4]
    else if n == 5 || n == 6 then [2] else [1]
  }

  function WorkOf(n: Hash): nat {
    if n == 6 then 5 else 1
  }

  /** The first `n` of the ten blocks. */
  ghost function Upto(n: nat): Dag
    requires n >= 1
  {
    if n == 1 then Origin(1) else Block(Upto(n - 1), n, Elems(ParentList(n)))
  }

  lemma ListSets(n: Hash)
    ensures NoDup(ParentList(n)) && ParentList(n) != []
    ensures Elems(ParentList(n)) == if n == 7 then {5, 3} else if n == 8 then {2, 3} else if n == 9 then {5, 6}
              else if n == 10 then {7, 4} else if n == 5 || n == 6 then {2} else {1}
  {
    ElemsSingle(1);
    ElemsSingle(2);
    TwoListed(5, 3);
    TwoListed(2, 3);
    TwoListed(5, 6);
    TwoListed(7, 4);
  }

  ghost function FirstBlocks(n: nat): set<Hash> {
    if n == 0 then {} else FirstBlocks(n - 1) + {n}
  }

  lemma {:induction false} FirstAre(n: nat, b: Hash)
    ensures b in FirstBlocks(n) <==> 1 <= b <= n
  {
    if n > 0 { FirstAre(n - 1, b); }
  }

  lemma FirstTen()
    ensures FirstBlocks(10) == {1, 2, 3, 4, 5, 6, 7, 8, 9, 10}
  {
    forall b ensures b in FirstBlocks(10) <==> 1 <= b <= 10 { FirstAre(10, b); }
  }

  lemma {:induction false} UptoFacts(n: nat)
    requires 1 <= n <= 10
    ensures Upto(n).Valid() && Upto(n).Root() == 1 && Upto(n).Blocks() == FirstBlocks(n)
    ensures forall b :: 2 <= b <= n ==> Upto(n).Parents(b) == Elems(ParentList(b))
  {
    hide Elems, ParentList;
    if n == 1 {
      assert FirstBlocks(0) == {};
    } else {
      UptoFacts(n - 1);
      ListSets(n);
      FirstAre(n - 1, n);
      forall p | p in Elems(ParentList(n)) ensures p in FirstBlocks(n - 1) { FirstAre(n - 1, p); }
    }
  }

  ghost function PastTable(b: Hash): set<Hash> {
    if b == 10 then {1, 2, 3, 4, 5, 7} else if b == 9 then {1, 2, 5, 6} else if b == 8 then {1, 2, 3}
    else if b == 7 then {1, 2, 3, 5} else if b == 5 || b == 6 then {1, 2} else if 2 <= b <= 4 then {1} else {}
  }

  lemma {:induction false} UptoPast(n: nat, b: Hash)
    requires 1 <= b <= n <= 10
    ensures Upto(n).Past(b) == PastTable(b)
    decreases b
  {
    hide Elems, ParentList, Upto, Dag.Past, Dag.Parents, Dag.Valid, Dag.Blocks;
    UptoFacts(n);
    ListSets(b);
    var d := Upto(n);
    if b == 1 {
      RootReaches(d, 1);
    } else if b == 7 || b == 8 || b == 9 || b == 10 {
      PairOf(b);
      var p, q := ParentList(b)[0], ParentList(b)[1];
      UptoPast(n, p);
      UptoPast(n, q);
      TwoParents(d, b, p, q);
    } else {
      var p := if b == 5 || b == 6 then 2 else 1;
      UptoPast(n, p);
      OneParent(d, b, p);
    }
  }

  lemma PairOf(b: Hash)
    requires 7 <= b <= 10
    ensures |ParentList(b)| == 2 && Elems(ParentList(b)) == {ParentList(b)[0], ParentList(b)[1]}
    ensures 1 <= ParentList(b)[0] < b && 1 <= ParentList(b)[1] < b
    ensures PastTable(b) == Elems(ParentList(b)) + PastTable(ParentList(b)[0]) + PastTable(ParentList(b)[1])
  {
    ListSets(b);
  }

  /** The next block may be committed. */
  lemma NextAcceptable(n: nat)
    requires 2 <= n <= 10
    ensures var d, ps := Upto(n - 1), Elems(ParentList(n));
            Block(d, n, ps).Valid() && Upto(n) == Block(d, n, ps) && Antichain(d, ps) && 1 in d.Blocks()
  {
    hide Elems, Dag.Past, Dag.Parents;
    UptoFacts(n - 1);
    UptoFacts(n);
    ListSets(n);
    var ps := Elems(ParentList(n));
    forall x, y | x in ps && y in ps ensures x !in Upto(n - 1).Past(y) {
      UptoPast(n - 1, y);
    }
  }

  ghost predicate WorksUpto(works: map<Hash, nat>, n: nat)
    requires n >= 1
  {
    works.Keys == FirstBlocks(n - 1) && forall b :: b in works ==> works[b] == WorkOf(b)
  }

  lemma WorksMore(works: map<Hash, nat>, n: nat)
    requires n >= 1
    ensures WorksUpto(map[1 := 1], 2)
    ensures WorksUpto(works, n) ==> WorksUpto(works[n := WorkOf(n)], n + 1)
  {
  }

  lemma UptoOne()
    ensures Upto(1) == Origin(1)
  {
  }

  lemma WorkPositive(n: nat)
    ensures WorkOf(n) >= 1
  {
  }

  function Labels(): Interval {
    Interval(1, 1000)
  }

  lemma Room(n: nat)
    requires 1 <= n <= 10
    ensures n != NONE && Roomy(n, 1, 1000) && Size(Labels()) == 1000 && !IsEmpty(Labels())
  {
  }

  lemma NodeCount(nodes: set<Hash>)
    requires nodes == {1}
    ensures |nodes| == 1
  {
  }

  lemma AllTen(works: map<Hash, nat>)
    requires WorksUpto(works, 11)
    ensures TenBlocks(Upto(10), works)
  {
    hide Elems, Upto, ParentList;
    UptoFacts(10);
    ListSets(2);
    ListSets(3);
    ListSets(4);
    ListSets(5);
    ListSets(6);
    ListSets(7);
    ListSets(8);
    ListSets(9);
    ListSets(10);
    FirstTen();
  }

  lemma TipsPicked(d: Dag, g: Colours)
    requires d.Valid() && Pasts(d) && Colours9(d, g)
    ensures Elems([9, 8, 10]) == {8, 9, 10}
    ensures Picking(d, g, 9, [9, 8, 10], [], 1 + |MergeSet(d, Elems([9, 8, 10]), 9)|)
  {
    hide Chained, BlueSet, Dag.Past, MergeSet;
    ElemsEmpty();
    assert Elems([9, 8, 10]) == {8, 9, 10};
    assert {8, 9, 10} + {} == {8, 9, 10};
  }

  /** Commits the ten blocks and filters the three tips as virtual parents: the result merges a bad red. */
  method TenBlocksArrive() returns (manager: GhostdagManager, kept: seq<Hash>, data: Data, ghost d: Dag)
    ensures manager.Valid(d) && TenBlocks(d, manager.works) && Chained(d, manager.ghostdag)
    ensures manager.ghostdag.Keys == d.Blocks() && Elems(kept) == {8, 9}
    ensures Naive(d, manager.ghostdag, manager.works, manager.k, Elems(kept), data)
    ensures BadRed(d, manager.ghostdag, data, 2, 3)
  {
    hide *;
    Room(1);
    manager := HeaderCommit.Initialise(1, 2, Labels(), 1, 1);
    var store := manager.reachability.store;
    assert |store.tree.nodes| == |store.tree.nodes.Keys|;
    NodeCount(store.tree.nodes.Keys);
    WorksMore(manager.works, 1);
    UptoOne();
    for n := 2 to 11
      invariant manager.Valid(Upto(n - 1)) && manager.reachability.slack == 1 && manager.k == 2
      invariant WorksUpto(manager.works, n) && fresh(manager) && fresh(store) && manager.reachability.store == store
      invariant store.tree.origin in store.interval && Size(store.interval[store.tree.origin]) == 1000
      invariant |store.tree.nodes| == n - 1
    {
      NextAcceptable(n);
      ListSets(n);
      Room(n);
      WorkPositive(n);
      WorksMore(manager.works, n);
      var stored, added, hinted :=
        HeaderCommit.CommitHeader(manager, n, ParentList(n), WorkOf(n), 1, 1, 1, Upto(n - 1));
      assert added.Ok? && hinted.Ok?;
    }
    d := Upto(10);
    AllTen(manager.works);
    PastsAre(d, manager.works);
    ManagerFacts(manager, d);
    ManagerWorks(manager, d);
    Members(d, manager.works);
    HighBlocks(d, manager.ghostdag, manager.works);
    TipsPicked(d, manager.ghostdag);
    ghost var first;
    ghost var size := 1 + |MergeSet(d, Elems([9, 8, 10]), 9)|;
    kept, data, first := RemoveBoundedMergeBreakingParents(manager, 9, [9, 8, 10], 2, size, d);
    BoundBroken(d, manager.ghostdag, manager.works, [9, 8, 10], first, kept, data);
  }
}
