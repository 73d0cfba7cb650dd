/** Choosing the parents of the virtual block. */
module VirtualParents {
  import opened Hashes
  import opened BlockDag
  import opened Ghostdag
  import opened Colouring
  import opened GreedyColouring
  import opened ReachabilityServices
  import opened GhostdagProtocol
  import opened BlockWindows
  import opened Sorting
  import opened Inquirer

  // ----- how much a candidate adds to the mergeset -----

  /** What `c` adds to the blocks below `chosen`. */
  ghost function Added(d: Dag, chosen: set<Hash>, c: Hash): set<Hash> {
    {c} + d.Past(c) - PastBelow(d, chosen)
  }

  /** The traversal of the past of `c`: `counted` blocks are not below the chosen ones and were
      expanded; every visited block is queued, counted, or below the chosen ones. */
  ghost predicate Counting(d: Dag, chosen: set<Hash>, c: Hash, visited: set<Hash>, queue: seq<Hash>, counted: set<Hash>)
  {
    && visited <= d.Past(c) && Elems(queue) <= visited && NoDup(queue) && d.Parents(c) <= visited
    && counted <= visited && counted !! PastBelow(d, chosen) && counted !! Elems(queue)
    && (forall x :: x in visited ==> x in Elems(queue) || x in counted || x in PastBelow(d, chosen))
    && (forall x :: x in counted ==> d.Parents(x) <= visited)
  }

  lemma {:induction false} CountedAll(d: Dag, chosen: set<Hash>, c: Hash, visited: set<Hash>, counted: set<Hash>,
                                      y: Hash, x: Hash)
    requires d.Valid() && Counting(d, chosen, c, visited, [], counted)
    requires y == c || y in counted
    requires x in d.Past(y) && x !in PastBelow(d, chosen)
    ensures x in counted
    decreases d.Rank(y)
  {
    PastUnfold(d, y);
    if x !in d.Parents(y) {
      var p :| p in d.Parents(y) && x in d.Past(p);
      if p in PastBelow(d, chosen) {
        BelowClosed(d, chosen, p, x);
      } else {
        assert p in visited && p in counted;
        RankPast(d, p, y);
        CountedAll(d, chosen, c, visited, counted, p, x);
      }
    }
  }

  lemma BelowClosed(d: Dag, bs: set<Hash>, y: Hash, x: Hash)
    requires d.Valid() && y in PastBelow(d, bs) && x in d.Past(y)
    ensures x in PastBelow(d, bs)
  {
    BelowMember(d, bs, y);
    var p :| p in bs && Reaches(d, y, p);
    ReachesTrans(d, x, y, p);
    BelowMember(d, bs, x);
  }

  lemma CountedDone(d: Dag, chosen: set<Hash>, c: Hash, visited: set<Hash>, counted: set<Hash>)
    requires d.Valid() && Counting(d, chosen, c, visited, [], counted) && c !in PastBelow(d, chosen)
    ensures Added(d, chosen, c) == {c} + counted && |Added(d, chosen, c)| == 1 + |counted|
  {
    PastIn(d, c);
    forall x | x in d.Past(c) && x !in PastBelow(d, chosen) ensures x in counted {
      CountedAll(d, chosen, c, visited, counted, c, x);
    }
    assert c !in counted;
  }

  /** A traversal that stops early has counted no more than there is. */
  lemma CountedSome(d: Dag, chosen: set<Hash>, c: Hash, visited: set<Hash>, queue: seq<Hash>, counted: set<Hash>,
                    x: Hash)
    requires d.Valid() && Counting(d, chosen, c, visited, queue, counted) && c !in PastBelow(d, chosen)
    requires x in visited && x !in counted && x !in PastBelow(d, chosen)
    ensures |Added(d, chosen, c)| >= 2 + |counted|
  {
    PastIn(d, c);
    var some := {c} + counted + {x};
    assert |some| == 2 + |counted|;
    SubsetSize(some, Added(d, chosen, c));
  }

  lemma CountStart(d: Dag, chosen: set<Hash>, c: Hash, queue: seq<Hash>)
    requires d.Valid() && Elems(queue) == d.Parents(c) && NoDup(queue)
    ensures Counting(d, chosen, c, Elems(queue), queue, {})
  {
    PastUnfold(d, c);
  }

  /** A visited block below the chosen ones is passed over. */
  lemma CountSkip(d: Dag, chosen: set<Hash>, c: Hash, visited: set<Hash>, queue: seq<Hash>, counted: set<Hash>)
    requires Counting(d, chosen, c, visited, queue, counted) && queue != [] && queue[0] in PastBelow(d, chosen)
    ensures Counting(d, chosen, c, visited, queue[1..], counted)
  {
    hide PastBelow, Elems;
    PopFront(queue);
  }

  /** A block is counted and its parents not seen before are queued. */
  lemma CountExpand(d: Dag, chosen: set<Hash>, c: Hash, visited: set<Hash>, queue: seq<Hash>, counted: set<Hash>,
                    unseen: seq<Hash>)
    requires d.Valid() && Counting(d, chosen, c, visited, queue, counted) && queue != []
             && queue[0] !in PastBelow(d, chosen)
    requires NoDup(unseen) && Elems(unseen) == d.Parents(queue[0]) - visited
    ensures Counting(d, chosen, c, visited + Elems(unseen), queue[1..] + unseen, counted + {queue[0]})
  {
    var x := queue[0];
    assert x in Elems(queue);
    PastUnfold(d, x);
    forall p | p in d.Parents(x) ensures p in d.Past(c) && p != x {
      PastTrans(d, p, x, c);
      PastIn(d, x);
    }
    hide PastBelow, Elems;
    PopFront(queue);
    Extend(queue[1..], unseen);
  }

  datatype MergesetIncreaseResult = Accepted(size: nat) | Rejected(newCandidate: Hash)

  lemma RelationsOf(manager: GhostdagManager, d: Dag, b: Hash)
    requires manager.Valid(d) && b in d.Blocks()
    ensures b in manager.relations && Elems(manager.relations[b]) == d.Parents(b) && NoDup(manager.relations[b])
    ensures d.Parents(b) <= d.Blocks()
  {
    hide Coloured, ReachabilityService.Serves;
    PastUnfold(d, b);
  }

  /** The parents of `block` that were not visited before. */
  method Unvisited(manager: GhostdagManager, block: Hash, visited: set<Hash>, ghost d: Dag) returns (unseen: seq<Hash>)
    requires manager.Valid(d) && block in d.Blocks()
    ensures NoDup(unseen) && Elems(unseen) == d.Parents(block) - visited
  {
    hide *;
    RelationsOf(manager, d, block);
    var parents := manager.relations[block];
    unseen := [];
    ElemsEmpty();
    assert parents[..0] == [];
    for i := 0 to |parents|
      invariant NoDup(unseen) && Elems(unseen) == Elems(parents[..i]) - visited
    {
      ElemsPrefix(parents, i);
      if parents[i] !in visited {
        AppendFresh(unseen, parents[i]);
        unseen := unseen + [parents[i]];
      }
    }
    assert parents[..|parents|] == parents;
  }

  lemma AppendFresh(s: seq<Hash>, x: Hash)
    requires NoDup(s) && x !in Elems(s)
    ensures NoDup(s + [x]) && Elems(s + [x]) == Elems(s) + {x}
  {
    ElemsAppend(s, x);
    forall i | 0 <= i < |s| ensures s[i] != x { assert s[i] in Elems(s); }
  }

  /** Counts what `candidate` would add to the mergeset, giving up beyond the budget with a block
      of the candidate's past that is not below the selected parents. */
  method MergesetIncrease(manager: GhostdagManager, selectedParents: seq<Hash>, candidate: Hash, budget: nat,
                          ghost d: Dag)
    returns (r: MergesetIncreaseResult)
    requires manager.Valid(d) && Elems(selectedParents) <= d.Blocks() && candidate in d.Blocks()
    requires candidate !in PastBelow(d, Elems(selectedParents))
    ensures r.Accepted? ==> r.size == |Added(d, Elems(selectedParents), candidate)| && (r.size <= budget || r.size == 1)
    ensures r.Rejected? ==>
              && |Added(d, Elems(selectedParents), candidate)| > budget
              && r.newCandidate in d.Past(candidate) && r.newCandidate !in PastBelow(d, Elems(selectedParents))
  {
    hide *;
    ghost var chosen := Elems(selectedParents);
    ManagerFacts(manager, d);
    RelationsOf(manager, d, candidate);
    var queue := manager.relations[candidate];
    var visited := Elems(queue);
    CountStart(d, chosen, candidate, queue);
    ghost var counted: set<Hash> := {};
    var increase := 1;
    while queue != []
      invariant Counting(d, chosen, candidate, visited, queue, counted) && visited <= d.Blocks()
      invariant increase == 1 + |counted| && (increase <= budget || increase == 1)
      decreases |d.Blocks() - visited|, |queue|
    {
      var current := queue[0];
      QueueHead(d, chosen, candidate, visited, queue, counted);
      var below := manager.reachability.IsDagAncestorOfAny(current, selectedParents, d);
      BelowList(d, selectedParents, current);
      if below {
        CountSkip(d, chosen, candidate, visited, queue, counted);
        queue := queue[1..];
        continue;
      }
      CountedSome(d, chosen, candidate, visited, queue, counted, current);
      increase := increase + 1;
      if increase > budget {
        return MergesetIncreaseResult.Rejected(current);
      }
      var unseen := Unvisited(manager, current, visited, d);
      CountExpand(d, chosen, candidate, visited, queue, counted, unseen);
      Visits(d, current, visited, unseen);
      visited := visited + Elems(unseen);
      queue := queue[1..] + unseen;
      counted := counted + {current};
    }
    CountedDone(d, chosen, candidate, visited, counted);
    r := MergesetIncreaseResult.Accepted(increase);
  }

  lemma QueueHead(d: Dag, chosen: set<Hash>, c: Hash, visited: set<Hash>, queue: seq<Hash>, counted: set<Hash>)
    requires Counting(d, chosen, c, visited, queue, counted) && queue != []
    ensures queue[0] in visited && queue[0] in d.Past(c) && queue[0] !in counted
  {
    assert queue[0] in Elems(queue);
  }

  lemma BelowList(d: Dag, list: seq<Hash>, x: Hash)
    ensures (exists q :: q in list && Reaches(d, x, q)) <==> x in PastBelow(d, Elems(list))
  {
    BelowMember(d, Elems(list), x);
  }

  lemma Visits(d: Dag, x: Hash, visited: set<Hash>, unseen: seq<Hash>)
    requires d.Valid() && visited <= d.Blocks() && NoDup(unseen) && Elems(unseen) == d.Parents(x) - visited
    ensures visited + Elems(unseen) <= d.Blocks()
    ensures |d.Blocks() - (visited + Elems(unseen))| < |d.Blocks() - visited| || unseen == []
  {
    PastUnfold(d, x);
    if unseen != [] {
      assert unseen[0] in Elems(unseen);
      SubsetSize(d.Blocks() - (visited + Elems(unseen)), d.Blocks() - visited);
    }
  }

  // ----- the candidates -----

  /** A prefix of the descending list of `s` holds the greatest blocks of `s`. */
  lemma PrefixIsTop(g: Colours, s: set<Hash>, list: seq<Hash>, w: nat)
    requires Descending(g, list) && Elems(list) == s && s <= g.Keys
    ensures IsTop(g, w, s, Elems(list[..if |list| <= w then |list| else w]))
  {
    var n := if |list| <= w then |list| else w;
    DescendingDistinct(g, list);
    ElemsSize(list);
    ElemsSize(list[..n]);
    if n == |list| { assert list[..n] == list; }
    forall x | x in Elems(list[..n]) ensures x in s {
      var i :| 0 <= i < n && list[..n][i] == x;
      assert list[i] == x;
    }
    forall x, y | x in Elems(list[..n]) && y in s && y !in Elems(list[..n]) ensures Less(g, y, x) {
      var i :| 0 <= i < n && list[..n][i] == x;
      var j :| 0 <= j < |list| && list[j] == y;
    }
  }

  lemma SwapKeeps(s: seq<Hash>, i: nat, j: nat)
    requires NoDup(s) && i < |s| && j < |s|
    ensures NoDup(s[i := s[j]][j := s[i]]) && Elems(s[i := s[j]][j := s[i]]) == Elems(s)
  {
    var r := s[i := s[j]][j := s[i]];
    forall x ensures x in Elems(r) <==> x in Elems(s) {
      if x in Elems(s) {
        var m :| 0 <= m < |s| && s[m] == x;
        assert r[if m == i then j else if m == j then i else m] == x;
      }
    }
  }

  /** The list after its places from `lo` to `hi` were exchanged, one by one, with its last ones. */
  ghost function Swapped(list: seq<Hash>, lo: nat, hi: nat): (r: seq<Hash>)
    requires lo <= hi && (hi > lo ==> hi < |list|)
    ensures |r| == |list|
  {
    if hi == lo then list
    else
      var r, i, j := Swapped(list, lo, hi - 1), hi - 1, |list| - (hi - lo);
      r[i := r[j]][j := r[i]]
  }

  /** Unless the places meet, the first ones stay and the next ones hold the last of the list. */
  lemma {:induction false} SwappedPlaces(list: seq<Hash>, lo: nat, hi: nat, k: nat)
    requires lo <= hi && (hi > lo ==> hi < |list|) && hi + (hi - lo) <= |list| && k < |list| - (hi - lo)
    ensures Swapped(list, lo, hi)[k] == if lo <= k < hi then list[|list| - 1 - (k - lo)] else list[k]
  {
    if hi > lo {
      if k < hi - 1 || hi <= k {
        SwappedPlaces(list, lo, hi - 1, k);
      }
      SwappedPlaces(list, lo, hi - 1, |list| - (hi - lo));
    }
  }

  /** At most three times as many candidates as there may be parents: the heaviest tips in
      descending order, half of the first places exchanged with the last ones. */
  method SelectCandidates(manager: GhostdagManager, selectedParent: Hash, tips: seq<Hash>, maxBlockParents: nat,
                          ghost d: Dag)
    returns (candidates: seq<Hash>, ghost top: seq<Hash>)
    requires manager.Valid(d) && Elems(tips) <= d.Blocks() && maxBlockParents >= 1
    ensures NoDup(candidates) && Elems(candidates) == Elems(top) && manager.ghostdag.Keys == d.Blocks()
    ensures IsTop(manager.ghostdag, 3 * maxBlockParents, Elems(tips) - {selectedParent}, Elems(top))
            && Descending(manager.ghostdag, top)
    ensures candidates == if |top| < maxBlockParents then top
              else Swapped(top, (maxBlockParents - 1) / 2, maxBlockParents - 1)
  {
    hide *;
    ManagerFacts(manager, d);
    var g := manager.ghostdag;
    var ascending := manager.SortBlocks(Elems(tips) - {selectedParent});
    ReversedDescending(g, ascending);
    var descending := Reversed(ascending);
    var maxCandidates := 3 * maxBlockParents;
    PrefixIsTop(g, Elems(tips) - {selectedParent}, descending, maxCandidates);
    DescendingDistinct(g, descending);
    candidates := descending[..if |descending| <= maxCandidates then |descending| else maxCandidates];
    PrefixDistinct(descending, |candidates|);
    top := candidates;
    PrefixDescends(g, descending, |candidates|);
    if |candidates| >= maxBlockParents {
      var maxAdditionalParents := maxBlockParents - 1;
      var j := |candidates| - 1;
      ghost var n, lo := |candidates|, maxAdditionalParents / 2;
      SwappedNone(top, lo);
      for i := maxAdditionalParents / 2 to maxAdditionalParents
        invariant |candidates| == n && NoDup(candidates) && Elems(candidates) == Elems(top)
        invariant j == n - 1 - (i - lo) && candidates == Swapped(top, lo, i)
      {
        SwapKeeps(candidates, i, j);
        SwappedNext(top, lo, i, candidates);
        candidates := candidates[i := candidates[j]][j := candidates[i]];
        j := j - 1;
      }
    }
  }

  lemma SwappedNone(list: seq<Hash>, lo: nat)
    ensures Swapped(list, lo, lo) == list
  {
  }

  lemma SwappedNext(list: seq<Hash>, lo: nat, i: nat, r: seq<Hash>)
    requires lo <= i && i + 1 < |list| && r == Swapped(list, lo, i)
    ensures var j := |list| - 1 - (i - lo); Swapped(list, lo, i + 1) == r[i := r[j]][j := r[i]]
  {
  }

  lemma PrefixDescends(g: Colours, s: seq<Hash>, n: nat)
    requires Descending(g, s) && n <= |s|
    ensures Descending(g, s[..n])
  {
  }

  lemma PrefixDistinct(s: seq<Hash>, n: nat)
    requires NoDup(s) && n <= |s|
    ensures NoDup(s[..n])
  {
  }

  // ----- the choice -----

  /** The summed sizes of the remaining candidates with their pasts. */
  ghost function Weight(d: Dag, s: seq<Hash>): nat {
    if s == [] then 0 else |d.Past(s[0])| + 1 + Weight(d, s[1..])
  }

  lemma {:induction false} WeightAppend(d: Dag, s: seq<Hash>, x: Hash)
    ensures Weight(d, s + [x]) == Weight(d, s) + |d.Past(x)| + 1
  {
    if s != [] {
      assert (s + [x])[0] == s[0] && (s + [x])[1..] == s[1..] + [x];
      WeightAppend(d, s[1..], x);
    } else {
      assert s + [x] == [x] && [x][1..] == [];
    }
  }

  /** An antichain of blocks none of which is heavier than the selected parent. */
  ghost predicate Beneath(d: Dag, g: Colours, sp: Hash, s: set<Hash>) {
    s <= g.Keys && Antichain(d, s) && sp in g && forall x :: x in s ==> x == sp || Less(g, x, sp)
  }

  /** Chosen parents and candidates, each listed once. */
  ghost predicate ListedOnce(sp: Hash, chosen: seq<Hash>, candidates: seq<Hash>) {
    chosen != [] && chosen[0] == sp && NoDup(chosen) && NoDup(candidates) && Elems(chosen) !! Elems(candidates)
  }

  /** Chosen parents and candidates form an antichain under the selected parent, and the size of
      the mergeset of the chosen parents is known. */
  ghost predicate Picking(d: Dag, g: Colours, sp: Hash, chosen: seq<Hash>, candidates: seq<Hash>, size: nat) {
    && d.Valid() && g.Keys == d.Blocks() && ListedOnce(sp, chosen, candidates)
    && Beneath(d, g, sp, Elems(chosen) + Elems(candidates))
    && size == 1 + |MergeSet(d, Elems(chosen), sp)|
  }

  lemma PickStart(d: Dag, g: Colours, sp: Hash, tips: set<Hash>, candidates: seq<Hash>)
    requires d.Valid() && g.Keys == d.Blocks() && tips <= d.Blocks() && Antichain(d, tips) && Heaviest(g, tips, sp)
    requires NoDup(candidates) && Elems(candidates) <= tips - {sp}
    ensures Picking(d, g, sp, [sp], candidates, 1)
  {
    hide Less, Beneath, MergeSet;
    assert Elems([sp]) == {sp};
    NothingMerged(d, sp);
    BeneathFewer(d, g, sp, tips, {sp} + Elems(candidates));
  }

  lemma NothingMerged(d: Dag, sp: Hash)
    ensures MergeSet(d, {sp}, sp) == {}
  {
  }

  lemma BeneathFewer(d: Dag, g: Colours, sp: Hash, s: set<Hash>, r: set<Hash>)
    requires s <= g.Keys && Antichain(d, s) && sp in s && (forall x :: x in s ==> x == sp || Less(g, x, sp)) && r <= s
    ensures Beneath(d, g, sp, r)
  {
  }

  /** A candidate is not below the chosen parents. */
  lemma CandidateAbove(d: Dag, g: Colours, sp: Hash, chosen: seq<Hash>, candidates: seq<Hash>, size: nat)
    requires Picking(d, g, sp, chosen, candidates, size) && candidates != []
    ensures candidates[0] in d.Blocks() && candidates[0] !in PastBelow(d, Elems(chosen))
  {
    var c := candidates[0];
    assert c in Elems(candidates);
    BelowMember(d, Elems(chosen), c);
  }

  /** The mergeset grows by what the candidate adds. */
  lemma MergeSetGrows(d: Dag, chosen: set<Hash>, sp: Hash, c: Hash)
    requires d.Valid() && sp in chosen
    ensures |MergeSet(d, chosen + {c}, sp)| == |MergeSet(d, chosen, sp)| + |Added(d, chosen, c)|
  {
    var old_, new_ := MergeSet(d, chosen, sp), Added(d, chosen, c);
    forall x ensures x in MergeSet(d, chosen + {c}, sp) <==> x in old_ || x in new_ {
      MergeSetGrowsAt(d, chosen, sp, c, x);
    }
    forall x | x in old_ ensures x !in new_ {
      MergeSetMember(d, chosen, sp, x);
    }
    hide MergeSet, Added;
    assert MergeSet(d, chosen + {c}, sp) == old_ + new_;
  }

  lemma MergeSetGrowsAt(d: Dag, chosen: set<Hash>, sp: Hash, c: Hash, x: Hash)
    requires d.Valid() && sp in chosen
    ensures x in MergeSet(d, chosen + {c}, sp) <==> x in MergeSet(d, chosen, sp) || x in Added(d, chosen, c)
  {
    hide MergeSet;
    MergeSetMember(d, chosen + {c}, sp, x);
    MergeSetMember(d, chosen, sp, x);
    BelowMember(d, chosen + {c}, x);
    BelowMember(d, chosen, x);
  }

  lemma PickAccept(d: Dag, g: Colours, sp: Hash, chosen: seq<Hash>, candidates: seq<Hash>, size: nat)
    requires Picking(d, g, sp, chosen, candidates, size) && candidates != []
    ensures Picking(d, g, sp, chosen + [candidates[0]], candidates[1..],
                    size + |Added(d, Elems(chosen), candidates[0])|)
  {
    hide MergeSet, Beneath, Elems, Added, ListedOnce;
    var c := candidates[0];
    ListedAccept(sp, chosen, candidates);
    MergeSetGrows(d, Elems(chosen), sp, c);
  }

  lemma ListedAccept(sp: Hash, chosen: seq<Hash>, candidates: seq<Hash>)
    requires ListedOnce(sp, chosen, candidates) && candidates != []
    ensures sp in Elems(chosen) && Elems(chosen + [candidates[0]]) == Elems(chosen) + {candidates[0]}
    ensures Elems(chosen + [candidates[0]]) + Elems(candidates[1..]) == Elems(chosen) + Elems(candidates)
    ensures ListedOnce(sp, chosen + [candidates[0]], candidates[1..])
  {
    assert sp in Elems(chosen) && candidates[0] in Elems(candidates);
    hide Elems;
    PopFront(candidates);
    AppendFresh(chosen, candidates[0]);
  }

  /** Dropping candidates leaves an antichain. */
  lemma PickDrop(d: Dag, g: Colours, sp: Hash, chosen: seq<Hash>, candidates: seq<Hash>, size: nat, fewer: seq<Hash>)
    requires Picking(d, g, sp, chosen, candidates, size) && NoDup(fewer) && Elems(fewer) <= Elems(candidates)
    ensures Picking(d, g, sp, chosen, fewer, size)
  {
    hide MergeSet, Elems, Less;
  }

  /** No chosen parent or remaining candidate is an ancestor of a block in the past of the popped one. */
  lemma NeverSkipped(d: Dag, g: Colours, sp: Hash, chosen: seq<Hash>, candidates: seq<Hash>, size: nat, x: Hash,
                     h: Hash)
    requires Picking(d, g, sp, chosen, candidates, size) && candidates != [] && x in d.Past(candidates[0])
    requires h in Elems(chosen) + Elems(candidates)
    ensures !Reaches(d, h, x)
  {
    hide MergeSet, Less;
    assert candidates[0] in Elems(candidates);
    if Reaches(d, h, x) && h != x { PastTrans(d, h, x, candidates[0]); }
  }

  lemma PickReplace(d: Dag, g: Colours, sp: Hash, chosen: seq<Hash>, candidates: seq<Hash>, size: nat, x: Hash,
                    kept: seq<Hash>)
    requires Picking(d, g, sp, chosen, candidates, size) && WorkGrows(d, g) && candidates != []
    requires x in d.Past(candidates[0]) && x !in PastBelow(d, Elems(chosen))
    requires NoDup(kept) && Elems(kept) <= Elems(candidates) && forall h :: h in Elems(kept) ==> !Reaches(d, x, h)
    ensures Picking(d, g, sp, chosen, kept + [x], size)
  {
    hide Less, MergeSet, Elems, PastBelow, Reaches;
    var c := candidates[0];
    ListedHead(candidates);
    PastIn(d, c);
    PastIn(d, x);
    WorkGrowsPast(d, g, x, c);
    if c != sp { LessTrans(g, x, c, sp); }
    forall h | h in Elems(chosen) + Elems(kept) ensures !Reaches(d, h, x) && !Reaches(d, x, h) {
      NeverSkipped(d, g, sp, chosen, candidates, size, x, h);
      BelowMember(d, Elems(chosen), x);
    }
    BeneathMore(d, g, sp, Elems(chosen) + Elems(kept), x);
    ReachesSelf(d, x);
    AppendFresh(kept, x);
    assert Elems(chosen) + Elems(kept) + {x} == Elems(chosen) + Elems(kept + [x]);
  }

  lemma ListedHead(s: seq<Hash>)
    requires s != []
    ensures s[0] in Elems(s)
  {
  }

  lemma ReachesSelf(d: Dag, x: Hash)
    ensures Reaches(d, x, x)
  {
  }

  lemma BeneathMore(d: Dag, g: Colours, sp: Hash, s: set<Hash>, x: Hash)
    requires d.Valid() && Beneath(d, g, sp, s) && x in g && Less(g, x, sp)
    requires forall h :: h in s ==> !Reaches(d, h, x) && !Reaches(d, x, h)
    ensures Beneath(d, g, sp, s + {x})
  {
    PastIn(d, x);
  }

  /** The listed blocks that are not in the future of `x`, in their order. */
  method RetainUnrelated(manager: GhostdagManager, list: seq<Hash>, x: Hash, ghost d: Dag) returns (kept: seq<Hash>)
    requires manager.Valid(d) && Elems(list) <= d.Blocks() && x in d.Blocks() && NoDup(list)
    ensures NoDup(kept) && Elems(kept) == (set h | h in Elems(list) && !Reaches(d, x, h))
    ensures Weight(d, kept) <= Weight(d, list)
  {
    hide *;
    ManagerFacts(manager, d);
    kept := [];
    ElemsEmpty();
    RetainNone(d, list, x);
    for i := 0 to |list|
      invariant Retained(d, list, i, x, kept)
    {
      RetainHead(list, i);
      var below := manager.reachability.IsDagAncestorOf(x, list[i], d);
      RetainStep(d, list, i, x, kept);
      if !below {
        kept := kept + [list[i]];
      }
    }
    RetainAll(d, list, x, kept);
  }

  ghost predicate Retained(d: Dag, list: seq<Hash>, i: nat, x: Hash, kept: seq<Hash>) {
    && i <= |list| && NoDup(kept) && Elems(kept) == (set h | h in Elems(list[..i]) && !Reaches(d, x, h))
    && Weight(d, kept) <= Weight(d, list[..i])
  }

  lemma RetainNone(d: Dag, list: seq<Hash>, x: Hash)
    ensures Retained(d, list, 0, x, [])
  {
  }

  lemma RetainHead(list: seq<Hash>, i: nat)
    requires i < |list|
    ensures list[i] in Elems(list)
  {
  }

  lemma RetainStep(d: Dag, list: seq<Hash>, i: nat, x: Hash, kept: seq<Hash>)
    requires Retained(d, list, i, x, kept) && i < |list| && NoDup(list)
    ensures Retained(d, list, i + 1, x, if Reaches(d, x, list[i]) then kept else kept + [list[i]])
  {
    hide Elems, Reaches, Weight;
    ElemsPrefix(list, i);
    WeightAppend(d, list[..i], list[i]);
    WeightAppend(d, kept, list[i]);
    if !Reaches(d, x, list[i]) { AppendFresh(kept, list[i]); }
  }

  lemma RetainAll(d: Dag, list: seq<Hash>, x: Hash, kept: seq<Hash>)
    requires Retained(d, list, |list|, x, kept)
    ensures NoDup(kept) && Elems(kept) == (set h | h in Elems(list) && !Reaches(d, x, h))
            && Weight(d, kept) <= Weight(d, list)
  {
    assert list[..|list|] == list;
  }

  lemma WeightPop(d: Dag, s: seq<Hash>)
    requires s != []
    ensures Weight(d, s) == |d.Past(s[0])| + 1 + Weight(d, s[1..])
  {
  }

  lemma PastSmaller(d: Dag, a: Hash, b: Hash)
    requires d.Valid() && a in d.Past(b)
    ensures |d.Past(a)| < |d.Past(b)|
  {
    PastIn(d, a);
    forall x | x in d.Past(a) ensures x in d.Past(b) { PastTrans(d, x, a, b); }
    SubsetSize(d.Past(a), d.Past(b));
  }

  /** Picks parents for the virtual block among the tips: as many as the limits on parents and on
      the mergeset allow, going down into the past of a tip that would merge too much. */
  method ChooseParents(manager: GhostdagManager, selectedParent: Hash, tips: seq<Hash>, maxBlockParents: nat,
                       mergesetSizeLimit: nat,
                       ghost d: Dag)
    returns (chosen: seq<Hash>, mergesetSize: nat)
    requires manager.Valid(d) && Elems(tips) <= d.Blocks() && Antichain(d, Elems(tips))
    requires Heaviest(manager.ghostdag, Elems(tips), selectedParent) && maxBlockParents >= 1 && mergesetSizeLimit >= 1
    ensures Picking(d, manager.ghostdag, selectedParent, chosen, [], mergesetSize)
    ensures mergesetSize <= mergesetSizeLimit && |chosen| <= maxBlockParents
    ensures Elems(chosen) <= PastBelow(d, Elems(tips))
  {
    hide *;
    ManagerFacts(manager, d);
    ghost var g := manager.ghostdag;
    var candidates: seq<Hash>;
    ghost var top;
    candidates, top := SelectCandidates(manager, selectedParent, tips, maxBlockParents, d);
    TopSubset(g, 3 * maxBlockParents, Elems(tips) - {selectedParent}, Elems(candidates));
    PickStart(d, g, selectedParent, Elems(tips), candidates);
    chosen := [selectedParent];
    ElemsSingle(selectedParent);
    TipsBelow(d, g, Elems(tips), selectedParent);
    mergesetSize := 1;
    while candidates != []
      invariant Picking(d, g, selectedParent, chosen, candidates, mergesetSize)
      invariant Elems(chosen) + Elems(candidates) <= PastBelow(d, Elems(tips))
      invariant mergesetSize <= mergesetSizeLimit && |chosen| <= maxBlockParents
      decreases Weight(d, candidates)
    {
      var candidate := candidates[0];
      WeightPop(d, candidates);
      if mergesetSize >= mergesetSizeLimit || |chosen| >= maxBlockParents {
        break;
      }
      CandidateAbove(d, g, selectedParent, chosen, candidates, mergesetSize);
      PickingFacts(d, g, selectedParent, chosen, candidates, mergesetSize);
      var result := MergesetIncrease(manager, chosen, candidate, mergesetSizeLimit - mergesetSize, d);
      match result {
        case Accepted(increase) =>
          PickAccept(d, g, selectedParent, chosen, candidates, mergesetSize);
          HeadMoves(chosen, candidates);
          mergesetSize := mergesetSize + increase;
          chosen := chosen + [candidate];
          candidates := candidates[1..];
        case Rejected(newCandidate) =>
          PastIn(d, candidate);
          var covered := manager.reachability.IsAnyDagAncestor(candidates[1..], newCandidate, d);
          if covered {
            NoneCovers(d, g, selectedParent, chosen, candidates, mergesetSize, newCandidate);
            assert false;
          }
          var kept := RetainUnrelated(manager, candidates[1..], newCandidate, d);
          PickReplace(d, g, selectedParent, chosen, candidates, mergesetSize, newCandidate, kept);
          ReplacedBelow(d, Elems(tips), candidates, kept, newCandidate);
          WeightAppend(d, kept, newCandidate);
          PastSmaller(d, newCandidate, candidate);
          candidates := kept + [newCandidate];
      }
    }
    ElemsEmpty();
    PickDropAll(d, g, selectedParent, chosen, candidates, mergesetSize);
  }

  lemma TipsBelow(d: Dag, g: Colours, tips: set<Hash>, sp: Hash)
    requires Heaviest(g, tips, sp)
    ensures tips <= PastBelow(d, tips) && sp in tips
  {
  }

  lemma HeadMoves(chosen: seq<Hash>, candidates: seq<Hash>)
    requires candidates != []
    ensures Elems(chosen + [candidates[0]]) + Elems(candidates[1..]) == Elems(chosen) + Elems(candidates)
  {
    assert candidates == [candidates[0]] + candidates[1..];
  }

  lemma ReplacedBelow(d: Dag, tips: set<Hash>, candidates: seq<Hash>, kept: seq<Hash>, x: Hash)
    requires d.Valid() && candidates != [] && Elems(candidates) <= PastBelow(d, tips)
    requires Elems(kept) <= Elems(candidates[1..]) && x in d.Past(candidates[0])
    ensures Elems(kept + [x]) <= PastBelow(d, tips)
  {
    assert candidates == [candidates[0]] + candidates[1..];
    ElemsAppend(kept, x);
    assert candidates[0] in Elems(candidates);
    BelowClosed(d, tips, candidates[0], x);
  }

  lemma TopSubset(g: Colours, w: nat, s: set<Hash>, h: set<Hash>)
    requires s <= g.Keys && IsTop(g, w, s, h)
    ensures h <= s
  {
  }

  lemma PickingFacts(d: Dag, g: Colours, sp: Hash, chosen: seq<Hash>, candidates: seq<Hash>, size: nat)
    requires Picking(d, g, sp, chosen, candidates, size)
    ensures Elems(chosen) <= d.Blocks() && Elems(candidates) <= d.Blocks()
    ensures candidates != [] ==>
              NoDup(candidates[1..]) && Elems(candidates[1..]) <= d.Blocks()
                && Elems(candidates[1..]) <= Elems(candidates)
  {
    hide MergeSet, Less;
    if candidates != [] { PopFront(candidates); }
  }

  /** The test whether a remaining candidate is an ancestor of the new one never succeeds. */
  lemma NoneCovers(d: Dag, g: Colours, sp: Hash, chosen: seq<Hash>, candidates: seq<Hash>, size: nat, x: Hash)
    requires Picking(d, g, sp, chosen, candidates, size) && candidates != [] && x in d.Past(candidates[0])
    ensures !exists q :: q in candidates[1..] && Reaches(d, q, x)
  {
    hide Picking;
    forall q | q in candidates[1..] ensures !Reaches(d, q, x) {
      assert q in Elems(candidates);
      NeverSkipped(d, g, sp, chosen, candidates, size, x, q);
    }
  }

  lemma PickDropAll(d: Dag, g: Colours, sp: Hash, chosen: seq<Hash>, candidates: seq<Hash>, size: nat)
    requires Picking(d, g, sp, chosen, candidates, size)
    ensures Picking(d, g, sp, chosen, [], size)
  {
    hide Picking;
    ElemsEmpty();
    PickDrop(d, g, sp, chosen, candidates, size, []);
  }

  // ----- bounded merge -----

  /** A red block that is not in the future of the merge depth root, nor in the past of a blue
      block whose selected chain goes through the merge depth root. */
  ghost predicate BadRed(d: Dag, g: Colours, data: Data, mergeDepthRoot: Hash, red: Hash)
    requires Chained(d, g) && g.Keys == d.Blocks()
  {
    && red in data.reds && !Reaches(d, mergeDepthRoot, red)
    && forall blue :: blue in data.blues && blue in g && OnChain(d, g, mergeDepthRoot, blue) ==> !Reaches(d, red, blue)
  }

  /** Exactly the parents that lead to no bad red are kept. */
  ghost predicate Filtered(d: Dag, g: Colours, chosen: seq<Hash>, first: Data, mergeDepthRoot: Hash, kept: seq<Hash>)
    requires Chained(d, g) && g.Keys == d.Blocks()
  {
    forall h :: h in kept <==>
                  h in chosen && !exists r :: BadRed(d, g, first, mergeDepthRoot, r) && Reaches(d, r, h)
  }

  /** The blues whose selected chain goes through the merge depth root. */
  method KosherizingBlues(manager: GhostdagManager, data: Data, mergeDepthRoot: Hash, ghost d: Dag)
    returns (r: seq<Hash>)
    requires manager.Valid(d) && Elems(data.blues) <= d.Blocks() && mergeDepthRoot in d.Blocks()
    ensures var g := manager.ghostdag;
            && Chained(d, g) && g.Keys == d.Blocks() && Elems(r) <= Elems(data.blues)
            && forall b :: b in data.blues && b in g ==> (b in r <==> OnChain(d, g, mergeDepthRoot, b))
  {
    hide *;
    ManagerFacts(manager, d);
    ghost var g := manager.ghostdag;
    r := [];
    for i := 0 to |data.blues|
      invariant forall x :: x in r ==> x in data.blues
      invariant forall j :: 0 <= j < i && data.blues[j] in g && OnChain(d, g, mergeDepthRoot, data.blues[j]) ==>
                              data.blues[j] in r
      invariant forall x :: x in r ==> x in g && OnChain(d, g, mergeDepthRoot, x)
    {
      RetainHead(data.blues, i);
      SelectedChain(manager, d, mergeDepthRoot, data.blues[i]);
      var through := manager.reachability.IsChainAncestorOf(mergeDepthRoot, data.blues[i], d);
      if through {
        r := r + [data.blues[i]];
      }
    }
    SubList(r, data.blues);
  }

  lemma SubList(r: seq<Hash>, s: seq<Hash>)
    requires forall x :: x in r ==> x in s
    ensures Elems(r) <= Elems(s)
  {
  }

  lemma SelectedChain(m: GhostdagManager, d: Dag, a: Hash, b: Hash)
    requires m.Valid(d) && b in d.Blocks()
    ensures Chained(d, m.ghostdag) && b in m.ghostdag && m.reachability.store.tree.WF()
            && b in m.reachability.store.tree.nodes
    ensures m.reachability.store.tree.Anc(a, b) <==> OnChain(d, m.ghostdag, a, b)
  {
    ManagerFacts(m, d);
    hide Mirrors, Coloured, Recorded;
    var store := m.reachability.store;
    MirrorFacts(store.tree, store.interval, store.futureCovering, store.reindexRoot, d, m.reachability.slack);
    ChainIsTree(store.tree, d, m.ghostdag, a, b);
  }

  /** All bad reds of the data. */
  method FindBadReds(manager: GhostdagManager, data: Data, mergeDepthRoot: Hash, ghost d: Dag) returns (bad: seq<Hash>)
    requires manager.Valid(d) && Elems(data.blues) <= d.Blocks() && Elems(data.reds) <= d.Blocks()
             && mergeDepthRoot in d.Blocks()
    ensures var g := manager.ghostdag;
            && Chained(d, g) && g.Keys == d.Blocks() && Elems(bad) <= d.Blocks()
            && forall red :: red in bad <==> BadRed(d, g, data, mergeDepthRoot, red)
  {
    hide *;
    ManagerFacts(manager, d);
    ghost var g := manager.ghostdag;
    var kosherizing := KosherizingBlues(manager, data, mergeDepthRoot, d);
    bad := [];
    for i := 0 to |data.reds|
      invariant forall x :: x in bad ==> BadRed(d, g, data, mergeDepthRoot, x) && x in d.Blocks()
      invariant forall j :: 0 <= j < i && BadRed(d, g, data, mergeDepthRoot, data.reds[j]) ==> data.reds[j] in bad
    {
      RetainHead(data.reds, i);
      var above := manager.reachability.IsDagAncestorOf(mergeDepthRoot, data.reds[i], d);
      var kosher := true;
      if !above {
        kosher := manager.reachability.IsDagAncestorOfAny(data.reds[i], kosherizing, d);
      }
      BadWhen(d, g, data, mergeDepthRoot, i, kosherizing);
      if !above && !kosher {
        bad := bad + [data.reds[i]];
      }
    }
    AllBad(d, g, data, mergeDepthRoot, bad);
  }

  lemma BadWhen(d: Dag, g: Colours, data: Data, mergeDepthRoot: Hash, i: nat, kosherizing: seq<Hash>)
    requires Chained(d, g) && g.Keys == d.Blocks() && i < |data.reds| && Elems(kosherizing) <= Elems(data.blues)
    requires forall b :: b in data.blues && b in g ==> (b in kosherizing <==> OnChain(d, g, mergeDepthRoot, b))
    requires Elems(data.blues) <= d.Blocks()
    ensures BadRed(d, g, data, mergeDepthRoot, data.reds[i])
            <==>
            && !Reaches(d, mergeDepthRoot, data.reds[i])
            && !exists q :: q in kosherizing && Reaches(d, data.reds[i], q)
  {
    hide Chained, OnChain, Reaches;
    forall q | q in kosherizing ensures q in data.blues && q in g {
      assert q in Elems(kosherizing) && q in Elems(data.blues);
    }
  }

  lemma AllBad(d: Dag, g: Colours, data: Data, mergeDepthRoot: Hash, bad: seq<Hash>)
    requires Chained(d, g) && g.Keys == d.Blocks()
    requires forall x :: x in bad ==> BadRed(d, g, data, mergeDepthRoot, x) && x in d.Blocks()
    requires forall j :: 0 <= j < |data.reds| && BadRed(d, g, data, mergeDepthRoot, data.reds[j]) ==>
                           data.reds[j] in bad
    ensures Elems(bad) <= d.Blocks() && forall red :: red in bad <==> BadRed(d, g, data, mergeDepthRoot, red)
  {
    forall red | BadRed(d, g, data, mergeDepthRoot, red) ensures red in bad {
      var j :| 0 <= j < |data.reds| && data.reds[j] == red;
    }
  }

  /** The parents above none of the bad reds. */
  method RetainClean(manager: GhostdagManager, parents: seq<Hash>, bad: seq<Hash>, ghost d: Dag)
    returns (kept: seq<Hash>)
    requires manager.Valid(d) && Elems(parents) <= d.Blocks() && Elems(bad) <= d.Blocks() && NoDup(parents)
    ensures NoDup(kept) && forall h :: h in kept <==> h in parents && !exists r :: r in bad && Reaches(d, r, h)
  {
    hide *;
    ManagerFacts(manager, d);
    kept := [];
    ElemsEmpty();
    for i := 0 to |parents|
      invariant NoDup(kept) && forall h :: h in kept <==> h in parents[..i] && !exists r :: r in bad && Reaches(d, r, h)
    {
      RetainHead(parents, i);
      var leads := manager.reachability.IsAnyDagAncestor(bad, parents[i], d);
      KeepStep(parents, i, kept);
      if !leads {
        kept := kept + [parents[i]];
      }
    }
    assert parents[..|parents|] == parents;
  }

  lemma KeepStep(parents: seq<Hash>, i: nat, kept: seq<Hash>)
    requires i < |parents| && NoDup(parents) && NoDup(kept) && forall h :: h in kept ==> h in parents[..i]
    ensures NoDup(kept + [parents[i]]) && forall h :: h in parents[..i + 1] <==> h in parents[..i] || h == parents[i]
  {
    assert parents[..i + 1] == parents[..i] + [parents[i]];
    forall j | 0 <= j < |kept| ensures kept[j] != parents[i] {
      assert kept[j] in parents[..i];
    }
  }

  /** Drops the parents that lead to merging a bad red. The selected parent always stays. */
  method RemoveBoundedMergeBreakingParents(manager: GhostdagManager, selectedParent: Hash, parents: seq<Hash>,
                                           mergeDepthRoot: Hash,
                                           ghost size: nat, ghost d: Dag)
    returns (kept: seq<Hash>, data: Data, ghost first: Data)
    requires manager.Valid(d) && Picking(d, manager.ghostdag, selectedParent, parents, [], size)
             && mergeDepthRoot in d.Blocks()
    ensures Finished(d, manager.ghostdag, manager.k, Elems(parents), first) && first.selectedParent == selectedParent
    ensures NoDup(kept) && selectedParent in kept && data.selectedParent == selectedParent
    ensures Finished(d, manager.ghostdag, manager.k, Elems(kept), data)
    ensures Naive(d, manager.ghostdag, manager.works, manager.k, Elems(parents), first)
    ensures Naive(d, manager.ghostdag, manager.works, manager.k, Elems(kept), data)
    ensures var g := manager.ghostdag;
            && Chained(d, g) && g.Keys == d.Blocks() && Filtered(d, g, parents, first, mergeDepthRoot, kept)
            && ((forall r :: !BadRed(d, g, first, mergeDepthRoot, r)) ==> kept == parents && data == first)
  {
    hide *;
    ManagerFacts(manager, d);
    ghost var g, k := manager.ghostdag, manager.k;
    ParentsReady(d, g, selectedParent, parents, size);
    AntichainSuffices(d, g, Elems(parents));
    data := manager.Ghostdag(parents, d);
    first := data;
    SameSelected(d, g, k, Elems(parents), data, selectedParent);
    ColoursKnown(d, g, k, parents, data);
    var badReds := FindBadReds(manager, data, mergeDepthRoot, d);
    kept := parents;
    if badReds != [] {
      assert badReds[0] in badReds;
      kept := RetainClean(manager, parents, badReds, d);
      SelectedStays(d, g, k, parents, data, mergeDepthRoot, badReds, kept);
      KeptReady(d, g, selectedParent, parents, size, kept);
      AntichainSuffices(d, g, Elems(kept));
      data := manager.Ghostdag(kept, d);
      SameSelected(d, g, k, Elems(kept), data, selectedParent);
      SameBad(d, g, first, mergeDepthRoot, badReds, parents, kept);
    } else {
      NoBad(d, g, first, mergeDepthRoot, badReds, parents);
    }
    FilteredNow(d, g, parents, first, mergeDepthRoot, kept);
  }

  lemma FilteredNow(d: Dag, g: Colours, chosen: seq<Hash>, first: Data, mergeDepthRoot: Hash, kept: seq<Hash>)
    requires Chained(d, g) && g.Keys == d.Blocks()
    requires forall h :: h in kept <==>
                           h in chosen && !exists r :: BadRed(d, g, first, mergeDepthRoot, r) && Reaches(d, r, h)
    ensures Filtered(d, g, chosen, first, mergeDepthRoot, kept)
  {
    hide Chained, BadRed, Reaches;
  }

  lemma FilteredKept(d: Dag, g: Colours, chosen: seq<Hash>, first: Data, mergeDepthRoot: Hash, kept: seq<Hash>)
    requires Chained(d, g) && g.Keys == d.Blocks() && Filtered(d, g, chosen, first, mergeDepthRoot, kept)
    ensures forall h :: h in kept ==> h in chosen
  {
    hide Chained, BadRed, Reaches;
  }

  lemma ParentsReady(d: Dag, g: Colours, sp: Hash, parents: seq<Hash>, size: nat)
    requires Picking(d, g, sp, parents, [], size)
    ensures parents != [] && NoDup(parents) && sp in parents && Elems(parents) <= d.Blocks()
            && Antichain(d, Elems(parents))
    ensures Heaviest(g, Elems(parents), sp)
  {
    hide MergeSet, Less;
    ElemsEmpty();
    assert Elems(parents) + {} == Elems(parents);
    assert sp in Elems(parents);
  }

  lemma SameSelected(d: Dag, g: Colours, k: nat, parents: set<Hash>, data: Data, sp: Hash)
    requires Finished(d, g, k, parents, data) && Heaviest(g, parents, sp)
    ensures data.selectedParent == sp
  {
    hide Partial, MergeSet;
    LessTotal(g, data.selectedParent, sp);
  }

  lemma ColoursKnown(d: Dag, g: Colours, k: nat, parents: seq<Hash>, data: Data)
    requires Finished(d, g, k, Elems(parents), data) && g.Keys == d.Blocks()
    ensures Elems(data.blues) <= d.Blocks() && Elems(data.reds) <= d.Blocks()
  {
    hide Partial, MergeSet;
    forall x | x in Elems(data.blues) ensures x in g {
      var i :| 0 <= i < |data.blues| && data.blues[i] == x;
      if i > 0 { assert data.blues[1..][i - 1] == x; }
    }
  }

  /** Bad reds are merged, so none of them is an ancestor of the selected parent. */
  lemma SelectedStays(d: Dag, g: Colours, k: nat, parents: seq<Hash>, data: Data, mergeDepthRoot: Hash, bad: seq<Hash>,
                      kept: seq<Hash>)
    requires Finished(d, g, k, Elems(parents), data) && Chained(d, g) && g.Keys == d.Blocks()
             && data.selectedParent in parents
    requires forall red :: red in bad <==> BadRed(d, g, data, mergeDepthRoot, red)
    requires forall h :: h in kept <==> h in parents && !exists r :: r in bad && Reaches(d, r, h)
    ensures data.selectedParent in kept
  {
    hide Partial, Chained, OnChain;
    forall r | r in bad ensures !Reaches(d, r, data.selectedParent) {
      assert BadRed(d, g, data, mergeDepthRoot, r) && r in Elems(data.reds);
      MergeSetMember(d, Elems(parents), data.selectedParent, r);
    }
  }

  lemma KeptReady(d: Dag, g: Colours, sp: Hash, parents: seq<Hash>, size: nat, kept: seq<Hash>)
    requires Picking(d, g, sp, parents, [], size) && sp in kept && forall h :: h in kept ==> h in parents
    ensures kept != [] && Elems(kept) <= d.Blocks() && Antichain(d, Elems(kept)) && Heaviest(g, Elems(kept), sp)
  {
    hide Picking, Less;
    ParentsReady(d, g, sp, parents, size);
    SubList(kept, parents);
    forall x, y | x in Elems(kept) && y in Elems(kept) ensures x !in d.Past(y) {}
  }

  lemma SameBad(d: Dag, g: Colours, data: Data, mergeDepthRoot: Hash, bad: seq<Hash>, parents: seq<Hash>,
                kept: seq<Hash>)
    requires Chained(d, g) && g.Keys == d.Blocks()
             && forall red :: red in bad <==> BadRed(d, g, data, mergeDepthRoot, red)
    requires forall h :: h in kept <==> h in parents && !exists r :: r in bad && Reaches(d, r, h)
    ensures forall h :: h in kept <==>
                          h in parents && !exists r :: BadRed(d, g, data, mergeDepthRoot, r) && Reaches(d, r, h)
  {
    hide BadRed, Reaches;
  }

  lemma NoBad(d: Dag, g: Colours, data: Data, mergeDepthRoot: Hash, bad: seq<Hash>, parents: seq<Hash>)
    requires Chained(d, g) && g.Keys == d.Blocks() && bad == []
    requires forall red :: red in bad <==> BadRed(d, g, data, mergeDepthRoot, red)
    ensures forall h :: h in parents ==> !exists r :: BadRed(d, g, data, mergeDepthRoot, r) && Reaches(d, r, h)
  {
    hide BadRed, Reaches;
  }

  /** The virtual parents: an antichain with the selected parent as its heaviest block, within the
      limits on parents and mergeset size. Of the chosen parents exactly those are kept that lead to
      no block that breaks the merge depth bound of the chosen ones. */
  method PickVirtualParents(manager: GhostdagManager, selectedParent: Hash, tips: seq<Hash>, maxBlockParents: nat,
                            mergesetSizeLimit: nat,
                            mergeDepthRoot: Hash, ghost d: Dag)
    returns (parents: seq<Hash>, data: Data, ghost chosen: seq<Hash>, ghost first: Data)
    requires manager.Valid(d) && Elems(tips) <= d.Blocks() && Antichain(d, Elems(tips)) && mergeDepthRoot in d.Blocks()
    requires Heaviest(manager.ghostdag, Elems(tips), selectedParent) && maxBlockParents >= 1 && mergesetSizeLimit >= 1
    ensures data.selectedParent == selectedParent && selectedParent in parents && NoDup(parents)
    ensures Antichain(d, Elems(parents)) && Heaviest(manager.ghostdag, Elems(parents), selectedParent)
    ensures |parents| <= maxBlockParents && 1 + |MergeSet(d, Elems(parents), selectedParent)| <= mergesetSizeLimit
    ensures Elems(parents) <= PastBelow(d, Elems(tips))
            && Finished(d, manager.ghostdag, manager.k, Elems(parents), data)
    ensures Elems(chosen) <= PastBelow(d, Elems(tips)) && Finished(d, manager.ghostdag, manager.k, Elems(chosen), first)
    ensures Naive(d, manager.ghostdag, manager.works, manager.k, Elems(chosen), first)
    ensures Naive(d, manager.ghostdag, manager.works, manager.k, Elems(parents), data)
    ensures var g := manager.ghostdag;
            && Chained(d, g) && g.Keys == d.Blocks() && Filtered(d, g, chosen, first, mergeDepthRoot, parents)
            && ((forall r :: !BadRed(d, g, first, mergeDepthRoot, r)) ==> parents == chosen && data == first)
  {
    hide *;
    ghost var g := manager.ghostdag;
    var picked, size := ChooseParents(manager, selectedParent, tips, maxBlockParents, mergesetSizeLimit, d);
    chosen := picked;
    parents, data, first := RemoveBoundedMergeBreakingParents(manager, selectedParent, picked, mergeDepthRoot, size, d);
    FilteredKept(d, g, chosen, first, mergeDepthRoot, parents);
    KeptReady(d, g, selectedParent, chosen, size, parents);
    SubList(parents, chosen);
    FewerParents(d, g, selectedParent, chosen, size, parents);
  }

  // ----- the bound after the filter -----

  /** `blue` excuses `red`: the chain of `blue` goes through the merge depth root, and `red` is below it. */
  ghost predicate Kosherizes(d: Dag, g: Colours, data: Data, mergeDepthRoot: Hash, blue: Hash, red: Hash)
    requires Chained(d, g) && g.Keys == d.Blocks()
  {
    blue in data.blues && blue in g && OnChain(d, g, mergeDepthRoot, blue) && Reaches(d, red, blue)
  }

  /** What is still merged was merged before. */
  lemma StillMergedBefore(d: Dag, g: Colours, k: nat, chosen: seq<Hash>, first: Data, kept: seq<Hash>, x: Hash)
    requires Finished(d, g, k, Elems(chosen), first) && forall h :: h in kept ==> h in chosen
    requires x in MergeSet(d, Elems(kept), first.selectedParent)
    ensures x in first.blues || x in first.reds
  {
    hide Partial;
    MergeSetMember(d, Elems(kept), first.selectedParent, x);
    MergeSetMember(d, Elems(chosen), first.selectedParent, x);
    assert Elems(kept) <= Elems(chosen);
    assert x in MergeSet(d, Elems(chosen), first.selectedParent);
    if x in Elems(first.blues[1..]) {
      var j :| 0 <= j < |first.blues[1..]| && first.blues[1..][j] == x;
      assert first.blues[j + 1] == x;
    }
  }

  /** A red that is still merged was no bad one. */
  lemma NotBadBefore(d: Dag, g: Colours, chosen: seq<Hash>, first: Data, mergeDepthRoot: Hash, kept: seq<Hash>, x: Hash)
    requires Chained(d, g) && g.Keys == d.Blocks() && Filtered(d, g, chosen, first, mergeDepthRoot, kept)
    requires x in PastBelow(d, Elems(kept))
    ensures !BadRed(d, g, first, mergeDepthRoot, x)
  {
    hide BadRed, Chained;
    BelowMember(d, Elems(kept), x);
    var h :| h in Elems(kept) && Reaches(d, x, h);
    hide Reaches;
    assert h in kept;
  }

  lemma RedsMerged(d: Dag, g: Colours, k: nat, kept: seq<Hash>, data: Data, x: Hash)
    requires Finished(d, g, k, Elems(kept), data)
    ensures x in data.reds ==> x in MergeSet(d, Elems(kept), data.selectedParent) && x in PastBelow(d, Elems(kept))
    ensures x in data.reds ==> x !in data.blues
  {
    hide Partial;
    if x in data.reds {
      assert x in Elems(data.reds);
      assert x in MergeSet(d, Elems(kept), data.selectedParent);
      MergeSetMember(d, Elems(kept), data.selectedParent, x);
      forall j | 0 <= j < |data.blues| ensures data.blues[j] != x {
        if j > 0 { assert data.blues[1..][j - 1] == data.blues[j] && data.blues[j] in Elems(data.blues[1..]); }
      }
    }
  }

  /** The recoloured parents can have a bad red after all. It is one that was blue, or that only blues
      excused which are no longer below the parents or have turned red, and no newly blue block excuses it. */
  lemma BadAfterwards(d: Dag, g: Colours, k: nat, chosen: seq<Hash>, first: Data, mergeDepthRoot: Hash, kept: seq<Hash>,
                      data: Data, red: Hash)
    requires Chained(d, g) && g.Keys == d.Blocks() && Filtered(d, g, chosen, first, mergeDepthRoot, kept)
    requires Finished(d, g, k, Elems(chosen), first) && Finished(d, g, k, Elems(kept), data)
    requires data.selectedParent == first.selectedParent
    ensures BadRed(d, g, data, mergeDepthRoot, red) <==>
              && red in data.reds && !Reaches(d, mergeDepthRoot, red)
              && (red in first.blues || exists q :: Kosherizes(d, g, first, mergeDepthRoot, q, red))
              && (forall q :: Kosherizes(d, g, first, mergeDepthRoot, q, red) ==>
                    q !in PastBelow(d, Elems(kept)) || q in data.reds)
              && (forall q :: Kosherizes(d, g, data, mergeDepthRoot, q, red) ==> q in first.blues)
  {
    hide Chained, OnChain, Finished, Reaches, PastBelow;
    RedsMerged(d, g, k, kept, data, red);
    forall q | q in first.blues
      ensures q in data.blues <==> !(q !in PastBelow(d, Elems(kept)) || q in data.reds)
    {
      StillBlue(d, g, k, chosen, first, kept, data, q);
    }
    if red in data.reds && !Reaches(d, mergeDepthRoot, red) {
      StillMergedBefore(d, g, k, chosen, first, kept, red);
      NotBadBefore(d, g, chosen, first, mergeDepthRoot, kept, red);
      if red !in first.blues {
        var q :| q in first.blues && q in g && OnChain(d, g, mergeDepthRoot, q) && Reaches(d, red, q);
        assert Kosherizes(d, g, first, mergeDepthRoot, q, red);
      }
    }
    forall q | q in first.blues && q in data.blues
      ensures Kosherizes(d, g, first, mergeDepthRoot, q, red) <==> Kosherizes(d, g, data, mergeDepthRoot, q, red) {}
  }

  lemma StillBlue(d: Dag, g: Colours, k: nat, chosen: seq<Hash>, first: Data, kept: seq<Hash>, data: Data, q: Hash)
    requires Finished(d, g, k, Elems(chosen), first) && Finished(d, g, k, Elems(kept), data) && q in first.blues
    requires data.selectedParent == first.selectedParent && Chained(d, g)
    ensures q in data.blues <==> q in PastBelow(d, Elems(kept)) && q !in data.reds
  {
    hide Partial, Chained;
    var sp := data.selectedParent;
    RedsMerged(d, g, k, kept, data, q);
    if q == sp {
      assert data.blues[0] == q;
    } else {
      var j :| 0 <= j < |first.blues| && first.blues[j] == q;
      assert first.blues[1..][j - 1] == q && q in Elems(first.blues[1..]);
      MergeSetMember(d, Elems(chosen), sp, q);
      MergeSetMember(d, Elems(kept), sp, q);
      assert data.blues == [sp] + data.blues[1..];
    }
  }

  /** If no blue turns red and none whose chain goes through the merge depth root leaves, the bound holds. */
  lemma BoundStays(d: Dag, g: Colours, k: nat, chosen: seq<Hash>, first: Data, mergeDepthRoot: Hash, kept: seq<Hash>,
                   data: Data)
    requires Chained(d, g) && g.Keys == d.Blocks() && Filtered(d, g, chosen, first, mergeDepthRoot, kept)
    requires Finished(d, g, k, Elems(chosen), first) && Finished(d, g, k, Elems(kept), data)
    requires data.selectedParent == first.selectedParent && forall b :: b in first.blues ==> b !in data.reds
    requires forall b :: b in first.blues && b in g && OnChain(d, g, mergeDepthRoot, b) ==>
               b in PastBelow(d, Elems(kept))
    ensures forall red :: !BadRed(d, g, data, mergeDepthRoot, red)
  {
    hide Chained, OnChain, Finished, Reaches, PastBelow, BadRed, Filtered;
    forall red ensures !BadRed(d, g, data, mergeDepthRoot, red) {
      BadAfterwards(d, g, k, chosen, first, mergeDepthRoot, kept, data, red);
    }
  }

  lemma FewerParents(d: Dag, g: Colours, sp: Hash, chosen: seq<Hash>, size: nat, kept: seq<Hash>)
    requires Picking(d, g, sp, chosen, [], size) && NoDup(kept) && forall h :: h in kept ==> h in chosen
    ensures |kept| <= |chosen| && 1 + |MergeSet(d, Elems(kept), sp)| <= size
  {
    hide Beneath, Less;
    SubList(kept, chosen);
    ElemsSize(kept);
    ElemsSize(chosen);
    SubsetSize(Elems(kept), Elems(chosen));
    MergeSetMonotone(d, Elems(kept), Elems(chosen), sp);
    SubsetSize(MergeSet(d, Elems(kept), sp), MergeSet(d, Elems(chosen), sp));
  }

  lemma MergeSetMonotone(d: Dag, s: set<Hash>, r: set<Hash>, sp: Hash)
    requires s <= r
    ensures MergeSet(d, s, sp) <= MergeSet(d, r, sp)
  {
  }
}
