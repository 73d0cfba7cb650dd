/** Windows of the heaviest blocks in the past of a block. */
module BlockWindows {
  import opened Hashes
  import opened BlockDag
  import opened Ghostdag
  import opened Colouring
  import opened Sorting

  /** `h` holds the `w` greatest blocks of `s`, or all of `s` if there are fewer. */
  ghost predicate IsTop(g: Colours, w: nat, s: set<Hash>, h: set<Hash>)
    requires s <= g.Keys
  {
    && h <= s && (if |s| <= w then h == s else |h| == w)
    && forall x, y :: x in h && y in s && y !in h ==> Less(g, y, x)
  }

  ghost predicate IsLeast(g: Colours, h: set<Hash>, m: Hash)
    requires h <= g.Keys
  {
    m in h && forall x :: x in h ==> x == m || Less(g, m, x)
  }

  /** There is only one such set. */
  lemma TopUnique(g: Colours, w: nat, s: set<Hash>, h: set<Hash>, h': set<Hash>)
    requires s <= g.Keys && IsTop(g, w, s, h) && IsTop(g, w, s, h')
    ensures h == h'
  {
    if h != h' {
      if h <= h' {
        SubsetSize(h, h');
      } else {
        var x :| x in h && x !in h';
        if h' <= h { SubsetSize(h', h); }
        var y :| y in h' && y !in h;
        LessTotal(g, x, y);
      }
    }
  }

  lemma TopSize(g: Colours, w: nat, s: set<Hash>, h: set<Hash>)
    requires s <= g.Keys && IsTop(g, w, s, h)
    ensures |h| <= w && (|h| < w ==> h == s)
  {
  }

  /** The window is full of blocks greater than `y`. */
  ghost predicate Rejects(g: Colours, w: nat, h: set<Hash>, y: Hash)
    requires h <= g.Keys && y in g
  {
    |h| == w && forall x :: x in h ==> Less(g, y, x)
  }

  /** A block that a window rejects changes nothing; nor do blocks below that one. */
  lemma TopFull(g: Colours, w: nat, s: set<Hash>, h: set<Hash>, y: Hash, more: set<Hash>)
    requires s <= g.Keys && IsTop(g, w, s, h) && y in g && Rejects(g, w, h, y)
    requires more <= g.Keys && forall x :: x in more ==> x == y || Less(g, x, y)
    ensures IsTop(g, w, s + more, h)
  {
    forall x, z | x in h && z in s + more && z !in h ensures Less(g, z, x) {
      if z !in s && z != y { LessTrans(g, z, y, x); }
    }
    SubsetSize(h, s);
    SubsetSize(s, s + more);
    if |s + more| <= w && h != s + more { SubsetSize(h, s + more); }
  }

  lemma TopRoom(g: Colours, w: nat, s: set<Hash>, h: set<Hash>, y: Hash)
    requires s <= g.Keys && IsTop(g, w, s, h) && |h| < w && y in g && y !in s
    ensures IsTop(g, w, s + {y}, h + {y})
  {
    assert h == s;
  }

  lemma TopReplace(g: Colours, w: nat, s: set<Hash>, h: set<Hash>, m: Hash, y: Hash)
    requires s <= g.Keys && IsTop(g, w, s, h) && |h| == w && IsLeast(g, h, m) && y in g && y !in s && Less(g, m, y)
    ensures IsTop(g, w, s + {y}, h - {m} + {y})
  {
    var h' := h - {m} + {y};
    SubsetSize(h, s);
    assert |s + {y}| == |s| + 1;
    assert |h'| == w;
    forall x, z | x in h' && z in s + {y} && z !in h' ensures Less(g, z, x) {
      if z != m {
        assert Less(g, z, m);
        if x == y { LessTrans(g, z, m, y); }
      }
    }
  }

  // ----- merging the two colours of a mergeset -----

  ghost predicate Descending(g: Colours, s: seq<Hash>) {
    && (forall i :: 0 <= i < |s| ==> s[i] in g)
    && (forall i, j :: 0 <= i < j < |s| ==> Less(g, s[j], s[i]))
  }

  lemma ElemsDrop(s: seq<Hash>, i: nat)
    requires i < |s|
    ensures Elems(s[i..]) == {s[i]} + Elems(s[i + 1..])
  {
    assert s[i..] == [s[i]] + s[i + 1..];
  }

  /** Merges two sorted lists of different blocks into one. */
  method MergeAscending(g: Colours, a: seq<Hash>, b: seq<Hash>) returns (r: seq<Hash>)
    requires Ascending(g, a) && Ascending(g, b) && Elems(a) !! Elems(b)
    ensures Ascending(g, r) && Elems(r) == Elems(a) + Elems(b)
  {
    hide Elems, Less;
    r := [];
    var i, j := 0, 0;
    ElemsEmpty();
    assert a[0..] == a && b[0..] == b;
    while i < |a| || j < |b|
      invariant 0 <= i <= |a| && 0 <= j <= |b|
      invariant Ascending(g, r) && Elems(r) + Elems(a[i..]) + Elems(b[j..]) == Elems(a) + Elems(b)
      invariant forall m :: 0 <= m < |r| ==> (i < |a| ==> Less(g, r[m], a[i])) && (j < |b| ==> Less(g, r[m], b[j]))
      decreases |a| - i + |b| - j
    {
      if i < |a| { ElemsDrop(a, i); }
      if j < |b| { ElemsDrop(b, j); }
      if i < |a| && j < |b| { Apart(a, b, i, j); LessTotal(g, a[i], b[j]); }
      if j == |b| || (i < |a| && Less(g, a[i], b[j])) {
        ElemsAppend(r, a[i]);
        StepAscending(g, r, a[i], a, i);
        r := r + [a[i]];
        i := i + 1;
      } else {
        ElemsAppend(r, b[j]);
        StepAscending(g, r, b[j], b, j);
        r := r + [b[j]];
        j := j + 1;
      }
    }
    ElemsEmpty();
    assert a[i..] == [] && b[j..] == [];
  }

  lemma Apart(a: seq<Hash>, b: seq<Hash>, i: nat, j: nat)
    requires Elems(a) !! Elems(b) && i < |a| && j < |b|
    ensures a[i] != b[j]
  {
    assert a[i] in Elems(a) && b[j] in Elems(b);
  }

  lemma StepAscending(g: Colours, r: seq<Hash>, x: Hash, a: seq<Hash>, i: nat)
    requires Ascending(g, r) && Ascending(g, a) && i < |a| && a[i] == x && forall m :: 0 <= m < |r| ==> Less(g, r[m], x)
    ensures Ascending(g, r + [x])
    ensures i + 1 < |a| ==> Less(g, x, a[i + 1]) && forall m :: 0 <= m < |r| ==> Less(g, r[m], a[i + 1])
  {
  }

  function Reversed(s: seq<Hash>): (r: seq<Hash>)
    ensures |r| == |s| && forall i :: 0 <= i < |s| ==> r[i] == s[|s| - 1 - i]
  {
    seq(|s|, i requires 0 <= i < |s| => s[|s| - 1 - i])
  }

  lemma ReversedElems(s: seq<Hash>)
    ensures Elems(Reversed(s)) == Elems(s)
  {
    forall x | x in Elems(s) ensures x in Elems(Reversed(s)) {
      var i :| 0 <= i < |s| && s[i] == x;
      assert Reversed(s)[|s| - 1 - i] == x;
    }
  }

  lemma ReversedDescending(g: Colours, s: seq<Hash>)
    requires Ascending(g, s)
    ensures Descending(g, Reversed(s)) && Elems(Reversed(s)) == Elems(s)
  {
    ReversedElems(s);
  }

  /** The mergeset in descending blue work. */
  method DescendingMergeset(g: Colours, data: Data, ghost d: Dag, ghost parents: set<Hash>) returns (r: seq<Hash>)
    requires Merges(d, g, parents, data)
    ensures Descending(g, r) && Elems(r) == MergeSet(d, parents, data.selectedParent)
  {
    var ascending := MergeAscending(g, data.blues[1..], data.reds);
    ReversedDescending(g, ascending);
    r := Reversed(ascending);
  }

  /** The mergeset without the selected parent, as listed in the data of a block. */
  ghost function MergesetOf(data: Data): set<Hash>
    requires data.blues != []
  {
    Elems(data.blues[1..]) + Elems(data.reds)
  }

  /** The consensus order of what a block merges, the selected parent first. */
  ghost function MergedOrder(g: Colours, data: Data): seq<Hash>
    requires data.blues != [] && MergesetOf(data) <= g.Keys
  {
    [data.selectedParent] + Sorted(g, MergesetOf(data))
  }

  /** The mergeset in consensus order: the selected parent, then ascending blue work. No block
      comes before one of its past. */
  method ConsensusOrderedMergeset(g: Colours, data: Data, ghost d: Dag, ghost parents: set<Hash>) returns (r: seq<Hash>)
    requires Merges(d, g, parents, data) && WorkGrows(d, g)
    ensures r != [] && r[0] == data.selectedParent && Ascending(g, r[1..])
    ensures Elems(r[1..]) == MergeSet(d, parents, data.selectedParent)
    ensures forall i, j :: 0 <= i < j < |r| ==> !Reaches(d, r[j], r[i])
    ensures MergesetOf(data) <= g.Keys && r == MergedOrder(g, data)
  {
    var ascending := MergeAscending(g, data.blues[1..], data.reds);
    r := [data.selectedParent] + ascending;
    forall x | x in MergesetOf(data) ensures x in g {
      var i :| 0 <= i < |ascending| && ascending[i] == x;
    }
    AscendingUnique(g, ascending, Sorted(g, MergesetOf(data)));
    forall i, j | 0 <= i < j < |r| ensures !Reaches(d, r[j], r[i]) {
      if i == 0 {
        assert ascending[j - 1] in Elems(ascending);
        MergeSetMember(d, parents, data.selectedParent, r[j]);
      } else {
        AscendingTopological(d, g, ascending, i - 1, j - 1);
      }
    }
  }

  /** A heap that keeps the greatest blocks pushed to it. */
  class BoundedSizeBlockHeap {
    const size: nat
    var blocks: set<Hash>

    constructor (size: nat, blocks: set<Hash>)
      ensures this.size == size && this.blocks == blocks
    {
      this.size := size;
      this.blocks := blocks;
    }

    /** The least block of the heap. */
    method Peek(g: Colours) returns (least: Hash)
      requires blocks != {} && blocks <= g.Keys
      ensures IsLeast(g, blocks, least)
    {
      least :| least in blocks;
      var rest := blocks - {least};
      while rest != {}
        invariant rest <= blocks && least in blocks
        invariant forall x :: x in blocks - rest ==> x == least || Less(g, least, x)
        decreases |rest|
      {
        var x :| x in rest;
        LessTotal(g, x, least);
        if Less(g, x, least) {
          forall z | z in blocks - rest ensures Less(g, x, z) {
            if z != least { LessTrans(g, x, least, z); }
          }
          least := x;
        }
        rest := rest - {x};
      }
    }

    /** Enters `hash`, replacing the least block if the heap is full; refuses a block that is
        less than all of a full heap. */
    method TryPush(g: Colours, hash: Hash, ghost s: set<Hash>) returns (pushed: bool)
      requires size > 0 && s <= g.Keys && IsTop(g, size, s, blocks) && hash in g && hash !in s
      modifies this`blocks
      ensures pushed ==> IsTop(g, size, s + {hash}, blocks)
      ensures !pushed ==> blocks == old(blocks) && Rejects(g, size, blocks, hash)
    {
      TopSize(g, size, s, blocks);
      hide Less;
      if |blocks| == size {
        var least := Peek(g);
        LessTotal(g, hash, least);
        if Less(g, hash, least) {
          forall x | x in blocks ensures Less(g, hash, x) {
            if x != least { LessTrans(g, hash, least, x); }
          }
          return false;
        }
        TopReplace(g, size, s, blocks, least, hash);
        blocks := blocks - {least};
      } else {
        TopRoom(g, size, s, blocks, hash);
      }
      blocks := blocks + {hash};
      pushed := true;
    }
  }

  // ----- the walk -----

  /** Everything merged, and everything below the selected parent, is less than the selected parent. */
  lemma BelowSelectedParent(d: Dag, g: Colours, k: nat, parents: set<Hash>, data: Data, x: Hash)
    requires Coloured(d, g, k) && Merges(d, g, parents, data) && x in PastBelow(d, parents)
    ensures x in g && (x == data.selectedParent || Less(g, x, data.selectedParent))
  {
    var sp := data.selectedParent;
    if x !in parents {
      var p :| p in parents && x in d.Past(p);
      WorkGrowsPast(d, g, x, p);
      if p != sp { LessTrans(g, x, p, sp); }
    }
  }

  /** The past splits in the selected parent, the mergeset and the past of the selected parent. */
  lemma PastSplits(d: Dag, g: Colours, parents: set<Hash>, data: Data)
    requires d.Valid() && Merges(d, g, parents, data)
    ensures var sp := data.selectedParent;
            && PastBelow(d, parents) == {sp} + MergeSet(d, parents, sp) + d.Past(sp)
            && sp !in MergeSet(d, parents, sp) && sp !in d.Past(sp) && MergeSet(d, parents, sp) !! d.Past(sp)
            && d.Past(sp) == PastBelow(d, d.Parents(sp))
  {
    var sp := data.selectedParent;
    PastIn(d, sp);
    PastUnfold(d, sp);
    assert forall x :: x in d.Past(sp) ==> x in d.PastOf(parents);
  }

  /** Above genesis as selected parent there is nothing else to merge. */
  lemma GenesisSelected(d: Dag, g: Colours, k: nat, parents: set<Hash>, data: Data)
    requires Coloured(d, g, k) && Merges(d, g, parents, data) && data.selectedParent == d.Root()
    ensures PastBelow(d, parents) == {d.Root()}
  {
    var sp := data.selectedParent;
    forall x | x in PastBelow(d, parents) ensures x == sp {
      BelowSelectedParent(d, g, k, parents, data, x);
      if x != sp {
        RootReaches(d, x);
        WorkGrowsPast(d, g, sp, x);
        LessTotal(g, x, sp);
      }
    }
  }

  /** Every cached window is right. */
  ghost predicate CacheRight(d: Dag, g: Colours, w: nat, cache: map<Hash, set<Hash>>) {
    forall b :: b in cache ==> b in g && Past(d, b) <= g.Keys && IsTop(g, w, Past(d, b), cache[b])
  }

  /** The past of a block without genesis. */
  ghost function Past(d: Dag, b: Hash): set<Hash> {
    d.Past(b) - {d.Root()}
  }

  lemma PastKnown(d: Dag, g: Colours, k: nat, parents: set<Hash>)
    requires Coloured(d, g, k) && parents <= g.Keys
    ensures PastBelow(d, parents) <= g.Keys
  {
    forall x | x in PastBelow(d, parents) ensures x in g {
      if x !in parents {
        var p :| p in parents && x in d.Past(p);
        PastIn(d, p);
      }
    }
  }

  class DagTraversalManager {
    const genesis: Hash
    const difficultyWindowSize: nat
    const pastMedianTimeWindowSize: nat
    var cacheForDifficulty: map<Hash, set<Hash>>
    var cacheForPastMedianTime: map<Hash, set<Hash>>

    constructor (genesis: Hash, difficultyWindowSize: nat, pastMedianTimeWindowSize: nat)
      ensures this.genesis == genesis && this.difficultyWindowSize == difficultyWindowSize
      ensures this.pastMedianTimeWindowSize == pastMedianTimeWindowSize
      ensures cacheForDifficulty == map[] && cacheForPastMedianTime == map[]
    {
      this.genesis := genesis;
      this.difficultyWindowSize := difficultyWindowSize;
      this.pastMedianTimeWindowSize := pastMedianTimeWindowSize;
      cacheForDifficulty := map[];
      cacheForPastMedianTime := map[];
    }

    ghost predicate Valid(d: Dag, g: Colours, k: nat)
      reads this
    {
      && Coloured(d, g, k) && genesis == d.Root()
      && CacheRight(d, g, difficultyWindowSize, cacheForDifficulty)
      && CacheRight(d, g, pastMedianTimeWindowSize, cacheForPastMedianTime)
    }

    /** Pushes the selected parent and then the mergeset from its greatest block on, until one is
        refused. True if the selected parent itself was refused. */
    method TryPushMergeset(heap: BoundedSizeBlockHeap, g: Colours, data: Data, ghost d: Dag, ghost parents: set<Hash>,
                           ghost s: set<Hash>)
      returns (tooLow: bool)
      requires heap.size > 0 && s <= g.Keys && IsTop(g, heap.size, s, heap.blocks)
      requires Merges(d, g, parents, data) && s !! Merged(d, parents, data) && Merged(d, parents, data) <= g.Keys
      requires data.selectedParent in g
      modifies heap`blocks
      ensures tooLow ==>
                heap.blocks == old(heap.blocks) <= g.Keys && Rejects(g, heap.size, heap.blocks, data.selectedParent)
      ensures !tooLow ==> IsTop(g, heap.size, s + Merged(d, parents, data), heap.blocks)
    {
      var sp := data.selectedParent;
      MergedSplits(d, parents, data);
      TopInside(g, heap.size, s, heap.blocks);
      hide *;
      var pushed := heap.TryPush(g, sp, s);
      if !pushed {
        return true;
      }
      var mergeset := DescendingMergeset(g, data, d, parents);
      PushDescending(heap, g, mergeset, s + {sp});
      assert s + {sp} + Elems(mergeset) == s + Merged(d, parents, data);
      tooLow := false;
    }

    /** Pushes a descending list until a block is refused; the rest would be refused too. */
    method PushDescending(heap: BoundedSizeBlockHeap, g: Colours, list: seq<Hash>, ghost s: set<Hash>)
      requires heap.size > 0 && s <= g.Keys && IsTop(g, heap.size, s, heap.blocks)
      requires Descending(g, list) && s !! Elems(list)
      modifies heap`blocks
      ensures s + Elems(list) <= g.Keys && IsTop(g, heap.size, s + Elems(list), heap.blocks)
    {
      hide IsTop, Rejects, Less, Elems;
      ElemsEmpty();
      assert list[..0] == [] && s + {} == s;
      DescendingDistinct(g, list);
      for i := 0 to |list|
        invariant s + Elems(list[..i]) <= g.Keys && IsTop(g, heap.size, s + Elems(list[..i]), heap.blocks)
      {
        ElemsPrefix(list, i);
        var pushed := heap.TryPush(g, list[i], s + Elems(list[..i]));
        if !pushed {
          TopInside(g, heap.size, s + Elems(list[..i]), heap.blocks);
          RestRejected(g, heap.size, s, heap.blocks, list, i);
          return;
        }
        assert s + Elems(list[..i]) + {list[i]} == s + Elems(list[..i + 1]);
      }
      assert list[..|list|] == list;
    }

    /** The `windowSize` greatest blocks, by blue work and hash, in the past of a block with the
        given data, genesis excluded. */
    method BlockWindow(high: Data, windowSize: nat, g: Colours, ghost d: Dag, ghost k: nat, ghost parents: set<Hash>)
      returns (window: set<Hash>)
      requires Valid(d, g, k) && Merges(d, g, parents, high)
      ensures PastBelow(d, parents) - {d.Root()} <= g.Keys
      ensures IsTop(g, windowSize, PastBelow(d, parents) - {d.Root()}, window)
    {
      PastKnown(d, g, k, parents);
      if windowSize == 0 {
        return {};
      }
      var useDifficulty := windowSize == difficultyWindowSize;
      var cache := if useDifficulty then cacheForDifficulty
                   else if windowSize == pastMedianTimeWindowSize then cacheForPastMedianTime
                   else map[];
      if high.selectedParent in cache {
        window := WindowFromCache(high, windowSize, cache[high.selectedParent], g, d, k, parents);
        return;
      }
      window := WindowByWalk(high, windowSize, g, d, k, parents);
    }

    /** Enters the windows of a block that was committed. The caches are bounded: any entries may go. */
    method CacheWindows(block: Hash, difficultyWindow: set<Hash>, pastMedianTimeWindow: set<Hash>, evicted: set<Hash>,
                        ghost d: Dag, ghost g: Colours, ghost k: nat, ghost parents: set<Hash>, ghost data: Data)
      requires Valid(d, g, k) && Extended(d, g, Block(d, block, parents), g[block := data], block, parents, data)
      requires Coloured(Block(d, block, parents), g[block := data], k)
      requires PastBelow(d, parents) - {d.Root()} <= g.Keys
      requires IsTop(g, difficultyWindowSize, PastBelow(d, parents) - {d.Root()}, difficultyWindow)
      requires IsTop(g, pastMedianTimeWindowSize, PastBelow(d, parents) - {d.Root()}, pastMedianTimeWindow)
      modifies this`cacheForDifficulty, this`cacheForPastMedianTime
      ensures Valid(Block(d, block, parents), g[block := data], k)
      ensures cacheForDifficulty == old(cacheForDifficulty)[block := difficultyWindow] - evicted
      ensures cacheForPastMedianTime == old(cacheForPastMedianTime)[block := pastMedianTimeWindow] - evicted
    {
      hide Coloured, CacheRight, IsTop, Extended;
      ghost var d', g' := Block(d, block, parents), g[block := data];
      CacheGrows(d, g, d', g', block, parents, data, difficultyWindowSize, cacheForDifficulty, difficultyWindow);
      CacheGrows(d, g, d', g', block, parents, data, pastMedianTimeWindowSize, cacheForPastMedianTime,
                 pastMedianTimeWindow);
      cacheForDifficulty := cacheForDifficulty[block := difficultyWindow];
      cacheForPastMedianTime := cacheForPastMedianTime[block := pastMedianTimeWindow];
      CacheEvicts(d', g', difficultyWindowSize, cacheForDifficulty, evicted);
      CacheEvicts(d', g', pastMedianTimeWindowSize, cacheForPastMedianTime, evicted);
      cacheForDifficulty := cacheForDifficulty - evicted;
      cacheForPastMedianTime := cacheForPastMedianTime - evicted;
    }

    /** The selected parent's window, and what the block itself merges. */
    method WindowFromCache(high: Data, windowSize: nat, cached: set<Hash>, g: Colours, ghost d: Dag, ghost k: nat,
                           ghost parents: set<Hash>)
      returns (window: set<Hash>)
      requires windowSize > 0 && Coloured(d, g, k) && genesis == d.Root() && Merges(d, g, parents, high)
      requires PastBelow(d, parents) <= g.Keys
      requires Past(d, high.selectedParent) <= g.Keys && IsTop(g, windowSize, Past(d, high.selectedParent), cached)
      ensures IsTop(g, windowSize, PastBelow(d, parents) - {d.Root()}, window)
    {
      hide *;
      var heap := new BoundedSizeBlockHeap(windowSize, cached);
      ghost var past := Past(d, high.selectedParent);
      if high.selectedParent == genesis {
        GenesisWindow(d, g, k, parents, high);
        return heap.blocks;
      }
      CacheSplits(d, g, k, parents, high);
      var tooLow := TryPushMergeset(heap, g, high, d, parents, past);
      if tooLow {
        RejectedAll(d, g, k, parents, high, windowSize, past, heap.blocks, Merged(d, parents, high));
      }
      window := heap.blocks;
    }

    /** Walks down the selected chain until a selected parent is too light for a full window. */
    method WindowByWalk(high: Data, windowSize: nat, g: Colours, ghost d: Dag, ghost k: nat, ghost parents: set<Hash>)
      returns (window: set<Hash>)
      requires windowSize > 0 && Coloured(d, g, k) && genesis == d.Root() && Merges(d, g, parents, high)
      requires PastBelow(d, parents) <= g.Keys
      ensures IsTop(g, windowSize, PastBelow(d, parents) - {d.Root()}, window)
    {
      hide *;
      var heap := new BoundedSizeBlockHeap(windowSize, {});
      var current := high;
      ghost var ps, s: set<Hash> := parents, {};
      WalkBegins(d, g, windowSize, parents);
      MergesKnown(d, g, ps, current);
      while current.selectedParent != genesis
        invariant Merges(d, g, ps, current) && ps <= g.Keys && current.selectedParent in g
        invariant Walking(d, g, windowSize, PastBelow(d, parents) - {d.Root()}, ps, s, heap.blocks)
        decreases d.Rank(current.selectedParent)
      {
        WalkSplits(d, g, k, windowSize, PastBelow(d, parents) - {d.Root()}, ps, current, s, heap.blocks);
        var parentData := g[current.selectedParent];
        var tooLow := TryPushMergeset(heap, g, current, d, ps, s);
        if tooLow {
          RejectedAll(d, g, k, ps, current, windowSize, s, heap.blocks, PastBelow(d, ps) - {d.Root()});
          return heap.blocks;
        }
        WalkOn(d, g, k, windowSize, PastBelow(d, parents) - {d.Root()}, ps, current, s, heap.blocks);
        s := s + Merged(d, ps, current);
        ps := d.Parents(current.selectedParent);
        current := parentData;
      }
      WalkEnds(d, g, k, windowSize, PastBelow(d, parents) - {d.Root()}, ps, current, s, heap.blocks);
      window := heap.blocks;
    }
  }

  /** What a block merges, with its selected parent. */
  ghost function Merged(d: Dag, parents: set<Hash>, data: Data): set<Hash> {
    {data.selectedParent} + MergeSet(d, parents, data.selectedParent)
  }

  lemma MergedSplits(d: Dag, parents: set<Hash>, data: Data)
    ensures data.selectedParent !in MergeSet(d, parents, data.selectedParent)
    ensures Merged(d, parents, data) == {data.selectedParent} + MergeSet(d, parents, data.selectedParent)
    ensures data.selectedParent in Merged(d, parents, data)
  {
  }

  lemma TopInside(g: Colours, w: nat, s: set<Hash>, h: set<Hash>)
    requires s <= g.Keys && IsTop(g, w, s, h)
    ensures h <= g.Keys
  {
  }

  lemma MergesKnown(d: Dag, g: Colours, parents: set<Hash>, data: Data)
    requires Merges(d, g, parents, data)
    ensures parents <= g.Keys && data.selectedParent in g
  {
  }

  lemma DescendingDistinct(g: Colours, s: seq<Hash>)
    requires Descending(g, s)
    ensures NoDup(s)
  {
    forall i, j | 0 <= i < j < |s| ensures s[i] != s[j] { assert Less(g, s[j], s[i]); }
  }

  /** Whatever follows a refused block in a descending list is refused too. */
  lemma RestRejected(g: Colours, w: nat, s: set<Hash>, h: set<Hash>, list: seq<Hash>, i: nat)
    requires Descending(g, list) && i < |list| && s + Elems(list[..i]) <= g.Keys
    requires IsTop(g, w, s + Elems(list[..i]), h) && h <= g.Keys && Rejects(g, w, h, list[i])
    ensures s + Elems(list) <= g.Keys && IsTop(g, w, s + Elems(list), h)
  {
    hide IsTop, Rejects, Less, Elems, Descending;
    IndexKnown(g, list, i);
    forall x | x in Elems(list) ensures x in g && (x in Elems(list[..i]) || x == list[i] || Less(g, x, list[i])) {
      RestSmaller(g, list, i, x);
    }
    var more := Elems(list) - Elems(list[..i]);
    PrefixListed(list, i);
    TopFull(g, w, s + Elems(list[..i]), h, list[i], more);
    assert s + Elems(list[..i]) + more == s + Elems(list);
  }

  lemma RestSmaller(g: Colours, list: seq<Hash>, i: nat, x: Hash)
    requires Descending(g, list) && i < |list| && x in Elems(list)
    ensures list[i] in g && x in g && (x in Elems(list[..i]) || x == list[i] || Less(g, x, list[i]))
  {
    hide Less;
    var j :| 0 <= j < |list| && list[j] == x;
    if j < i { assert list[..i][j] == x; }
  }

  lemma IndexKnown(g: Colours, list: seq<Hash>, i: nat)
    requires Descending(g, list) && i < |list|
    ensures list[i] in g
  {
  }

  lemma PrefixListed(list: seq<Hash>, i: nat)
    requires i <= |list|
    ensures Elems(list[..i]) <= Elems(list)
  {
  }

  /** When the selected parent is refused, so is all of the past. */
  lemma RejectedAll(d: Dag, g: Colours, k: nat, parents: set<Hash>, data: Data, w: nat, s: set<Hash>, h: set<Hash>,
                    more: set<Hash>)
    requires Coloured(d, g, k) && Merges(d, g, parents, data) && s <= g.Keys && IsTop(g, w, s, h) && h <= g.Keys
    requires data.selectedParent in g && Rejects(g, w, h, data.selectedParent) && more <= PastBelow(d, parents)
    ensures s + more <= g.Keys && IsTop(g, w, s + more, h)
  {
    forall x | x in more ensures x in g && (x == data.selectedParent || Less(g, x, data.selectedParent)) {
      BelowSelectedParent(d, g, k, parents, data, x);
    }
    TopFull(g, w, s, h, data.selectedParent, more);
  }

  lemma GenesisWindow(d: Dag, g: Colours, k: nat, parents: set<Hash>, data: Data)
    requires Coloured(d, g, k) && Merges(d, g, parents, data) && data.selectedParent == d.Root()
    ensures PastBelow(d, parents) - {d.Root()} == Past(d, data.selectedParent)
  {
    GenesisSelected(d, g, k, parents, data);
    PastSplits(d, g, parents, data);
  }

  /** The past without genesis: what is merged, and the past of the selected parent without genesis. */
  lemma CacheSplits(d: Dag, g: Colours, k: nat, parents: set<Hash>, data: Data)
    requires Coloured(d, g, k) && Merges(d, g, parents, data) && data.selectedParent != d.Root()
             && PastBelow(d, parents) <= g.Keys
    ensures var sp := data.selectedParent;
            && sp in g && Merged(d, parents, data) <= g.Keys && Merged(d, parents, data) <= PastBelow(d, parents)
            && Past(d, sp) !! Merged(d, parents, data)
            && PastBelow(d, parents) - {d.Root()} == Past(d, sp) + Merged(d, parents, data)
  {
    var sp := data.selectedParent;
    PastSplits(d, g, parents, data);
    RootReaches(d, sp);
    MergeSetMember(d, parents, sp, d.Root());
  }

  /** `s` is what the walk has pushed, and `target` is that and the past below. */
  ghost predicate Walking(d: Dag, g: Colours, w: nat, target: set<Hash>, parents: set<Hash>, s: set<Hash>, h: set<Hash>)
  {
    && s <= g.Keys && IsTop(g, w, s, h) && PastBelow(d, parents) <= g.Keys && s !! PastBelow(d, parents)
    && target == s + (PastBelow(d, parents) - {d.Root()})
  }

  lemma WalkBegins(d: Dag, g: Colours, w: nat, parents: set<Hash>)
    requires PastBelow(d, parents) <= g.Keys
    ensures Walking(d, g, w, PastBelow(d, parents) - {d.Root()}, parents, {}, {})
  {
  }

  lemma WalkSplits(d: Dag, g: Colours, k: nat, w: nat, target: set<Hash>, parents: set<Hash>, data: Data, s: set<Hash>,
                   h: set<Hash>)
    requires Coloured(d, g, k) && Merges(d, g, parents, data) && Walking(d, g, w, target, parents, s, h)
    requires data.selectedParent != d.Root()
    ensures s <= g.Keys && IsTop(g, w, s, h) && Merged(d, parents, data) <= g.Keys && s !! Merged(d, parents, data)
    ensures data.selectedParent in g && target == s + (PastBelow(d, parents) - {d.Root()})
    ensures PastBelow(d, parents) <= g.Keys && s !! PastBelow(d, parents)
  {
    hide IsTop, Merged, PastBelow, Coloured, Merges;
    CacheSplits(d, g, k, parents, data);
  }

  lemma WalkOn(d: Dag, g: Colours, k: nat, w: nat, target: set<Hash>, parents: set<Hash>, data: Data, s: set<Hash>,
               h: set<Hash>)
    requires Coloured(d, g, k) && Merges(d, g, parents, data) && data.selectedParent != d.Root()
             && data.selectedParent in g
    requires PastBelow(d, parents) <= g.Keys && s <= g.Keys && s !! PastBelow(d, parents)
    requires target == s + (PastBelow(d, parents) - {d.Root()})
    requires s + Merged(d, parents, data) <= g.Keys && IsTop(g, w, s + Merged(d, parents, data), h)
    ensures var sp := data.selectedParent;
            && Merges(d, g, d.Parents(sp), g[sp]) && d.Parents(sp) <= g.Keys && g[sp].selectedParent in g
            && Walking(d, g, w, target, d.Parents(sp), s + Merged(d, parents, data), h)
            && d.Rank(g[sp].selectedParent) < d.Rank(sp)
  {
    hide IsTop, Coloured, Merges, Merged, PastBelow, MergeSet;
    var sp := data.selectedParent;
    ChainDown(d, g, k, sp);
    CacheSplits(d, g, k, parents, data);
    BelowMerged(d, g, k, parents, data);
    assert s + Merged(d, parents, data) + (PastBelow(d, d.Parents(sp)) - {d.Root()}) == target;
  }

  lemma ChainDown(d: Dag, g: Colours, k: nat, b: Hash)
    requires Coloured(d, g, k) && b in g && b != d.Root()
    ensures Merges(d, g, d.Parents(b), g[b]) && d.Parents(b) <= g.Keys && g[b].selectedParent in g
    ensures d.Rank(g[b].selectedParent) < d.Rank(b)
  {
    assert ColouredAt(d, g, k, b) && Linked(d, g, b);
  }

  lemma BelowMerged(d: Dag, g: Colours, k: nat, parents: set<Hash>, data: Data)
    requires Coloured(d, g, k) && Merges(d, g, parents, data) && PastBelow(d, parents) <= g.Keys
    ensures var below := PastBelow(d, d.Parents(data.selectedParent));
            && below <= PastBelow(d, parents) && below !! Merged(d, parents, data)
            && below - {d.Root()} == Past(d, data.selectedParent)
  {
    PastSplits(d, g, parents, data);
  }

  lemma WalkEnds(d: Dag, g: Colours, k: nat, w: nat, target: set<Hash>, parents: set<Hash>, data: Data, s: set<Hash>,
                 h: set<Hash>)
    requires Coloured(d, g, k) && Merges(d, g, parents, data) && data.selectedParent == d.Root()
    requires Walking(d, g, w, target, parents, s, h)
    ensures target <= g.Keys && IsTop(g, w, target, h)
  {
    GenesisSelected(d, g, k, parents, data);
    assert target == s;
  }

  lemma CacheEvicts(d: Dag, g: Colours, w: nat, cache: map<Hash, set<Hash>>, evicted: set<Hash>)
    requires CacheRight(d, g, w, cache)
    ensures CacheRight(d, g, w, cache - evicted)
  {
    hide IsTop;
  }

  /** Entering the window of a new block keeps the cache right for the grown DAG. */
  lemma CacheGrows(d: Dag, g: Colours, d': Dag, g': Colours, b: Hash, parents: set<Hash>, data: Data, w: nat,
                   cache: map<Hash, set<Hash>>, window: set<Hash>)
    requires Extended(d, g, d', g', b, parents, data) && CacheRight(d, g, w, cache)
    requires PastBelow(d, parents) - {d.Root()} <= g.Keys && IsTop(g, w, PastBelow(d, parents) - {d.Root()}, window)
    ensures CacheRight(d', g', w, cache[b := window])
  {
    ExtendedFacts(d, g, d', g', b, parents, data);
    assert g' == g[b := data];
    hide Extended, IsTop;
    forall x | x in cache[b := window]
      ensures x in g' && Past(d', x) <= g'.Keys && IsTop(g', w, Past(d', x), cache[b := window][x]) {
      if x == b {
        TopExtended(g, g', b, data, w, PastBelow(d, parents) - {d.Root()}, window);
      } else {
        ExtendedPast(d, g, d', g', b, parents, data, x);
        TopExtended(g, g', b, data, w, Past(d, x), cache[x]);
      }
    }
  }

  lemma TopExtended(g: Colours, g': Colours, b: Hash, data: Data, w: nat, s: set<Hash>, h: set<Hash>)
    requires b !in g && g' == g[b := data] && s <= g.Keys && IsTop(g, w, s, h)
    ensures s <= g'.Keys && IsTop(g', w, s, h)
  {
  }
}
