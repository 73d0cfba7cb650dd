/** The data of a block by their plain definition, and why all nodes arrive at the same ones. */
module GreedyColouring {
  import opened Hashes
  import opened BlockDag
  import opened Ghostdag
  import opened Colouring
  import opened Sorting

  /** The naive greedy colouring: in the given order, a block joins the blue set `s` if the set
      stays a k-cluster. */
  ghost function GreedyBlues(d: Dag, s: set<Hash>, merged: seq<Hash>, k: nat): seq<Hash> {
    if merged == [] then []
    else
      var elder, c := GreedyBlues(d, s, merged[..|merged| - 1], k), merged[|merged| - 1];
      if KCluster(d, s + Elems(elder) + {c}, k) then elder + [c] else elder
  }

  /** The blue blocks whose anticone sizes a block records: its new blues, and those with a new blue in
      their anticone. */
  ghost function Sized(d: Dag, s: set<Hash>, added: set<Hash>): set<Hash> {
    set x | x in s && (x in added || AnticoneIn(d, x, added) != {})
  }

  /** `data` are what the definition gives a block with these parents: the heaviest parent, the greedy
      blues of the sorted mergeset, the rest of it as reds, and score, work and sizes counted plainly. */
  ghost predicate Naive(d: Dag, g: Colours, works: map<Hash, nat>, k: nat, parents: set<Hash>, data: Data) {
    && Chained(d, g) && Heaviest(g, parents, data.selectedParent)
    && MergeSet(d, parents, data.selectedParent) <= g.Keys
    && NaiveColours(d, g, k, parents, data) && NaiveWork(g, works, data) && NaiveSizes(d, g, data)
  }

  ghost predicate NaiveColours(d: Dag, g: Colours, k: nat, parents: set<Hash>, data: Data)
    requires Chained(d, g) && data.selectedParent in g && MergeSet(d, parents, data.selectedParent) <= g.Keys
  {
    var sp, merged := data.selectedParent, MergeSet(d, parents, data.selectedParent);
    && data.blues == [sp] + GreedyBlues(d, BlueSet(d, g, sp) + {sp}, Sorted(g, merged), k)
    && data.reds == Sorted(g, merged - Elems(data.blues))
    && data.blueScore == |BlueOf(d, g, data)|
  }

  ghost predicate NaiveWork(g: Colours, works: map<Hash, nat>, data: Data)
    requires data.selectedParent in g
  {
    && (forall i :: 0 <= i < |data.blues| ==> data.blues[i] in works)
    && data.blueWork == g[data.selectedParent].blueWork + SumWork(works, data.blues)
  }

  ghost predicate NaiveSizes(d: Dag, g: Colours, data: Data)
    requires Chained(d, g) && data.selectedParent in g
  {
    var s := BlueOf(d, g, data);
    && data.sizes.Keys == Sized(d, s, Elems(data.blues))
    && forall x :: x in data.sizes ==> data.sizes[x] == |AnticoneIn(d, x, s)|
  }

  const GENESIS := Data(0, 0, NONE, [], [], map[])

  /** All data are what the definition gives. */
  ghost predicate Computed(d: Dag, g: Colours, works: map<Hash, nat>, k: nat) {
    && Chained(d, g) && g[d.Root()] == GENESIS
    && forall b :: b in g && b != d.Root() ==> Naive(d, g, works, k, d.Parents(b), g[b])
  }

  // ----- the definition determines the data -----

  lemma HeaviestUnique(g: Colours, parents: set<Hash>, a: Hash, b: Hash)
    requires Heaviest(g, parents, a) && Heaviest(g, parents, b)
    ensures a == b
  {
    LessTotal(g, a, b);
  }

  lemma NaiveUnique(d: Dag, g: Colours, works: map<Hash, nat>, k: nat, parents: set<Hash>, data: Data, data': Data)
    requires Naive(d, g, works, k, parents, data) && Naive(d, g, works, k, parents, data')
    ensures data == data'
  {
    hide Chained, GreedyBlues, BlueSet, MergeSet, Sized, Elems, AnticoneIn, SumWork;
    HeaviestUnique(g, parents, data.selectedParent, data'.selectedParent);
    assert BlueOf(d, g, data) == BlueOf(d, g, data');
    assert data.sizes == data'.sizes;
  }

  // ----- the data depend on the past only -----

  /** On `s`, which is closed under pasts, two nodes have the same past, blue work and blue sets. */
  ghost predicate Alike(d: Dag, g: Colours, d': Dag, g': Colours, s: set<Hash>) {
    && Chained(d, g) && Chained(d', g') && s <= g.Keys && s <= g'.Keys
    && forall x :: x in s ==> AlikeAt(d, g, d', g', s, x)
  }

  ghost predicate AlikeAt(d: Dag, g: Colours, d': Dag, g': Colours, s: set<Hash>, x: Hash)
    requires Chained(d, g) && Chained(d', g') && x in g && x in g'
  {
    && d.Past(x) == d'.Past(x) && d.Past(x) <= s && g[x].blueWork == g'[x].blueWork
    && BlueSet(d, g, x) == BlueSet(d', g', x) && BlueSet(d, g, x) <= d.Past(x)
  }

  lemma AlikeReaches(d: Dag, g: Colours, d': Dag, g': Colours, s: set<Hash>, x: Hash, y: Hash)
    requires Alike(d, g, d', g', s) && y in s
    ensures Reaches(d, x, y) <==> Reaches(d', x, y)
  {
    hide Chained, BlueSet;
    assert AlikeAt(d, g, d', g', s, y);
  }

  lemma AlikeAnticone(d: Dag, g: Colours, d': Dag, g': Colours, s: set<Hash>, x: Hash, r: set<Hash>)
    requires Alike(d, g, d', g', s) && x in s && r <= s
    ensures AnticoneIn(d, x, r) == AnticoneIn(d', x, r)
  {
    hide Alike, Reaches;
    forall y | y in r ensures Anticone(d, x, y) <==> Anticone(d', x, y) {
      AlikeReaches(d, g, d', g', s, x, y);
      AlikeReaches(d, g, d', g', s, y, x);
    }
  }

  lemma AlikeCluster(d: Dag, g: Colours, d': Dag, g': Colours, s: set<Hash>, r: set<Hash>, k: nat)
    requires Alike(d, g, d', g', s) && r <= s
    ensures KCluster(d, r, k) <==> KCluster(d', r, k)
  {
    hide Alike, AnticoneIn;
    forall x | x in r ensures AnticoneIn(d, x, r) == AnticoneIn(d', x, r) {
      AlikeAnticone(d, g, d', g', s, x, r);
    }
  }

  lemma {:induction false} AlikeGreedy(d: Dag, g: Colours, d': Dag, g': Colours, s: set<Hash>, r: set<Hash>,
                                       merged: seq<Hash>, k: nat)
    requires Alike(d, g, d', g', s) && r <= s && Elems(merged) <= s
    ensures GreedyBlues(d, r, merged, k) == GreedyBlues(d', r, merged, k)
    ensures Elems(GreedyBlues(d, r, merged, k)) <= Elems(merged)
  {
    hide Alike, KCluster, Elems;
    if merged == [] {
      ElemsEmpty();
    } else {
      var n := |merged| - 1;
      ElemsPrefix(merged, n);
      assert merged[..n + 1] == merged;
      AlikeGreedy(d, g, d', g', s, r, merged[..n], k);
      var elder := GreedyBlues(d, r, merged[..n], k);
      ElemsAppend(elder, merged[n]);
      AlikeCluster(d, g, d', g', s, r + Elems(elder) + {merged[n]}, k);
    }
  }

  lemma AlikeMergeSet(d: Dag, g: Colours, d': Dag, g': Colours, s: set<Hash>, parents: set<Hash>, sp: Hash)
    requires Alike(d, g, d', g', s) && parents <= s && sp in s
    ensures MergeSet(d, parents, sp) == MergeSet(d', parents, sp) <= s
  {
    hide Chained, BlueSet;
    forall p | p in parents + {sp} ensures d.Past(p) == d'.Past(p) <= s {
      assert AlikeAt(d, g, d', g', s, p);
    }
    assert d.PastOf(parents) == d'.PastOf(parents);
  }

  lemma AlikeHeaviest(d: Dag, g: Colours, d': Dag, g': Colours, s: set<Hash>, parents: set<Hash>, sp: Hash)
    requires Alike(d, g, d', g', s) && parents <= s && Heaviest(g, parents, sp)
    ensures Heaviest(g', parents, sp)
  {
    hide Chained, BlueSet;
    forall p | p in parents ensures g[p].blueWork == g'[p].blueWork {
      assert AlikeAt(d, g, d', g', s, p);
    }
  }

  lemma AlikeSorted(d: Dag, g: Colours, d': Dag, g': Colours, s: set<Hash>, r: set<Hash>)
    requires Alike(d, g, d', g', s) && r <= s
    ensures Sorted(g, r) == Sorted(g', r)
  {
    hide Chained, BlueSet;
    forall x | x in r ensures g[x].blueWork == g'[x].blueWork {
      assert AlikeAt(d, g, d', g', s, x);
    }
    SortedSame(g, g', r);
  }

  lemma AlikeColours(d: Dag, g: Colours, d': Dag, g': Colours, s: set<Hash>, k: nat, parents: set<Hash>, data: Data)
    requires Alike(d, g, d', g', s) && parents <= s && data.selectedParent in parents
    requires Chained(d, g) && Chained(d', g') && data.selectedParent in g && data.selectedParent in g'
    requires MergeSet(d, parents, data.selectedParent) <= g.Keys && NaiveColours(d, g, k, parents, data)
    ensures MergeSet(d', parents, data.selectedParent) <= g'.Keys && NaiveColours(d', g', k, parents, data)
    ensures BlueOf(d, g, data) == BlueOf(d', g', data) <= s && Elems(data.blues) <= s
  {
    hide Alike, Chained, BlueSet, MergeSet, GreedyBlues, Elems;
    var sp, merged := data.selectedParent, MergeSet(d, parents, data.selectedParent);
    AlikeKeys(d, g, d', g', s, sp);
    AlikeMergeSet(d, g, d', g', s, parents, sp);
    AlikeSorted(d, g, d', g', s, merged);
    AlikeSorted(d, g, d', g', s, merged - Elems(data.blues));
    AlikeGreedy(d, g, d', g', s, BlueSet(d, g, sp) + {sp}, Sorted(g, merged), k);
    var blues := GreedyBlues(d, BlueSet(d, g, sp) + {sp}, Sorted(g, merged), k);
    FirstListed(sp, blues);
  }

  lemma FirstListed(sp: Hash, blues: seq<Hash>)
    ensures Elems([sp] + blues) == {sp} + Elems(blues)
  {
  }

  lemma AlikeKeys(d: Dag, g: Colours, d': Dag, g': Colours, s: set<Hash>, x: Hash)
    requires Alike(d, g, d', g', s) && x in s
    ensures Chained(d, g) && Chained(d', g') && x in g && x in g' && s <= g'.Keys
    ensures BlueSet(d, g, x) == BlueSet(d', g', x) <= s && g[x].blueWork == g'[x].blueWork
  {
    hide Chained, BlueSet;
    assert AlikeAt(d, g, d', g', s, x);
  }

  lemma AlikeSizes(d: Dag, g: Colours, d': Dag, g': Colours, s: set<Hash>, data: Data)
    requires Alike(d, g, d', g', s)
    requires Chained(d, g) && Chained(d', g') && data.selectedParent in g && data.selectedParent in g'
    requires BlueOf(d, g, data) == BlueOf(d', g', data) <= s && Elems(data.blues) <= s && NaiveSizes(d, g, data)
    ensures NaiveSizes(d', g', data)
  {
    hide Alike, Chained, BlueOf, AnticoneIn, Elems;
    var r := BlueOf(d, g, data);
    forall x | x in r
      ensures AnticoneIn(d, x, r) == AnticoneIn(d', x, r)
      ensures AnticoneIn(d, x, Elems(data.blues)) == AnticoneIn(d', x, Elems(data.blues))
    {
      AlikeAnticone(d, g, d', g', s, x, r);
      AlikeAnticone(d, g, d', g', s, x, Elems(data.blues));
    }
  }

  lemma {:induction false} SameSum(works: map<Hash, nat>, works': map<Hash, nat>, s: seq<Hash>)
    requires forall i :: 0 <= i < |s| ==> s[i] in works && s[i] in works' && works[s[i]] == works'[s[i]]
    ensures SumWork(works, s) == SumWork(works', s)
  {
    if s != [] { SameSum(works, works', s[..|s| - 1]); }
  }

  ghost predicate SameWorks(works: map<Hash, nat>, works': map<Hash, nat>, s: set<Hash>) {
    forall x :: x in s ==> x in works && x in works' && works[x] == works'[x]
  }

  /** Nodes that are alike on the past of a block mean the same by its data. */
  lemma NaiveAlike(d: Dag, g: Colours, d': Dag, g': Colours, s: set<Hash>, works: map<Hash, nat>,
                   works': map<Hash, nat>, k: nat, parents: set<Hash>, data: Data)
    requires Alike(d, g, d', g', s) && parents <= s && SameWorks(works, works', s)
    requires Naive(d, g, works, k, parents, data)
    ensures Naive(d', g', works', k, parents, data) && BlueOf(d', g', data) == BlueOf(d, g, data)
  {
    hide Alike, Chained, NaiveColours, NaiveSizes, MergeSet, BlueOf, SumWork;
    var sp := data.selectedParent;
    AlikeKeys(d, g, d', g', s, sp);
    AlikeHeaviest(d, g, d', g', s, parents, sp);
    AlikeColours(d, g, d', g', s, k, parents, data);
    AlikeSizes(d, g, d', g', s, data);
    forall i | 0 <= i < |data.blues| ensures data.blues[i] in s { assert data.blues[i] in Elems(data.blues); }
    SameSum(works, works', data.blues);
  }

  // ----- new blocks -----

  lemma GrownAlike(d: Dag, g: Colours, k: nat, b: Hash, parents: set<Hash>, data: Data)
    requires Coloured(d, g, k) && Block(d, b, parents).Valid() && data.selectedParent in parents
    ensures Alike(d, g, Block(d, b, parents), g[b := data], g.Keys)
  {
    hide Coloured, Chained, BlueSet;
    var d', g' := Block(d, b, parents), g[b := data];
    ColouredChained(d, g, k);
    ExtendedFacts(d, g, d', g', b, parents, data);
    ExtendedChained(d, g, d', g', b, parents, data);
    hide Extended;
    forall x | x in g.Keys ensures AlikeAt(d, g, d', g', g.Keys, x) {
      ExtendedPast(d, g, d', g', b, parents, data, x);
      ExtendedBlue(d, g, d', g', b, parents, data, x);
      BlueInPast(d, g, k, x);
    }
  }

  lemma ComputedKept(d: Dag, g: Colours, works: map<Hash, nat>, k: nat, b: Hash, parents: set<Hash>, data: Data,
                     work: nat)
    requires Coloured(d, g, k) && Computed(d, g, works, k) && Block(d, b, parents).Valid() && works.Keys == g.Keys
    requires Naive(d, g, works, k, parents, data)
    ensures Computed(Block(d, b, parents), g[b := data], works[b := work], k)
  {
    hide Coloured, Alike, Chained, Naive, Computed;
    var d', g', works' := Block(d, b, parents), g[b := data], works[b := work];
    NaiveFacts(d, g, works, k, parents, data);
    GrownAlike(d, g, k, b, parents, data);
    GrownKeys(d, g, k, b, parents, data);
    forall x | x in g' && x != d'.Root() ensures Naive(d', g', works', k, d'.Parents(x), g'[x]) {
      if x == b {
        NaiveAlike(d, g, d', g', g.Keys, works, works', k, parents, data);
      } else {
        ComputedAt(d, g, works, k, x);
        OldParents(d, b, parents, x);
        NaiveAlike(d, g, d', g', g.Keys, works, works', k, d.Parents(x), g[x]);
      }
    }
    ComputedRoot(d, g, works, k);
    ComputedNow(d', g', works', k);
  }

  lemma NaiveFacts(d: Dag, g: Colours, works: map<Hash, nat>, k: nat, parents: set<Hash>, data: Data)
    requires Naive(d, g, works, k, parents, data)
    ensures data.selectedParent in parents && parents <= g.Keys
  {
    hide Chained, NaiveColours, NaiveSizes, NaiveWork;
  }

  lemma GrownKeys(d: Dag, g: Colours, k: nat, b: Hash, parents: set<Hash>, data: Data)
    requires Coloured(d, g, k) && Block(d, b, parents).Valid() && data.selectedParent in parents
    ensures b !in g && d.Valid() && g.Keys == d.Blocks() && Block(d, b, parents).Root() == d.Root() && b != d.Root()
    ensures d.Root() in g && Chained(Block(d, b, parents), g[b := data])
  {
    var d', g' := Block(d, b, parents), g[b := data];
    ColouredChained(d, g, k);
    hide Coloured;
    ExtendedFacts(d, g, d', g', b, parents, data);
    ExtendedChained(d, g, d', g', b, parents, data);
  }

  lemma OldParents(d: Dag, b: Hash, parents: set<Hash>, x: Hash)
    requires d.Valid() && x != b
    ensures Block(d, b, parents).Parents(x) == d.Parents(x) <= d.Blocks()
  {
    PastUnfold(d, x);
  }

  lemma ComputedAt(d: Dag, g: Colours, works: map<Hash, nat>, k: nat, x: Hash)
    requires Computed(d, g, works, k) && x in g && x != d.Root()
    ensures Naive(d, g, works, k, d.Parents(x), g[x])
  {
    hide Chained, Naive;
  }

  lemma ComputedRoot(d: Dag, g: Colours, works: map<Hash, nat>, k: nat)
    requires Computed(d, g, works, k)
    ensures d.Root() in g && g[d.Root()] == GENESIS
  {
    hide Naive;
  }

  lemma ComputedNow(d: Dag, g: Colours, works: map<Hash, nat>, k: nat)
    requires Chained(d, g) && d.Root() in g && g[d.Root()] == GENESIS
    requires forall b :: b in g && b != d.Root() ==> Naive(d, g, works, k, d.Parents(b), g[b])
    ensures Computed(d, g, works, k)
  {
    hide Chained, Naive;
  }

  // ----- two nodes -----

  /** Two nodes that know blocks by the same parents and work, each with its own data. */
  ghost predicate Peers(d: Dag, g: Colours, works: map<Hash, nat>, d': Dag, g': Colours, works': map<Hash, nat>,
                        k: nat)
  {
    && Coloured(d, g, k) && Coloured(d', g', k) && Computed(d, g, works, k) && Computed(d', g', works', k)
    && d.Root() == d'.Root() && works.Keys == g.Keys && works'.Keys == g'.Keys
    && SameWorks(works, works', g.Keys * g'.Keys)
    && forall b :: b in g && b in g' ==> d.Parents(b) == d'.Parents(b)
  }

  lemma PeersFacts(d: Dag, g: Colours, works: map<Hash, nat>, d': Dag, g': Colours, works': map<Hash, nat>, k: nat)
    requires Peers(d, g, works, d', g', works', k)
    ensures Chained(d, g) && Chained(d', g') && d.Valid() && d'.Valid()
    ensures g.Keys == d.Blocks() && g'.Keys == d'.Blocks()
    ensures Coloured(d, g, k) && Coloured(d', g', k) && d.Root() == d'.Root() && d.Root() in g && d'.Root() in g'
    ensures g[d.Root()] == g'[d.Root()]
  {
    hide ColouredAt, Naive;
  }

  lemma PeerBlock(d: Dag, g: Colours, works: map<Hash, nat>, d': Dag, g': Colours, works': map<Hash, nat>, k: nat,
                  b: Hash)
    requires Peers(d, g, works, d', g', works', k) && b in g && b in g' && b != d.Root()
    ensures d.Parents(b) == d'.Parents(b)
    ensures Naive(d, g, works, k, d.Parents(b), g[b]) && Naive(d', g', works', k, d.Parents(b), g'[b])
  {
    hide Coloured, Naive, Chained;
  }

  /** A block that both nodes know has the same past and the same data with both, whatever else they
      know and in whatever order they learned it. */
  lemma {:induction false} DataAgree(d: Dag, g: Colours, works: map<Hash, nat>, d': Dag, g': Colours,
                                     works': map<Hash, nat>, k: nat, b: Hash)
    requires Peers(d, g, works, d', g', works', k) && Chained(d, g) && Chained(d', g') && b in g && b in g'
    ensures g[b] == g'[b] && d.Past(b) == d'.Past(b) && BlueSet(d, g, b) == BlueSet(d', g', b)
    decreases d.Rank(b)
  {
    hide Peers, Chained, Naive;
    PeersFacts(d, g, works, d', g', works', k);
    if b == d.Root() {
      RootReaches(d, b);
      RootReaches(d', b);
    } else {
      PeerBlock(d, g, works, d', g', works', k, b);
      PastAgrees(d, g, works, d', g', works', k, b);
      ParentsInPast(d, b);
      NaiveAlike(d, g, d', g', d.Past(b), works, works', k, d.Parents(b), g[b]);
      NaiveUnique(d', g', works', k, d.Parents(b), g[b], g'[b]);
      BlueUnfold(d, g, b);
      BlueUnfold(d', g', b);
    }
  }

  lemma BlueUnfold(d: Dag, g: Colours, b: Hash)
    requires Chained(d, g) && b in g && b != d.Root()
    ensures g[b].selectedParent in g && BlueSet(d, g, b) == BlueOf(d, g, g[b])
  {
    assert Linked(d, g, b);
  }

  lemma ParentsInPast(d: Dag, b: Hash)
    requires d.Valid()
    ensures d.Parents(b) <= d.Past(b)
  {
    PastUnfold(d, b);
  }

  /** The past of a block that both know is known to both, and they are alike on it. */
  lemma {:induction false} PastAgrees(d: Dag, g: Colours, works: map<Hash, nat>, d': Dag, g': Colours,
                                      works': map<Hash, nat>, k: nat, b: Hash)
    requires Peers(d, g, works, d', g', works', k) && Chained(d, g) && Chained(d', g') && b in g && b in g'
    requires d.Parents(b) == d'.Parents(b)
    ensures d.Past(b) == d'.Past(b) && Alike(d, g, d', g', d.Past(b)) && SameWorks(works, works', d.Past(b))
    decreases d.Rank(b), 0
  {
    hide Peers, Chained, BlueSet;
    PeersFacts(d, g, works, d', g', works', k);
    PastUnfold(d, b);
    PastUnfold(d', b);
    ParentsInPast(d, b);
    forall p | p in d.Parents(b) ensures d.Past(p) == d'.Past(p) {
      RankPast(d, p, b);
      DataAgree(d, g, works, d', g', works', k, p);
    }
    assert d.PastOf(d.Parents(b)) == d'.PastOf(d.Parents(b));
    PastIn(d, b);
    PastIn(d', b);
    forall x | x in d.Past(b) ensures AlikeAt(d, g, d', g', d.Past(b), x) {
      RankPast(d, x, b);
      DataAgree(d, g, works, d', g', works', k, x);
      forall y | y in d.Past(x) ensures y in d.Past(b) { PastTrans(d, y, x, b); }
      BlueInPast(d, g, k, x);
    }
    CommonWorks(d, g, works, d', g', works', k, d.Past(b));
  }

  lemma CommonWorks(d: Dag, g: Colours, works: map<Hash, nat>, d': Dag, g': Colours, works': map<Hash, nat>, k: nat,
                    s: set<Hash>)
    requires Peers(d, g, works, d', g', works', k) && s <= g.Keys && s <= g'.Keys
    ensures SameWorks(works, works', s)
  {
    hide Coloured, Computed;
    forall x | x in s ensures x in g.Keys * g'.Keys {}
  }

  /** Blocks with the same parents, known to both nodes, have the same data: the virtual block, say. */
  lemma ParentsAgree(d: Dag, g: Colours, works: map<Hash, nat>, d': Dag, g': Colours, works': map<Hash, nat>, k: nat,
                     parents: set<Hash>, data: Data, data': Data)
    requires Peers(d, g, works, d', g', works', k) && parents <= g.Keys && parents <= g'.Keys
    requires Naive(d, g, works, k, parents, data) && Naive(d', g', works', k, parents, data')
    ensures data == data'
  {
    hide *;
    PeersFacts(d, g, works, d', g', works', k);
    var s := PastBelow(d, parents);
    BelowAlike(d, g, works, d', g', works', k, parents);
    ParentsBelow(d, parents);
    NaiveAlike(d, g, d', g', s, works, works', k, parents, data);
    NaiveUnique(d', g', works', k, parents, data, data');
  }

  lemma ParentsBelow(d: Dag, parents: set<Hash>)
    ensures parents <= PastBelow(d, parents)
  {
  }

  lemma BelowAlike(d: Dag, g: Colours, works: map<Hash, nat>, d': Dag, g': Colours, works': map<Hash, nat>, k: nat,
                   parents: set<Hash>)
    requires Peers(d, g, works, d', g', works', k) && Chained(d, g) && Chained(d', g')
    requires parents <= g.Keys && parents <= g'.Keys
    ensures Alike(d, g, d', g', PastBelow(d, parents)) && SameWorks(works, works', PastBelow(d, parents))
  {
    hide Peers, Chained, BlueSet;
    var s := PastBelow(d, parents);
    PeersFacts(d, g, works, d', g', works', k);
    forall x | x in s ensures x in g && x in g' && d.Past(x) <= s {
      BelowKnown(d, g, works, d', g', works', k, parents, x);
    }
    forall x | x in s ensures AlikeAt(d, g, d', g', s, x) {
      DataAgree(d, g, works, d', g', works', k, x);
      BlueInPast(d, g, k, x);
    }
    CommonWorks(d, g, works, d', g', works', k, s);
  }

  ghost function Under(d: Dag, parents: set<Hash>, x: Hash): (p: Hash)
    requires x in d.PastOf(parents)
    ensures p in parents && x in d.Past(p)
  {
    var p :| p in parents && x in d.Past(p);
    p
  }

  lemma BelowKnown(d: Dag, g: Colours, works: map<Hash, nat>, d': Dag, g': Colours, works': map<Hash, nat>, k: nat,
                   parents: set<Hash>, x: Hash)
    requires Peers(d, g, works, d', g', works', k) && parents <= g.Keys && parents <= g'.Keys
    requires x in PastBelow(d, parents)
    ensures x in g && x in g' && d.Past(x) <= PastBelow(d, parents)
  {
    hide Peers, Chained, BlueSet, Coloured;
    PeersFacts(d, g, works, d', g', works', k);
    var p := if x in parents then x else Under(d, parents, x);
    DataAgree(d, g, works, d', g', works', k, p);
    PastIn(d, p);
    PastIn(d', p);
    forall y | y in d.Past(x) ensures y in d.PastOf(parents) {
      if x != p { PastTrans(d, y, x, p); }
    }
  }
}
