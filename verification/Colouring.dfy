/** Why greedy colouring with sparse maps keeps the blue set a k-cluster. */
module Colouring {
  import opened Hashes
  import opened BlockDag
  import opened Ghostdag

  /** The state of a colouring: `data` belongs to a block with the given parents, not all of
      whose mergeset has been coloured yet. */
  ghost predicate Partial(d: Dag, g: Colours, k: nat, parents: set<Hash>, data: Data) {
    && Chained(d, g) && data.selectedParent in g
    && data.blues != [] && data.blues[0] == data.selectedParent && NoDup(data.blues) && |data.blues| <= k + 1
    && Elems(data.blues[1..]) <= MergeSet(d, parents, data.selectedParent)
    && BlueSet(d, g, data.selectedParent) <= d.Past(data.selectedParent)
    && Exact(d, g, data, k)
  }

  /** No merged block is in the future of the selected parent. */
  ghost predicate Dominates(d: Dag, parents: set<Hash>, selectedParent: Hash) {
    forall m :: m in MergeSet(d, parents, selectedParent) ==> !Reaches(d, selectedParent, m)
  }

  /** `c` can be coloured next: it is merged, not yet coloured, and in the past of no blue block. */
  ghost predicate Candidate(d: Dag, g: Colours, parents: set<Hash>, data: Data, c: Hash)
    requires Chained(d, g) && data.selectedParent in g
  {
    && c in MergeSet(d, parents, data.selectedParent)
    && forall x :: x in BlueOf(d, g, data) ==> !Reaches(d, c, x)
  }

  lemma BlueInPast(d: Dag, g: Colours, k: nat, b: Hash)
    requires Coloured(d, g, k) && b in g
    ensures BlueSet(d, g, b) <= d.Past(b)
  {
    if b != d.Root() { assert ColouredAt(d, g, k, b); }
  }

  lemma ExactCluster(d: Dag, g: Colours, data: Data, k: nat)
    requires Chained(d, g) && data.selectedParent in g && Exact(d, g, data, k)
    ensures KCluster(d, BlueOf(d, g, data), k)
  {
    forall x | x in BlueOf(d, g, data) ensures |AnticoneIn(d, x, BlueOf(d, g, data))| <= k {
      assert ExactAt(d, g, data, k, x);
    }
  }

  /** What the data of every block mean: its blue set is a k-cluster, the sparse maps give the
      size of every blue anticone in it, and the blue score is its size. */
  lemma ColouredMeans(d: Dag, g: Colours, k: nat, b: Hash)
    requires Coloured(d, g, k) && b in g && b != d.Root()
    ensures Chained(d, g) && g[b].selectedParent in g
    ensures KCluster(d, BlueSet(d, g, b), k) && BlueSet(d, g, b) <= d.Past(b)
    ensures g[b].blueScore == |BlueSet(d, g, b)|
    ensures forall x :: x in BlueSet(d, g, b) ==> Lookup(d, g, g[b], x) == |AnticoneIn(d, x, BlueSet(d, g, b))|
  {
    assert ColouredAt(d, g, k, b);
    assert BlueOf(d, g, g[b]) == BlueSet(d, g, b);
    ExactCluster(d, g, g[b], k);
    forall x | x in BlueSet(d, g, b) ensures Lookup(d, g, g[b], x) == |AnticoneIn(d, x, BlueSet(d, g, b))| {
      assert ExactAt(d, g, g[b], k, x);
    }
  }

  lemma GenesisColoured(genesis: Hash, data: Data, k: nat)
    requires data.blueScore == 0
    ensures Coloured(Origin(genesis), map[genesis := data], k)
  {
  }

  // ----- the start -----

  function WithSelectedParent(selectedParent: Hash): Data {
    Data(0, 0, selectedParent, [selectedParent], [], map[selectedParent := 0])
  }

  lemma PastAnticone(d: Dag, x: Hash, s: set<Hash>)
    requires s <= d.Past(x)
    ensures AnticoneIn(d, x, s + {x}) == {} && forall y :: y in s ==> AnticoneIn(d, y, s + {x}) == AnticoneIn(d, y, s)
  {
  }

  lemma StartBlue(d: Dag, g: Colours, sp: Hash)
    requires Chained(d, g) && sp in g
    ensures BlueOf(d, g, WithSelectedParent(sp)) == BlueSet(d, g, sp) + {sp}
  {
    hide Chained, BlueSet;
    assert Elems([sp]) == {sp};
  }

  lemma StartLookup(d: Dag, g: Colours, sp: Hash, x: Hash)
    requires Chained(d, g) && sp in g
    ensures Lookup(d, g, WithSelectedParent(sp), sp) == 0
    ensures sp != d.Root() && x != sp ==>
              g[sp].selectedParent in g && Lookup(d, g, WithSelectedParent(sp), x) == Lookup(d, g, g[sp], x)
  {
    if sp != d.Root() {
      assert Linked(d, g, sp);
    }
  }

  lemma StartExact(d: Dag, g: Colours, k: nat, sp: Hash, x: Hash)
    requires Coloured(d, g, k) && sp in g && x in BlueSet(d, g, sp) + {sp}
    requires BlueSet(d, g, sp) <= d.Past(sp)
    ensures ExactAt(d, g, WithSelectedParent(sp), k, x)
  {
    var s := BlueSet(d, g, sp);
    StartBlue(d, g, sp);
    StartLookup(d, g, sp, x);
    PastAnticone(d, sp, s);
    if x != sp {
      assert sp != d.Root();
      ColouredMeans(d, g, k, sp);
    }
    hide Coloured, Chained, AnticoneIn, Lookup, BlueSet, BlueOf, WithSelectedParent;
  }

  lemma StartShape(d: Dag, g: Colours, k: nat, parents: set<Hash>, sp: Hash)
    requires Chained(d, g) && sp in g && BlueSet(d, g, sp) <= d.Past(sp)
    requires Exact(d, g, WithSelectedParent(sp), k)
    ensures Partial(d, g, k, parents, WithSelectedParent(sp))
  {
    hide Chained, Exact, BlueSet;
  }

  lemma PartialStart(d: Dag, g: Colours, k: nat, parents: set<Hash>, selectedParent: Hash)
    requires Coloured(d, g, k) && selectedParent in g
    ensures Partial(d, g, k, parents, WithSelectedParent(selectedParent))
  {
    BlueInPast(d, g, k, selectedParent);
    StartBlue(d, g, selectedParent);
    hide Chained, ColouredAt, ExactAt, BlueSet, BlueOf, Partial;
    forall x | x in BlueSet(d, g, selectedParent) + {selectedParent}
      ensures ExactAt(d, g, WithSelectedParent(selectedParent), k, x)
    {
      StartExact(d, g, k, selectedParent, x);
    }
    StartShape(d, g, k, parents, selectedParent);
  }

  // ----- one more blue -----

  /** The map of affected blues: exactly the blue anticone of the candidate, with the sizes
      before the candidate is added, none of them at its limit. */
  ghost predicate Affected(d: Dag, g: Colours, k: nat, data: Data, c: Hash, m: map<Hash, KType>)
    requires Chained(d, g) && data.selectedParent in g
  {
    && m.Keys == AnticoneIn(d, c, BlueOf(d, g, data)) && |m.Keys| <= k
    && forall x :: x in m ==> m[x] == Lookup(d, g, data, x) && m[x] < k
  }

  /** The sizes after a candidate turned blue. */
  function Raised(sizes: map<Hash, KType>, c: Hash, n: KType, m: map<Hash, KType>): map<Hash, KType>
    requires forall x :: x in m ==> m[x] < 255
  {
    map x | x in sizes.Keys + {c} + m.Keys :: if x in m then m[x] + 1 else if x == c then n else sizes[x]
  }

  lemma BlueAddedAt(d: Dag, g: Colours, k: KType, data: Data, c: Hash, n: KType, m: map<Hash, KType>, data': Data,
                    x: Hash)
    requires Chained(d, g) && data.selectedParent in g && data'.selectedParent == data.selectedParent
    requires Affected(d, g, k, data, c, m) && n == |m.Keys| && data'.sizes == Raised(data.sizes, c, n, m)
    requires c !in BlueOf(d, g, data) && BlueOf(d, g, data') == BlueOf(d, g, data) + {c}
    requires x == c || (x in BlueOf(d, g, data) && ExactAt(d, g, data, k, x))
    ensures ExactAt(d, g, data', k, x)
  {
    hide Chained, BlueOf, Raised, AnticoneIn, Lookup;
    var s := BlueOf(d, g, data);
    AnticoneGrows(d, s, c, x);
    RaisedAt(data.sizes, c, n, m, x);
    InAnticone(d, c, s, x);
    InAnticone(d, c, s, c);
    if x == c || x in m {
      FoundHere(d, g, data', x);
    } else {
      SameLookup(d, g, data, data', x);
    }
  }

  lemma InAnticone(d: Dag, c: Hash, s: set<Hash>, x: Hash)
    ensures x in AnticoneIn(d, c, s) <==> x in s && Anticone(d, c, x)
    ensures !Anticone(d, c, c)
  {
  }

  lemma FoundHere(d: Dag, g: Colours, data: Data, x: Hash)
    requires Chained(d, g) && data.selectedParent in g && x in data.sizes
    ensures Lookup(d, g, data, x) == data.sizes[x]
  {
  }

  lemma RaisedAt(sizes: map<Hash, KType>, c: Hash, n: KType, m: map<Hash, KType>, x: Hash)
    requires forall y :: y in m ==> m[y] < 255
    ensures x in Raised(sizes, c, n, m) <==> x in sizes || x == c || x in m
    ensures x in m ==> Raised(sizes, c, n, m)[x] == m[x] + 1
    ensures x == c && c !in m ==> Raised(sizes, c, n, m)[c] == n
    ensures x in sizes && x != c && x !in m ==> Raised(sizes, c, n, m)[x] == sizes[x]
  {
  }

  lemma BlueAdded(d: Dag, g: Colours, k: KType, parents: set<Hash>, data: Data, c: Hash, n: KType, m: map<Hash, KType>,
                  data': Data)
    requires Partial(d, g, k, parents, data) && Candidate(d, g, parents, data, c) && |data.blues| <= k
    requires Affected(d, g, k, data, c, m) && n == |m.Keys|
    requires data' == data.(blues := data.blues + [c], sizes := Raised(data.sizes, c, n, m))
    ensures Partial(d, g, k, parents, data')
  {
    hide Chained, Affected, AnticoneIn, Anticone, MergeSet, ExactAt, Raised, Dag.Past, BlueOf, BlueSet, Elems;
    var s := BlueOf(d, g, data);
    CandidateNew(d, g, parents, data, c);
    BlueOfAppend(d, g, data, data', c);
    ListAppend(data.blues, c);
    forall x | x in s + {c} ensures ExactAt(d, g, data', k, x) {
      BlueAddedAt(d, g, k, data, c, n, m, data', x);
    }
  }

  lemma CandidateNew(d: Dag, g: Colours, parents: set<Hash>, data: Data, c: Hash)
    requires Chained(d, g) && data.selectedParent in g && Candidate(d, g, parents, data, c)
    ensures c !in BlueOf(d, g, data) && c !in data.blues && c in MergeSet(d, parents, data.selectedParent)
  {
    if c in data.blues { assert c in Elems(data.blues); }
  }

  lemma BlueOfAppend(d: Dag, g: Colours, data: Data, data': Data, c: Hash)
    requires Chained(d, g) && data.selectedParent in g && data'.selectedParent == data.selectedParent
    requires data'.blues == data.blues + [c]
    ensures BlueOf(d, g, data') == BlueOf(d, g, data) + {c}
  {
    ElemsAppend(data.blues, c);
  }

  lemma ListAppend(s: seq<Hash>, c: Hash)
    requires s != [] && NoDup(s) && c !in s
    ensures NoDup(s + [c]) && Elems((s + [c])[1..]) == Elems(s[1..]) + {c}
  {
    assert (s + [c])[1..] == s[1..] + [c];
  }

  lemma SameLookup(d: Dag, g: Colours, data: Data, data': Data, x: Hash)
    requires Chained(d, g) && data.selectedParent in g && data'.selectedParent == data.selectedParent
    requires x in data.sizes <==> x in data'.sizes
    requires x in data.sizes ==> data.sizes[x] == data'.sizes[x]
    ensures Lookup(d, g, data', x) == Lookup(d, g, data, x)
  {
  }

  /** The score, the work and the reds do not matter to the blue set. */
  lemma PartialSame(d: Dag, g: Colours, k: nat, parents: set<Hash>, data: Data, data': Data)
    requires Partial(d, g, k, parents, data)
    requires data'.selectedParent == data.selectedParent && data'.blues == data.blues && data'.sizes == data.sizes
    ensures Partial(d, g, k, parents, data')
  {
    assert BlueOf(d, g, data') == BlueOf(d, g, data);
    forall x | x in BlueOf(d, g, data') ensures ExactAt(d, g, data', k, x) {
      assert ExactAt(d, g, data, k, x);
      SameLookup(d, g, data, data', x);
    }
  }

  // ----- the naive test -----

  /** The naive test: the blue set would stay a cluster. */
  ghost predicate Accepts(d: Dag, g: Colours, k: nat, data: Data, c: Hash)
    requires Chained(d, g) && data.selectedParent in g
  {
    KCluster(d, BlueOf(d, g, data) + {c}, k)
  }

  /** The test by counting: the anticone of the candidate, and the sizes of the blocks in it. */
  lemma AcceptsWhen(d: Dag, g: Colours, k: nat, parents: set<Hash>, data: Data, c: Hash)
    requires Partial(d, g, k, parents, data) && Candidate(d, g, parents, data, c)
    ensures Accepts(d, g, k, data, c) <==>
              && |AnticoneIn(d, c, BlueOf(d, g, data))| <= k
              && forall x :: x in AnticoneIn(d, c, BlueOf(d, g, data)) ==> Lookup(d, g, data, x) < k
  {
    var s := BlueOf(d, g, data);
    ExactCluster(d, g, data, k);
    assert c !in s;
    ClusterGrows(d, s, k, c);
    forall x | x in AnticoneIn(d, c, s) ensures Lookup(d, g, data, x) == |AnticoneIn(d, x, s)| {
      assert ExactAt(d, g, data, k, x);
    }
  }

  /** The blues merged beside the selected parent are its blue anticone. */
  lemma SelectedParentAnticone(d: Dag, g: Colours, k: nat, parents: set<Hash>, data: Data)
    requires Partial(d, g, k, parents, data) && Dominates(d, parents, data.selectedParent)
    ensures |AnticoneIn(d, data.selectedParent, BlueOf(d, g, data))| == |data.blues| - 1
  {
    var sp := data.selectedParent;
    var s, rest := BlueOf(d, g, data), data.blues[1..];
    PopFront(data.blues);
    ElemsSize(rest);
    forall x ensures x in AnticoneIn(d, sp, s) <==> x in Elems(rest) {
      if x in Elems(rest) {
        MergeSetMember(d, parents, sp, x);
      } else if x in s {
        assert x == sp || x in BlueSet(d, g, sp);
      }
    }
    assert AnticoneIn(d, sp, s) == Elems(rest);
  }

  /** With `k + 1` blues the selected parent is at its limit, so every further candidate is red. */
  lemma FullMeansRed(d: Dag, g: Colours, k: nat, parents: set<Hash>, data: Data, c: Hash)
    requires Partial(d, g, k, parents, data) && Candidate(d, g, parents, data, c)
    requires Dominates(d, parents, data.selectedParent) && |data.blues| == k + 1
    ensures !Accepts(d, g, k, data, c)
  {
    var sp := data.selectedParent;
    SelectedParentAnticone(d, g, k, parents, data);
    AcceptsWhen(d, g, k, parents, data, c);
    assert sp in Elems(data.blues);
    MergeSetMember(d, parents, sp, c);
    assert sp in AnticoneIn(d, c, BlueOf(d, g, data));
    assert ExactAt(d, g, data, k, sp);
  }

  // ----- the walk down the selected chain -----

  /** `seen` blues were compared with the candidate, `rest` not yet. */
  ghost predicate Walk(d: Dag, g: Colours, k: nat, data: Data, c: Hash, seen: set<Hash>, rest: set<Hash>, m: map<Hash,
                       KType>)
    requires Chained(d, g) && data.selectedParent in g
  {
    && BlueOf(d, g, data) == seen + rest && seen !! rest
    && m.Keys == AnticoneIn(d, c, seen) && |m.Keys| <= k
    && forall x :: x in m ==> m[x] == Lookup(d, g, data, x) && m[x] < k
  }

  lemma WalkStart(d: Dag, g: Colours, k: nat, data: Data, c: Hash)
    requires Chained(d, g) && data.selectedParent in g
    ensures Walk(d, g, k, data, c, {}, BlueOf(d, g, data), map[])
  {
    assert AnticoneIn(d, c, {}) == {};
  }

  /** A blue block in the past of the candidate is passed over. */
  lemma WalkSkip(d: Dag, g: Colours, k: nat, data: Data, c: Hash, seen: set<Hash>, rest: set<Hash>, m: map<Hash,
                 KType>, x: Hash)
    requires Chained(d, g) && data.selectedParent in g && Walk(d, g, k, data, c, seen, rest, m)
    requires x in rest && Reaches(d, x, c)
    ensures Walk(d, g, k, data, c, seen + {x}, rest - {x}, m)
  {
    hide Chained, BlueOf, Lookup;
    assert AnticoneIn(d, c, seen + {x}) == AnticoneIn(d, c, seen);
    assert seen + {x} + (rest - {x}) == seen + rest;
  }

  /** A blue block of the rest that does not reach the candidate is in its anticone. */
  lemma WalkAnticone(d: Dag, g: Colours, k: nat, parents: set<Hash>, data: Data, c: Hash, seen: set<Hash>,
                     rest: set<Hash>,
                     m: map<Hash, KType>, x: Hash)
    requires Partial(d, g, k, parents, data) && Candidate(d, g, parents, data, c)
             && Walk(d, g, k, data, c, seen, rest, m)
    requires x in rest && !Reaches(d, x, c)
    ensures Anticone(d, c, x) && Anticone(d, x, c) && x in AnticoneIn(d, c, BlueOf(d, g, data))
    ensures 0 <= Lookup(d, g, data, x) <= k
    ensures x !in m && AnticoneIn(d, c, seen + {x}) == m.Keys + {x}
            && m.Keys + {x} <= AnticoneIn(d, c, BlueOf(d, g, data))
  {
    hide Chained, MergeSet, Lookup, Partial, Dag.Past, BlueOf, AnticoneIn, Reaches;
    PartialFacts(d, g, k, parents, data);
    assert x in BlueOf(d, g, data) && !Reaches(d, c, x);
    SizeBound(d, g, k, parents, data, x);
    InAnticone(d, c, seen + rest, x);
    InAnticone(d, c, seen, x);
    AnticoneGrows(d, seen, x, c);
    AnticoneMonotone(d, c, seen + {x}, seen + rest);
  }

  /** Too many blues in the anticone, or one of them at its limit: the test rejects. */
  lemma WalkRejects(d: Dag, g: Colours, k: nat, parents: set<Hash>, data: Data, c: Hash, seen: set<Hash>,
                    rest: set<Hash>,
                    m: map<Hash, KType>, x: Hash)
    requires Partial(d, g, k, parents, data) && Candidate(d, g, parents, data, c)
             && Walk(d, g, k, data, c, seen, rest, m)
    requires x in rest && !Reaches(d, x, c) && (|m.Keys| == k || Lookup(d, g, data, x) == k)
    ensures !Accepts(d, g, k, data, c)
  {
    hide Chained, Candidate, Lookup, Partial, BlueOf, AnticoneIn, Reaches, Accepts, Walk;
    PartialFacts(d, g, k, parents, data);
    WalkAnticone(d, g, k, parents, data, c, seen, rest, m, x);
    AcceptsWhen(d, g, k, parents, data, c);
    SubsetSize(m.Keys + {x}, AnticoneIn(d, c, BlueOf(d, g, data)));
  }

  /** A blue block in the anticone is entered in the map. */
  lemma WalkEnter(d: Dag, g: Colours, k: nat, parents: set<Hash>, data: Data, c: Hash, seen: set<Hash>, rest: set<Hash>,
                  m: map<Hash, KType>, x: Hash, size: KType)
    requires Partial(d, g, k, parents, data) && Candidate(d, g, parents, data, c)
             && Walk(d, g, k, data, c, seen, rest, m)
    requires x in rest && !Reaches(d, x, c) && size == Lookup(d, g, data, x) && size < k && |m.Keys| < k
    ensures x !in m && |m[x := size].Keys| == |m.Keys| + 1
    ensures Walk(d, g, k, data, c, seen + {x}, rest - {x}, m[x := size])
  {
    hide *;
    PartialFacts(d, g, k, parents, data);
    WalkAnticone(d, g, k, parents, data, c, seen, rest, m, x);
    KeyEntered(m, x, size);
    WalkStep(d, g, k, data, c, seen, rest, m, x, m[x := size]);
  }

  lemma KeyEntered(m: map<Hash, KType>, x: Hash, size: KType)
    ensures m[x := size].Keys == m.Keys + {x} && (x !in m ==> |m[x := size].Keys| == |m.Keys| + 1)
  {
  }

  lemma WalkStep(d: Dag, g: Colours, k: nat, data: Data, c: Hash, seen: set<Hash>, rest: set<Hash>, m: map<Hash,
                 KType>, x: Hash,
                 m': map<Hash, KType>)
    requires Chained(d, g) && data.selectedParent in g && Walk(d, g, k, data, c, seen, rest, m)
    requires x in rest && AnticoneIn(d, c, seen + {x}) == m'.Keys && |m'.Keys| <= k && x in m'
    requires m' == m[x := m'[x]] && m'[x] == Lookup(d, g, data, x) && m'[x] < k
    ensures Walk(d, g, k, data, c, seen + {x}, rest - {x}, m')
  {
    hide Chained, Lookup, BlueOf, AnticoneIn;
    assert seen + {x} + (rest - {x}) == seen + rest;
  }

  lemma PartialFacts(d: Dag, g: Colours, k: nat, parents: set<Hash>, data: Data)
    requires Partial(d, g, k, parents, data)
    ensures Chained(d, g) && data.selectedParent in g && Exact(d, g, data, k) && |data.blues| <= k + 1
            && data.blues != []
  {
  }

  lemma AnticoneMonotone(d: Dag, c: Hash, s: set<Hash>, r: set<Hash>)
    requires s <= r
    ensures AnticoneIn(d, c, s) <= AnticoneIn(d, c, r)
  {
  }

  lemma SizeBound(d: Dag, g: Colours, k: nat, parents: set<Hash>, data: Data, x: Hash)
    requires Partial(d, g, k, parents, data) && x in BlueOf(d, g, data)
    ensures 0 <= Lookup(d, g, data, x) <= k
  {
    assert ExactAt(d, g, data, k, x);
  }

  /** Once the rest is in the past of the candidate, the map is complete and the test accepts. */
  lemma WalkEnd(d: Dag, g: Colours, k: nat, parents: set<Hash>, data: Data, c: Hash, seen: set<Hash>, rest: set<Hash>,
                m: map<Hash, KType>)
    requires Partial(d, g, k, parents, data) && Candidate(d, g, parents, data, c)
             && Walk(d, g, k, data, c, seen, rest, m)
    requires forall x :: x in rest ==> Reaches(d, x, c)
    ensures Affected(d, g, k, data, c, m) && Accepts(d, g, k, data, c)
  {
    assert AnticoneIn(d, c, seen + rest) == AnticoneIn(d, c, seen);
    AcceptsWhen(d, g, k, parents, data, c);
  }

  // ----- adding the coloured block -----

  /** `d'` and `g'` are `d` and `g` with the block `b`. */
  ghost predicate Extended(d: Dag, g: Colours, d': Dag, g': Colours, b: Hash, parents: set<Hash>, data: Data) {
    && Chained(d, g) && d'.Valid() && d' == Block(d, b, parents) && g' == g[b := data] && data.selectedParent in parents
  }

  lemma ExtendedFacts(d: Dag, g: Colours, d': Dag, g': Colours, b: Hash, parents: set<Hash>, data: Data)
    requires Extended(d, g, d', g', b, parents, data)
    ensures b !in g && d'.Root() == d.Root() && b != d.Root() && d'.Blocks() == d.Blocks() + {b} && d.Valid()
    ensures g.Keys == d.Blocks() && g'.Keys == g.Keys + {b} && parents <= g.Keys && data.selectedParent in g
    ensures d'.Parents(b) == parents && d'.Past(b) == parents + d.PastOf(parents)
  {
  }

  lemma ExtendedPast(d: Dag, g: Colours, d': Dag, g': Colours, b: Hash, parents: set<Hash>, data: Data, x: Hash)
    requires Extended(d, g, d', g', b, parents, data) && x in g
    ensures x in g' && g'[x] == g[x] && x != b && d'.Past(x) == d.Past(x) && d'.Parents(x) == d.Parents(x)
            && d'.Rank(x) == d.Rank(x)
    ensures d.Past(x) <= g.Keys && d.Parents(x) <= g.Keys
  {
    PastIn(d, x);
    PastUnfold(d, x);
  }

  lemma ExtendedChained(d: Dag, g: Colours, d': Dag, g': Colours, b: Hash, parents: set<Hash>, data: Data)
    requires Extended(d, g, d', g', b, parents, data)
    ensures Chained(d', g')
  {
    ExtendedFacts(d, g, d', g', b, parents, data);
    forall x | x in g' && x != d'.Root() ensures Linked(d', g', x) {
      if x == b {
        assert data.selectedParent in d'.Past(b);
        RankPast(d', data.selectedParent, b);
      } else {
        assert Linked(d, g, x);
        ExtendedPast(d, g, d', g', b, parents, data, x);
        ExtendedPast(d, g, d', g', b, parents, data, g[x].selectedParent);
      }
    }
  }

  lemma {:induction false} ExtendedBlue(d: Dag, g: Colours, d': Dag, g': Colours, b: Hash, parents: set<Hash>,
                                        data: Data, x: Hash)
    requires Extended(d, g, d', g', b, parents, data) && Chained(d', g') && x in g && x in g'
    ensures BlueSet(d', g', x) == BlueSet(d, g, x)
    decreases d.Rank(x)
  {
    ExtendedFacts(d, g, d', g', b, parents, data);
    ExtendedPast(d, g, d', g', b, parents, data, x);
    if x != d.Root() {
      assert Linked(d, g, x) && Linked(d', g', x);
      hide Extended, Chained;
      ExtendedBlue(d, g, d', g', b, parents, data, g[x].selectedParent);
    }
  }

  lemma {:induction false} ExtendedLookup(d: Dag, g: Colours, d': Dag, g': Colours, b: Hash, parents: set<Hash>,
                                          data: Data,
                                          context: Data, x: Hash)
    requires Extended(d, g, d', g', b, parents, data) && Chained(d', g')
    requires context.selectedParent in g && context.selectedParent in g'
    ensures Lookup(d', g', context, x) == Lookup(d, g, context, x)
    decreases d.Rank(context.selectedParent)
  {
    var sp := context.selectedParent;
    ExtendedFacts(d, g, d', g', b, parents, data);
    ExtendedPast(d, g, d', g', b, parents, data, sp);
    if x !in context.sizes && sp != d.Root() {
      assert Linked(d, g, sp) && Linked(d', g', sp);
      hide Extended, Chained;
      ExtendedLookup(d, g, d', g', b, parents, data, g[sp], x);
    }
  }

  lemma ExtendedAnticone(d: Dag, g: Colours, d': Dag, g': Colours, b: Hash, parents: set<Hash>, data: Data, x: Hash,
                         s: set<Hash>)
    requires Extended(d, g, d', g', b, parents, data) && x in g && s <= g.Keys
    ensures AnticoneIn(d', x, s) == AnticoneIn(d, x, s)
  {
    forall y | y in s ensures Anticone(d', x, y) <==> Anticone(d, x, y) {
      ExtendedPast(d, g, d', g', b, parents, data, x);
      ExtendedPast(d, g, d', g', b, parents, data, y);
    }
  }

  lemma ExtendedExact(d: Dag, g: Colours, d': Dag, g': Colours, b: Hash, parents: set<Hash>, data: Data, context: Data,
                      k: nat)
    requires Extended(d, g, d', g', b, parents, data) && Chained(d', g') && Chained(d, g)
    requires context.selectedParent in g && context.selectedParent in g'
    requires Exact(d, g, context, k) && BlueOf(d, g, context) <= g.Keys
    ensures Exact(d', g', context, k) && BlueOf(d', g', context) == BlueOf(d, g, context)
  {
    ExtendedBlue(d, g, d', g', b, parents, data, context.selectedParent);
    var s := BlueOf(d, g, context);
    assert BlueOf(d', g', context) == s;
    hide Extended, Chained, BlueOf, AnticoneIn, Lookup;
    forall x | x in s ensures ExactAt(d', g', context, k, x) {
      assert ExactAt(d, g, context, k, x);
      ExtendedLookup(d, g, d', g', b, parents, data, context, x);
      ExtendedAnticone(d, g, d', g', b, parents, data, x, s);
    }
  }

  lemma ExtendedMerges(d: Dag, g: Colours, d': Dag, g': Colours, b: Hash, parents: set<Hash>, data: Data,
                       context: Data, ps: set<Hash>)
    requires Extended(d, g, d', g', b, parents, data) && ps <= g.Keys && context.selectedParent in g
    requires Merges(d, g, ps, context)
    ensures Merges(d', g', ps, context)
  {
    forall p | p in ps + {context.selectedParent} ensures d'.Past(p) == d.Past(p) {
      ExtendedPast(d, g, d', g', b, parents, data, p);
    }
    assert d'.PastOf(ps) == d.PastOf(ps);
    assert MergeSet(d', ps, context.selectedParent) == MergeSet(d, ps, context.selectedParent);
    ExtendedAscending(d, g, d', g', b, parents, data, context.blues[1..]);
    ExtendedAscending(d, g, d', g', b, parents, data, context.reds);
    ExtendedHeaviest(d, g, d', g', b, parents, data, ps, context.selectedParent);
  }

  lemma ExtendedHeaviest(d: Dag, g: Colours, d': Dag, g': Colours, b: Hash, parents: set<Hash>, data: Data,
                         ps: set<Hash>, sp: Hash)
    requires Extended(d, g, d', g', b, parents, data) && Heaviest(g, ps, sp)
    ensures Heaviest(g', ps, sp)
  {
    ExtendedFacts(d, g, d', g', b, parents, data);
  }

  lemma ExtendedAscending(d: Dag, g: Colours, d': Dag, g': Colours, b: Hash, parents: set<Hash>, data: Data,
                          s: seq<Hash>)
    requires Extended(d, g, d', g', b, parents, data) && Ascending(g, s)
    ensures Ascending(g', s)
  {
    ExtendedFacts(d, g, d', g', b, parents, data);
  }

  /** What an old block's data say is not affected by a new block. */
  lemma ExtendedOld(d: Dag, g: Colours, d': Dag, g': Colours, b: Hash, parents: set<Hash>, data: Data, k: nat, x: Hash)
    requires Extended(d, g, d', g', b, parents, data) && Chained(d', g') && Chained(d, g)
    requires x in g && x in g' && x != d.Root() && x != d'.Root() && ColouredAt(d, g, k, x)
    ensures ColouredAt(d', g', k, x)
  {
    ExtendedPast(d, g, d', g', b, parents, data, x);
    assert Linked(d', g', x) && Linked(d, g, x);
    assert BlueOf(d, g, g[x]) == BlueSet(d, g, x);
    assert BlueOf(d', g', g'[x]) == BlueSet(d', g', x);
    hide Extended, Chained, BlueOf, BlueSet, Exact, Merges, Linked;
    ExtendedExact(d, g, d', g', b, parents, data, g[x], k);
    ExtendedMerges(d, g, d', g', b, parents, data, g[x], d.Parents(x));
  }

  /** The data of a block all of whose mergeset has been coloured. */
  ghost predicate Finished(d: Dag, g: Colours, k: nat, parents: set<Hash>, data: Data) {
    && Partial(d, g, k, parents, data) && k <= 255 && data.selectedParent in parents && Merges(d, g, parents, data)
    && data.blueScore == g[data.selectedParent].blueScore + |data.blues|
    && forall p :: p in parents ==> p in g && g[p].blueWork < data.blueWork
  }

  lemma FinishedBlue(d: Dag, g: Colours, k: nat, parents: set<Hash>, data: Data)
    requires Coloured(d, g, k) && Finished(d, g, k, parents, data)
    ensures |BlueOf(d, g, data)| == data.blueScore
    ensures BlueOf(d, g, data) <= parents + d.PastOf(parents) && BlueOf(d, g, data) <= g.Keys
  {
    var sp := data.selectedParent;
    var s, new_ := BlueSet(d, g, sp), Elems(data.blues);
    ElemsSize(data.blues);
    ScoreIs(d, g, k, sp);
    BlueInPast(d, g, k, sp);
    PastIn(d, sp);
    hide Chained, BlueSet, Exact, Coloured, MergeSet, Merges;
    forall x | x in new_ ensures x !in s && x in parents + d.PastOf(parents) && x in g {
      FinishedNew(d, g, k, parents, data, x);
    }
    assert new_ !! s;
    forall x | x in s ensures x in d.PastOf(parents) && x in g {}
  }

  lemma ScoreIs(d: Dag, g: Colours, k: nat, b: Hash)
    requires Coloured(d, g, k) && b in g
    ensures g[b].blueScore == |BlueSet(d, g, b)|
  {
    if b != d.Root() { assert ColouredAt(d, g, k, b); }
  }

  lemma FinishedNew(d: Dag, g: Colours, k: nat, parents: set<Hash>, data: Data, x: Hash)
    requires Chained(d, g) && Finished(d, g, k, parents, data) && x in data.blues
    ensures x !in d.Past(data.selectedParent) && x in parents + d.PastOf(parents) && x in g
  {
    var sp := data.selectedParent;
    PastIn(d, sp);
    var i :| 0 <= i < |data.blues| && data.blues[i] == x;
    if i > 0 {
      assert data.blues[1..][i - 1] == x;
      assert x in Elems(data.blues[1..]);
      MergeSetMember(d, parents, sp, x);
      assert Ascending(g, data.blues[1..]);
    }
  }

  lemma ExtendedNew(d: Dag, g: Colours, d': Dag, g': Colours, b: Hash, parents: set<Hash>, data: Data, k: nat)
    requires Extended(d, g, d', g', b, parents, data) && Chained(d', g') && Coloured(d, g, k)
    requires Finished(d, g, k, parents, data) && b in g' && b != d'.Root()
    ensures ColouredAt(d', g', k, b)
  {
    ExtendedFacts(d, g, d', g', b, parents, data);
    assert Linked(d', g', b);
    assert BlueOf(d', g', g'[b]) == BlueSet(d', g', b);
    hide Extended, Chained, BlueOf, BlueSet, Exact, Merges, Linked, Coloured;
    ColouredChained(d, g, k);
    FinishedBlue(d, g, k, parents, data);
    ExtendedExact(d, g, d', g', b, parents, data, data, k);
    ExtendedMerges(d, g, d', g', b, parents, data, data, parents);
  }

  lemma ColouredChained(d: Dag, g: Colours, k: nat)
    requires Coloured(d, g, k)
    ensures Chained(d, g) && WorkGrows(d, g) && g[d.Root()].blueScore == 0 && d.Root() in g && d.Valid()
            && g.Keys == d.Blocks()
  {
  }

  lemma ExtendedWork(d: Dag, g: Colours, d': Dag, g': Colours, b: Hash, parents: set<Hash>, data: Data, k: nat)
    requires Extended(d, g, d', g', b, parents, data) && WorkGrows(d, g) && Finished(d, g, k, parents, data)
    ensures WorkGrows(d', g')
  {
    ExtendedFacts(d, g, d', g', b, parents, data);
    hide Extended;
    forall x, p | x in g' && p in d'.Parents(x) ensures p in g' && g'[p].blueWork < g'[x].blueWork {
      if x != b { ExtendedPast(d, g, d', g', b, parents, data, x); }
    }
  }

  /** Adding a block with finished data keeps every block's blue set an exactly measured k-cluster. */
  lemma ColouringKept(d: Dag, g: Colours, k: nat, b: Hash, parents: set<Hash>, data: Data)
    requires Coloured(d, g, k) && Finished(d, g, k, parents, data) && Block(d, b, parents).Valid()
    ensures Coloured(Block(d, b, parents), g[b := data], k)
  {
    var d', g' := Block(d, b, parents), g[b := data];
    ColouredChained(d, g, k);
    assert Extended(d, g, d', g', b, parents, data);
    ExtendedFacts(d, g, d', g', b, parents, data);
    ExtendedChained(d, g, d', g', b, parents, data);
    ExtendedWork(d, g, d', g', b, parents, data, k);
    forall x | x in g' && x != d'.Root() ensures ColouredAt(d', g', k, x) {
      if x == b {
        ExtendedNew(d, g, d', g', b, parents, data, k);
      } else {
        assert ColouredAt(d, g, k, x);
        ExtendedOld(d, g, d', g', b, parents, data, k, x);
      }
    }
  }
}
