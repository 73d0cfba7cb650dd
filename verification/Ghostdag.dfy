/** GHOSTDAG data, and what they mean in the DAG. */
module Ghostdag {
  import opened Hashes
  import opened BlockDag

  /** The 8-bit type of anticone sizes. */
  type KType = n: nat | n <= 255

  datatype Data = Data(blueScore: nat, blueWork: nat, selectedParent: Hash, blues: seq<Hash>, reds: seq<Hash>,
                       sizes: map<Hash, KType>)

  type Colours = map<Hash, Data>

  // ----- the selected chain and the blue set -----

  /** Every block but the root has a selected parent in its past. */
  ghost predicate Chained(d: Dag, g: Colours) {
    && d.Valid() && g.Keys == d.Blocks() && d.Root() in g
    && forall b :: b in g && b != d.Root() ==> Linked(d, g, b)
  }

  ghost predicate Linked(d: Dag, g: Colours, b: Hash)
    requires b in g
  {
    g[b].selectedParent in g && g[b].selectedParent in d.Past(b) && d.Rank(g[b].selectedParent) < d.Rank(b)
  }

  /** The blue blocks in the past of `b`, in the view of `b`. */
  ghost function BlueSet(d: Dag, g: Colours, b: Hash): set<Hash>
    requires Chained(d, g) && b in g
    decreases d.Rank(b)
  {
    if b == d.Root() then {} else
      assert Linked(d, g, b);
      Elems(g[b].blues) + BlueSet(d, g, g[b].selectedParent)
  }

  /** The blue set of a block that is still being coloured. */
  ghost function BlueOf(d: Dag, g: Colours, data: Data): set<Hash>
    requires Chained(d, g) && data.selectedParent in g
  {
    Elems(data.blues) + BlueSet(d, g, data.selectedParent)
  }

  /** `a` is on the chain of selected parents of `b`. */
  ghost predicate OnChain(d: Dag, g: Colours, a: Hash, b: Hash)
    requires Chained(d, g) && b in g
    decreases d.Rank(b)
  {
    a == b || (b != d.Root() && assert Linked(d, g, b); OnChain(d, g, a, g[b].selectedParent))
  }

  /** What the sparse maps down the selected chain say about `x`; -1 if nothing. */
  ghost function Lookup(d: Dag, g: Colours, data: Data, x: Hash): int
    requires Chained(d, g) && data.selectedParent in g
    decreases d.Rank(data.selectedParent)
  {
    if x in data.sizes then data.sizes[x]
    else if data.selectedParent == d.Root() then -1
    else
      assert Linked(d, g, data.selectedParent);
      Lookup(d, g, g[data.selectedParent], x)
  }

  // ----- clusters -----

  ghost predicate Anticone(d: Dag, x: Hash, y: Hash) {
    !Reaches(d, x, y) && !Reaches(d, y, x)
  }

  ghost function AnticoneIn(d: Dag, x: Hash, s: set<Hash>): set<Hash> {
    set y | y in s && Anticone(d, x, y)
  }

  /** No block of `s` has more than `k` others of `s` in its anticone. */
  ghost predicate KCluster(d: Dag, s: set<Hash>, k: nat) {
    forall x :: x in s ==> |AnticoneIn(d, x, s)| <= k
  }

  /** The sparse maps give the size of the anticone within the blue set, for every blue block;
      no size exceeds `k`. */
  ghost predicate Exact(d: Dag, g: Colours, data: Data, k: nat)
    requires Chained(d, g) && data.selectedParent in g
  {
    forall x :: x in BlueOf(d, g, data) ==> ExactAt(d, g, data, k, x)
  }

  ghost predicate ExactAt(d: Dag, g: Colours, data: Data, k: nat, x: Hash)
    requires Chained(d, g) && data.selectedParent in g
  {
    Lookup(d, g, data, x) == |AnticoneIn(d, x, BlueOf(d, g, data))| <= k
  }

  /** Adding `c` to a cluster: only the anticone of `c`, and the blocks in it, can be too large. */
  lemma ClusterGrows(d: Dag, s: set<Hash>, k: nat, c: Hash)
    requires KCluster(d, s, k) && c !in s
    ensures KCluster(d, s + {c}, k) <==>
              |AnticoneIn(d, c, s)| <= k && forall x :: x in AnticoneIn(d, c, s) ==> |AnticoneIn(d, x, s)| < k
  {
    assert AnticoneIn(d, c, s + {c}) == AnticoneIn(d, c, s);
    forall x | x in s
      ensures |AnticoneIn(d, x, s + {c})| == |AnticoneIn(d, x, s)| + if Anticone(d, c, x) then 1 else 0 {
      AnticoneGrows(d, s, c, x);
    }
    if |AnticoneIn(d, c, s)| <= k && forall x :: x in AnticoneIn(d, c, s) ==> |AnticoneIn(d, x, s)| < k {
      forall x | x in s + {c} ensures |AnticoneIn(d, x, s + {c})| <= k {
        if x in s && Anticone(d, c, x) { assert x in AnticoneIn(d, c, s); }
      }
    }
    if KCluster(d, s + {c}, k) {
      forall x | x in AnticoneIn(d, c, s) ensures |AnticoneIn(d, x, s)| < k {}
    }
  }

  lemma AnticoneGrows(d: Dag, s: set<Hash>, c: Hash, x: Hash)
    requires c !in s
    ensures AnticoneIn(d, x, s + {c}) == AnticoneIn(d, x, s) + (if Anticone(d, c, x) then {c} else {})
    ensures |AnticoneIn(d, x, s + {c})| == |AnticoneIn(d, x, s)| + if Anticone(d, c, x) then 1 else 0
  {
  }

  // ----- sums of work -----

  function SumWork(works: map<Hash, nat>, s: seq<Hash>): nat
    requires forall i :: 0 <= i < |s| ==> s[i] in works
  {
    if s == [] then 0 else SumWork(works, s[..|s| - 1]) + works[s[|s| - 1]]
  }

  lemma {:induction false} SumWorkPositive(works: map<Hash, nat>, s: seq<Hash>)
    requires forall i :: 0 <= i < |s| ==> s[i] in works && works[s[i]] >= 1
    ensures SumWork(works, s) >= |s|
  {
    if s != [] { SumWorkPositive(works, s[..|s| - 1]); }
  }

  // ----- order by blue work -----

  /** The order by blue work, ties broken by hash. */
  predicate Less(g: Colours, a: Hash, b: Hash)
    requires a in g && b in g
  {
    g[a].blueWork < g[b].blueWork || (g[a].blueWork == g[b].blueWork && a < b)
  }

  ghost predicate Ascending(g: Colours, s: seq<Hash>) {
    && (forall i :: 0 <= i < |s| ==> s[i] in g)
    && (forall i, j :: 0 <= i < j < |s| ==> Less(g, s[i], s[j]))
  }

  lemma AscendingDistinct(g: Colours, s: seq<Hash>)
    requires Ascending(g, s)
    ensures NoDup(s)
  {
    forall i, j | 0 <= i < j < |s| ensures s[i] != s[j] { assert Less(g, s[i], s[j]); }
  }

  lemma AscendingInsert(g: Colours, s: seq<Hash>, i: nat, x: Hash)
    requires Ascending(g, s) && i <= |s| && x in g
    requires forall j :: 0 <= j < i ==> Less(g, s[j], x)
    requires forall j :: i <= j < |s| ==> Less(g, x, s[j])
    ensures Ascending(g, s[..i] + [x] + s[i..]) && Elems(s[..i] + [x] + s[i..]) == Elems(s) + {x}
  {
    var r := s[..i] + [x] + s[i..];
    forall j | 0 <= j < |r| ensures r[j] == if j < i then s[j] else if j == i then x else s[j - 1] {}
    hide Less;
    forall y ensures y in Elems(r) <==> y in Elems(s) + {x} {
      if y in s {
        var j :| 0 <= j < |s| && s[j] == y;
        assert r[if j < i then j else j + 1] == y;
      }
      if y == x { assert r[i] == x; }
    }
  }

  /** Blue work grows along every edge of the DAG. */
  ghost predicate WorkGrows(d: Dag, g: Colours) {
    d.Valid() && g.Keys == d.Blocks()
      && forall b, p {:trigger p in d.Parents(b)} :: b in g && p in d.Parents(b) ==>
                                                       p in g && g[p].blueWork < g[b].blueWork
  }

  lemma {:induction false} WorkGrowsPast(d: Dag, g: Colours, a: Hash, b: Hash)
    requires WorkGrows(d, g) && b in g && a in d.Past(b)
    ensures a in g && g[a].blueWork < g[b].blueWork
    decreases d.Rank(b)
  {
    PastUnfold(d, b);
    if a !in d.Parents(b) {
      var p :| p in d.Parents(b) && a in d.Past(p);
      RankPast(d, p, b);
      WorkGrowsPast(d, g, a, p);
    }
  }

  /** A sorted list is topological: no block reaches an earlier one. */
  lemma AscendingTopological(d: Dag, g: Colours, s: seq<Hash>, i: nat, j: nat)
    requires WorkGrows(d, g) && Ascending(g, s) && i < j < |s|
    ensures !Reaches(d, s[j], s[i])
  {
    if s[j] in d.Past(s[i]) { WorkGrowsPast(d, g, s[j], s[i]); }
  }

  // ----- the invariant over all blocks -----

  ghost predicate ColouredAt(d: Dag, g: Colours, k: nat, b: Hash)
    requires Chained(d, g) && b in g && b != d.Root()
  {
    && Linked(d, g, b)
    && g[b].selectedParent in d.Parents(b)
    && BlueSet(d, g, b) <= d.Past(b)
    && g[b].blueScore == |BlueSet(d, g, b)|
    && Exact(d, g, g[b], k)
    && Merges(d, g, d.Parents(b), g[b])
  }

  /** The selected parent is the greatest parent by blue work. */
  ghost predicate Heaviest(g: Colours, parents: set<Hash>, selectedParent: Hash) {
    selectedParent in parents && parents <= g.Keys
      && forall p :: p in parents ==> p == selectedParent || Less(g, p, selectedParent)
  }

  /** Blues and reds together are the mergeset; the selected parent is the first blue; the
      others are sorted. */
  ghost predicate Merges(d: Dag, g: Colours, parents: set<Hash>, data: Data) {
    && Heaviest(g, parents, data.selectedParent)
    && data.blues != [] && data.blues[0] == data.selectedParent && |data.blues| <= 256
    && Elems(data.blues[1..]) + Elems(data.reds) == MergeSet(d, parents, data.selectedParent)
    && Elems(data.blues[1..]) !! Elems(data.reds)
    && Ascending(g, data.blues[1..]) && Ascending(g, data.reds)
  }

  ghost predicate Coloured(d: Dag, g: Colours, k: nat) {
    && Chained(d, g) && WorkGrows(d, g) && g[d.Root()].blueScore == 0
    && forall b :: b in g && b != d.Root() ==> ColouredAt(d, g, k, b)
  }
}
