/** The mutable reachability store: the tree, its interval labels, the future covering sets
    and the reindex root. */
module ReachabilityStore {
  import opened Hashes
  import opened Intervals
  import opened ReachabilityTree

  datatype Error = KeyNotFound | KeyAlreadyExists | DataOverflow | DataInconsistency | BadQuery

  datatype Result<T> = Ok(value: T) | Err(error: Error)

  class Store {
    var tree: Tree
    var interval: Labels
    var futureCovering: map<Hash, seq<Hash>>
    var reindexRoot: Hash

    constructor Init(origin: Hash, capacity: Interval)
      requires origin != NONE
      ensures tree == Tree(origin, map[origin := Node(NONE, [], 0)])
      ensures interval == map[origin := capacity]
      ensures futureCovering == map[origin := []]
      ensures reindexRoot == origin
    {
      tree := Tree(origin, map[origin := Node(NONE, [], 0)]);
      interval := map[origin := capacity];
      futureCovering := map[origin := []];
      reindexRoot := origin;
    }
  }

  /** The part of a block's interval that its children may use: all but the last label. */
  function ChildrenCapacity(iv: Labels, b: Hash): Interval
    requires b in iv && !IsEmpty(iv[b])
  {
    DecreaseEnd(iv[b], 1)
  }

  /** Free labels in front of the first child. */
  function RemainingBefore(t: Tree, iv: Labels, b: Hash): Interval
    requires t.WF() && iv.Keys == t.nodes.Keys && b in t.nodes && !IsEmpty(iv[b])
    requires t.Children(b) != [] ==> StrictlyContains(iv[b], iv[t.Children(b)[0]])
  {
    var capacity := ChildrenCapacity(iv, b);
    if t.Children(b) == [] then capacity
    else Interval(capacity.start, iv[t.Children(b)[0]].start - 1)
  }

  /** Free labels behind the last child. */
  function RemainingAfter(t: Tree, iv: Labels, b: Hash): Interval
    requires t.WF() && iv.Keys == t.nodes.Keys && b in t.nodes && !IsEmpty(iv[b])
    requires t.Children(b) != [] ==> StrictlyContains(iv[b], iv[t.Children(b)[|t.Children(b)| - 1]])
  {
    var capacity := ChildrenCapacity(iv, b);
    var cs := t.Children(b);
    if cs == [] then capacity
    else Interval(iv[cs[|cs| - 1]].end + 1, capacity.end)
  }
}
