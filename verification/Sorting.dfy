/** The order by blue work is total, and a set of blocks has one sorted list. */
module Sorting {
  import opened Hashes
  import opened Ghostdag

  lemma LessTrans(g: Colours, a: Hash, b: Hash, c: Hash)
    requires a in g && b in g && c in g && Less(g, a, b) && Less(g, b, c)
    ensures Less(g, a, c)
  {
  }

  lemma LessTotal(g: Colours, a: Hash, b: Hash)
    requires a in g && b in g
    ensures a == b || Less(g, a, b) || Less(g, b, a)
    ensures !(Less(g, a, b) && Less(g, b, a)) && !Less(g, a, a)
  {
  }

  /** The last of a sorted list is its greatest element. */
  lemma LastGreatest(g: Colours, s: seq<Hash>, x: Hash)
    requires Ascending(g, s) && x in Elems(s)
    ensures s != [] && s[|s| - 1] in Elems(s) && (x != s[|s| - 1] ==> Less(g, x, s[|s| - 1]))
  {
    hide Less;
    var j :| 0 <= j < |s| && s[j] == x;
  }

  lemma LastListed(s: seq<Hash>)
    requires s != []
    ensures s[|s| - 1] in Elems(s)
  {
  }

  lemma NothingListed(s: seq<Hash>)
    requires Elems(s) == Elems([])
    ensures s == []
  {
    if s != [] {
      LastListed(s);
    }
  }

  lemma SameLast(g: Colours, s: seq<Hash>, r: seq<Hash>)
    requires Ascending(g, s) && Ascending(g, r) && Elems(s) == Elems(r) && s != []
    ensures r != [] && r[|r| - 1] == s[|s| - 1]
  {
    LastListed(s);
    LastGreatest(g, r, s[|s| - 1]);
    LastGreatest(g, s, r[|r| - 1]);
    hide Elems;
    LessTotal(g, s[|s| - 1], r[|r| - 1]);
  }

  /** Sorted lists of the same blocks are the same list. */
  lemma {:induction false} AscendingUnique(g: Colours, s: seq<Hash>, r: seq<Hash>)
    requires Ascending(g, s) && Ascending(g, r) && Elems(s) == Elems(r)
    ensures s == r
    decreases |s|
  {
    hide Ascending, Elems, Less;
    if s == [] {
      NothingListed(r);
    } else {
      SameLast(g, s, r);
      LastRemoved(g, s);
      LastRemoved(g, r);
      AscendingUnique(g, s[..|s| - 1], r[..|r| - 1]);
      assert s == s[..|s| - 1] + [s[|s| - 1]] && r == r[..|r| - 1] + [r[|r| - 1]];
    }
  }

  lemma LastRemoved(g: Colours, s: seq<Hash>)
    requires Ascending(g, s) && s != []
    ensures Ascending(g, s[..|s| - 1]) && Elems(s[..|s| - 1]) == Elems(s) - {s[|s| - 1]}
  {
    var n := |s| - 1;
    ElemsPrefix(s, n);
    assert s[..n + 1] == s;
    AscendingDistinct(g, s);
  }

  lemma {:induction false} SortedExists(g: Colours, s: set<Hash>)
    requires s <= g.Keys
    ensures exists r :: Ascending(g, r) && Elems(r) == s
    decreases |s|
  {
    hide Less;
    if s == {} {
      ElemsEmpty();
      assert Ascending(g, []) && Elems([]) == s;
    } else {
      var x :| x in s;
      SubsetSize(s - {x}, s);
      SortedExists(g, s - {x});
      var r :| Ascending(g, r) && Elems(r) == s - {x};
      var i := 0;
      while i < |r| && Less(g, r[i], x)
        invariant 0 <= i <= |r| && forall j :: 0 <= j < i ==> Less(g, r[j], x)
      {
        i := i + 1;
      }
      forall j | i <= j < |r| ensures Less(g, x, r[j]) {
        assert r[j] in Elems(r) && r[i] in Elems(r);
        LessTotal(g, r[i], x);
        if i < j { LessTrans(g, x, r[i], r[j]); }
      }
      AscendingInsert(g, r, i, x);
    }
  }

  /** The blocks in ascending order. */
  ghost function Sorted(g: Colours, s: set<Hash>): (r: seq<Hash>)
    requires s <= g.Keys
    ensures Ascending(g, r) && Elems(r) == s
  {
    SortedExists(g, s);
    var r :| Ascending(g, r) && Elems(r) == s;
    r
  }

  /** The order depends on the blue work of the sorted blocks only. */
  lemma SortedSame(g: Colours, g': Colours, s: set<Hash>)
    requires s <= g.Keys && s <= g'.Keys && forall x :: x in s ==> g[x].blueWork == g'[x].blueWork
    ensures Sorted(g, s) == Sorted(g', s)
  {
    var r := Sorted(g, s);
    forall i | 0 <= i < |r| ensures r[i] in s { assert r[i] in Elems(r); }
    AscendingUnique(g', r, Sorted(g', s));
  }
}
