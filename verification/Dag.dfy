/** A block DAG as the history of its construction: every block is added after its parents. */
module BlockDag {
  import opened Hashes

  datatype Dag = Origin(hash: Hash) | Block(prior: Dag, hash: Hash, parents: set<Hash>) {

    ghost function Blocks(): set<Hash> {
      match this
      case Origin(h) => {h}
      case Block(d, h, _) => d.Blocks() + {h}
    }

    ghost predicate Valid() {
      Block? ==> prior.Valid() && hash !in prior.Blocks() && parents != {} && parents <= prior.Blocks()
    }

    function Root(): Hash {
      match this
      case Origin(h) => h
      case Block(d, _, _) => d.Root()
    }

    ghost function Parents(b: Hash): set<Hash> {
      match this
      case Origin(_) => {}
      case Block(d, h, ps) => if b == h then ps else d.Parents(b)
    }

    ghost function Size(): nat {
      match this
      case Origin(_) => 0
      case Block(d, _, _) => d.Size() + 1
    }

    /** The position of `b` in the history. */
    ghost function Rank(b: Hash): nat {
      match this
      case Origin(_) => 0
      case Block(d, h, _) => if b == h then Size() else d.Rank(b)
    }

    /** All blocks from which `b` can be reached, `b` itself excluded. */
    ghost function Past(b: Hash): set<Hash>
      decreases this, 0
    {
      match this
      case Origin(_) => {}
      case Block(d, h, ps) => if b == h then ps + d.PastOf(ps) else d.Past(b)
    }

    /** The union of the pasts of `bs`. */
    ghost function PastOf(bs: set<Hash>): set<Hash>
      decreases this, 1
    {
      set p, x | p in bs && x in Past(p) :: x
    }
  }

  lemma {:induction false} PastIn(d: Dag, b: Hash)
    requires d.Valid()
    ensures d.Past(b) <= d.Blocks() && b !in d.Past(b)
    ensures b !in d.Blocks() ==> d.Past(b) == {}
    decreases d
  {
    if d.Block? {
      if b == d.hash {
        forall x | x in d.Past(b) ensures x in d.prior.Blocks() {
          if x !in d.parents {
            assert x in d.prior.PastOf(d.parents);
            var p :| p in d.parents && x in d.prior.Past(p);
            PastIn(d.prior, p);
          }
        }
      } else {
        PastIn(d.prior, b);
      }
    }
  }

  lemma {:induction false} RankBound(d: Dag, b: Hash)
    ensures d.Rank(b) <= d.Size()
    decreases d
  {
    if d.Block? && b != d.hash { RankBound(d.prior, b); }
  }

  /** Blocks are added after their past. */
  lemma {:induction false} RankPast(d: Dag, a: Hash, b: Hash)
    requires d.Valid() && a in d.Past(b)
    ensures d.Rank(a) < d.Rank(b)
    decreases d
  {
    PastIn(d, b);
    if b == d.hash {
      RankBound(d.prior, a);
    } else {
      if a == d.hash { PastIn(d.prior, b); }
      RankPast(d.prior, a, b);
    }
  }

  /** The past of a block: its parents and their pasts. */
  lemma {:induction false} PastUnfold(d: Dag, b: Hash)
    requires d.Valid()
    ensures d.Past(b) == d.Parents(b) + d.PastOf(d.Parents(b))
    ensures d.Parents(b) <= d.Blocks()
    ensures b in d.Blocks() && b != d.Root() ==> d.Parents(b) != {}
    decreases d
  {
    if d.Block? {
      PastUnfold(d.prior, b);
      var ps := d.Parents(b);
      forall p | p in ps ensures d.Past(p) == d.prior.Past(p) {
        assert p in d.prior.Blocks();
      }
      assert d.PastOf(ps) == d.prior.PastOf(ps);
    }
  }

  lemma {:induction false} PastTrans(d: Dag, a: Hash, b: Hash, c: Hash)
    requires d.Valid() && a in d.Past(b) && b in d.Past(c)
    ensures a in d.Past(c)
    decreases d
  {
    PastIn(d, b);
    PastIn(d, c);
    if c != d.hash {
      if b == d.hash { PastIn(d.prior, c); }
      PastTrans(d.prior, a, b, c);
    } else {
      if b == d.hash { assert false; }
      if b !in d.parents {
        var p :| p in d.parents && b in d.prior.Past(p);
        PastTrans(d.prior, a, b, p);
      }
    }
  }

  /** `a` is in the past of `b`, or is `b`. */
  ghost predicate Reaches(d: Dag, a: Hash, b: Hash) {
    a == b || a in d.Past(b)
  }

  lemma ReachesTrans(d: Dag, a: Hash, b: Hash, c: Hash)
    requires d.Valid() && Reaches(d, a, b) && Reaches(d, b, c)
    ensures Reaches(d, a, c)
  {
    if a != b && b != c { PastTrans(d, a, b, c); }
  }

  /** Every block is in the future of the root. */
  lemma {:induction false} RootReaches(d: Dag, b: Hash)
    requires d.Valid() && b in d.Blocks()
    ensures d.Root() in d.Blocks() && Reaches(d, d.Root(), b) && d.Past(d.Root()) == {}
    decreases d
  {
    if d.Block? {
      if b != d.hash {
        RootReaches(d.prior, b);
      } else {
        var p :| p in d.parents;
        RootReaches(d.prior, p);
      }
    }
  }

  /** The past of a block with the given parents, without that of its selected parent. */
  ghost function MergeSet(d: Dag, parents: set<Hash>, selectedParent: Hash): set<Hash> {
    parents + d.PastOf(parents) - d.Past(selectedParent) - {selectedParent}
  }

  lemma MergeSetMember(d: Dag, parents: set<Hash>, p: Hash, a: Hash)
    ensures a in MergeSet(d, parents, p) <==> a in parents + d.PastOf(parents) && !Reaches(d, a, p)
  {
  }

  /** The given blocks and their past. */
  ghost function PastBelow(d: Dag, bs: set<Hash>): set<Hash> {
    bs + d.PastOf(bs)
  }

  lemma BelowMember(d: Dag, bs: set<Hash>, x: Hash)
    ensures x in PastBelow(d, bs) <==> exists p :: p in bs && Reaches(d, x, p)
  {
  }

  ghost predicate Antichain(d: Dag, s: set<Hash>) {
    forall x, y :: x in s && y in s ==> x !in d.Past(y)
  }
}
