/** Block hashes, and lists of them without repetition. */
module Hashes {

  type Hash = nat

  /** The zero hash, which no block has. */
  const NONE: Hash := 0

  ghost predicate NoDup(s: seq<Hash>) {
    forall i, j :: 0 <= i < j < |s| ==> s[i] != s[j]
  }

  function Elems(s: seq<Hash>): set<Hash> {
    set q | q in s
  }

  lemma PopFront(queue: seq<Hash>)
    requires NoDup(queue) && queue != []
    ensures queue[0] in Elems(queue) && NoDup(queue[1..]) && Elems(queue[1..]) == Elems(queue) - {queue[0]}
  {
    assert queue == [queue[0]] + queue[1..];
  }

  lemma Extend(queue: seq<Hash>, more: seq<Hash>)
    requires NoDup(queue) && NoDup(more) && Elems(queue) !! Elems(more)
    ensures NoDup(queue + more) && Elems(queue + more) == Elems(queue) + Elems(more)
  {
    forall i, j | 0 <= i < j < |queue + more| ensures (queue + more)[i] != (queue + more)[j] {
      if i < |queue| <= j {
        assert (queue + more)[i] in Elems(queue) && (queue + more)[j] in Elems(more);
      }
    }
    forall x ensures x in queue + more <==> x in queue || x in more {}
  }

  lemma {:induction false} SubsetSize(a: set<Hash>, b: set<Hash>)
    requires a <= b
    ensures |a| <= |b|
    ensures a != b ==> |a| < |b|
  {
    assert b == a + (b - a);
    if a != b { assert b - a != {}; }
  }

  lemma {:induction false} ElemsSize(s: seq<Hash>)
    requires NoDup(s)
    ensures |Elems(s)| == |s|
  {
    if s == [] {
      assert Elems(s) == {};
    } else {
      PopFront(s);
      ElemsSize(s[1..]);
      assert s[0] in Elems(s);
    }
  }

  lemma ElemsAppend(s: seq<Hash>, c: Hash)
    ensures Elems(s + [c]) == Elems(s) + {c}
  {
  }

  lemma ElemsPrefix(s: seq<Hash>, i: nat)
    requires i < |s|
    ensures s[..i + 1] == s[..i] + [s[i]] && Elems(s[..i + 1]) == Elems(s[..i]) + {s[i]} && s[i] in Elems(s)
    ensures NoDup(s) ==> s[i] !in Elems(s[..i])
  {
    assert s[..i + 1] == s[..i] + [s[i]];
    ElemsAppend(s[..i], s[i]);
  }

  lemma ElemsSingle(b: Hash)
    ensures Elems([b]) == {b} && NoDup([b])
  {
  }

  lemma ElemsEmpty()
    ensures Elems([]) == {} && NoDup([])
  {
  }
}
