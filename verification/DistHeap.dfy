/** The binary heap of node ids behind the beam search, with the sifting loops of Go's container/heap. */
module DistHeaps {
  import opened VectorSpace

  function Parent(i: nat): (p: nat)
    requires 0 < i
  {
    (i - 1) / 2
  }

  function Swap(s: seq<nat>, i: nat, j: nat): (t: seq<nat>)
    requires i < |s| && j < |s|
  {
    s[i := s[j]][j := s[i]]
  }

  lemma SwapKeepsMultiset(s: seq<nat>, i: nat, j: nat)
    requires i < |s| && j < |s|
    ensures multiset(Swap(s, i, j)) == multiset(s)
  {
  }

  lemma DropLastFromMultiset(s: seq<nat>)
    requires s != []
    ensures multiset(s) == multiset(s[..|s| - 1]) + multiset{s[|s| - 1]}
  {
    assert s == s[..|s| - 1] + [s[|s| - 1]];
  }

  class DistHeap {
    const query: seq<real>
    const space: Space
    const isMaxHeap: bool
    var ids: seq<nat>

    /** The order key: distance for a closest-first heap, its negation for a farthest-first heap. */
    function Key(id: nat): (k: real)
      requires space.Holds(id)
    {
      if isMaxHeap then -space.Distance(query, id) else space.Distance(query, id)
    }

    ghost predicate Stored(s: seq<nat>) {
      forall i | 0 <= i < |s| :: space.Holds(s[i])
    }

    /** No element of `s` comes before its parent; `hole` exempts one position from the test. */
    ghost predicate OrderedExceptAt(s: seq<nat>, hole: int)
      requires Stored(s)
    {
      forall i: nat {:trigger Parent(i)} | 0 < i < |s| && i != hole :: Key(s[Parent(i)]) <= Key(s[i])
    }

    ghost predicate Valid()
      reads this
    {
      Stored(ids) && OrderedExceptAt(ids, -1)
    }

    constructor (query: seq<real>, space: Space, isMaxHeap: bool)
      ensures Valid() && ids == []
      ensures this.query == query && this.space == space && this.isMaxHeap == isMaxHeap
    {
      this.query := query;
      this.space := space;
      this.isMaxHeap := isMaxHeap;
      ids := [];
    }

    /** The first element comes before every other. */
    lemma {:induction false} RootIsExtremal(i: nat)
      requires Valid() && i < |ids|
      ensures Key(ids[0]) <= Key(ids[i])
    {
      if i > 0 {
        RootIsExtremal(Parent(i));
      }
    }

    predicate Less(i: nat, j: nat)
      requires Stored(ids) && i < |ids| && j < |ids|
      reads this
    {
      var di := space.Distance(query, ids[i]);
      var dj := space.Distance(query, ids[j]);
      if isMaxHeap then di > dj else di < dj
    }

    /** Only position `j` may come before its parent, and its children do not come before that parent. */
    ghost predicate SiftedExceptAbove(s: seq<nat>, j: nat)
      requires Stored(s)
    {
      && OrderedExceptAt(s, j)
      && (forall c: nat {:trigger Parent(c)} | 0 < c < |s| && Parent(c) == j && 0 < j < |s| ::
            Key(s[Parent(j)]) <= Key(s[c]))
    }

    lemma SiftUpStep(s: seq<nat>, j: nat)
      requires Stored(s) && 0 < j < |s| && SiftedExceptAbove(s, j)
      requires Key(s[j]) < Key(s[Parent(j)])
      ensures Stored(Swap(s, Parent(j), j)) && SiftedExceptAbove(Swap(s, Parent(j), j), Parent(j))
    {
      var i := Parent(j);
      var t := Swap(s, i, j);
      forall c: nat | 0 < c < |t| && c != i
        ensures Key(t[Parent(c)]) <= Key(t[c])
        ensures Parent(c) == i && i > 0 ==> Key(t[Parent(i)]) <= Key(t[c])
      {
        if i > 0 {
          assert Key(s[Parent(i)]) <= Key(s[i]);
        }
        if c != j {
          assert Parent(c) == i ==> Key(s[i]) <= Key(s[c]);
        }
      }
    }

    method Up(start: nat)
      requires Stored(ids) && start + 1 == |ids| && OrderedExceptAt(ids, start)
      modifies this`ids
      ensures Valid() && multiset(ids) == old(multiset(ids))
    {
      var j: nat := start;
      while j > 0 && Less(j, Parent(j))
        invariant j < |ids| && Stored(ids) && SiftedExceptAbove(ids, j)
        invariant multiset(ids) == old(multiset(ids))
      {
        var i := Parent(j);
        SwapKeepsMultiset(ids, i, j);
        SiftUpStep(ids, j);
        ids := Swap(ids, i, j);
        j := i;
      }
    }

    /** Within the first `n` positions only the children of `i` may come before their parent. */
    ghost predicate SiftedExceptBelow(s: seq<nat>, n: nat, i: nat)
      requires Stored(s) && n <= |s|
    {
      && (forall c: nat {:trigger Parent(c)} | 0 < c < n && Parent(c) != i :: Key(s[Parent(c)]) <= Key(s[c]))
      && (forall c: nat {:trigger Parent(c)} | 0 < c < n && Parent(c) == i && i > 0 ::
            Key(s[Parent(i)]) <= Key(s[c]))
    }

    lemma SiftDownStep(s: seq<nat>, n: nat, i: nat, j: nat)
      requires Stored(s) && n <= |s| && SiftedExceptBelow(s, n, i)
      requires 0 < j < n && Parent(j) == i && Key(s[j]) < Key(s[i])
      requires 2 * i + 1 < n ==> Key(s[j]) <= Key(s[2 * i + 1])
      requires 2 * i + 2 < n ==> Key(s[j]) <= Key(s[2 * i + 2])
      ensures Stored(Swap(s, i, j)) && SiftedExceptBelow(Swap(s, i, j), n, j)
    {
      var t := Swap(s, i, j);
      forall c: nat | 0 < c < n && Parent(c) != j
        ensures Key(t[Parent(c)]) <= Key(t[c])
      {
        if Parent(c) == i {
          assert c == 2 * i + 1 || c == 2 * i + 2;
          assert t[Parent(c)] == s[j];
        } else if c == i {
          assert Key(s[Parent(i)]) <= Key(s[j]);
        }
      }
    }

    lemma SiftedToTheEnd(s: seq<nat>, n: nat, i: nat)
      requires Stored(s) && n <= |s| && SiftedExceptBelow(s, n, i)
      requires 2 * i + 1 < n ==> Key(s[i]) <= Key(s[2 * i + 1])
      requires 2 * i + 2 < n ==> Key(s[i]) <= Key(s[2 * i + 2])
      ensures OrderedExceptAt(s[..n], -1)
    {
      forall c: nat {:trigger Parent(c)} | 0 < c < n
        ensures Key(s[Parent(c)]) <= Key(s[c])
      {
        assert Parent(c) == i ==> c == 2 * i + 1 || c == 2 * i + 2;
      }
    }

    /** The child of `i` that no other child of `i` comes before. */
    method FirstChild(n: nat, i: nat) returns (j: nat)
      requires Stored(ids) && 2 * i + 1 < n <= |ids|
      ensures 0 < j < n && Parent(j) == i
      ensures Key(ids[j]) <= Key(ids[2 * i + 1])
      ensures 2 * i + 2 < n ==> Key(ids[j]) <= Key(ids[2 * i + 2])
    {
      j := 2 * i + 1;
      if j + 1 < n && Less(j + 1, j) {
        j := j + 1;
      }
    }

    method Down(n: nat)
      requires Stored(ids) && n + 1 == |ids| && SiftedExceptBelow(ids, n, 0)
      modifies this`ids
      ensures Stored(ids) && |ids| == n + 1 && ids[n] == old(ids[n])
      ensures multiset(ids) == old(multiset(ids))
      ensures OrderedExceptAt(ids[..n], -1)
    {
      var i: nat := 0;
      while 2 * i + 1 < n
        invariant n == 0 || i < n
        invariant Stored(ids) && |ids| == n + 1 && ids[n] == old(ids[n])
        invariant multiset(ids) == old(multiset(ids))
        invariant SiftedExceptBelow(ids, n, i)
        decreases n - i
      {
        var j := FirstChild(n, i);
        if !Less(j, i) {
          break;
        }
        SwapKeepsMultiset(ids, i, j);
        SiftDownStep(ids, n, i, j);
        ids := Swap(ids, i, j);
        i := j;
      }
      SiftedToTheEnd(ids, n, i);
    }

    method Push(x: nat)
      requires Valid() && space.Holds(x)
      modifies this`ids
      ensures Valid() && multiset(ids) == old(multiset(ids)) + multiset{x} && |ids| == old(|ids|) + 1
    {
      ids := ids + [x];
      Up(|ids| - 1);
      assert |multiset(ids)| == |ids|;
    }

    lemma RootPrecedesAll()
      requires Valid() && ids != []
      ensures forall y | y in multiset(ids) :: space.Holds(y) && Key(ids[0]) <= Key(y)
    {
      forall y | y in multiset(ids)
        ensures space.Holds(y) && Key(ids[0]) <= Key(y)
      {
        var i :| 0 <= i < |ids| && ids[i] == y;
        RootIsExtremal(i);
      }
    }

    lemma RootSwappedOut(s: seq<nat>)
      requires Stored(s) && s != [] && OrderedExceptAt(s, -1)
      ensures Stored(Swap(s, 0, |s| - 1)) && SiftedExceptBelow(Swap(s, 0, |s| - 1), |s| - 1, 0)
    {
      forall c: nat | 0 < c < |s| - 1 && Parent(c) != 0
        ensures Key(s[Parent(c)]) <= Key(s[c])
      {
      }
    }

    /** Removes an element no other element comes before. */
    method Pop() returns (x: nat)
      requires Valid() && ids != []
      modifies this`ids
      ensures Valid() && old(multiset(ids)) == multiset(ids) + multiset{x} && |ids| == old(|ids|) - 1
      ensures space.Holds(x)
      ensures forall y | y in old(multiset(ids)) :: space.Holds(y) && Key(x) <= Key(y)
    {
      RootPrecedesAll();
      var n := |ids| - 1;
      x := ids[0];
      SwapKeepsMultiset(ids, 0, n);
      RootSwappedOut(ids);
      ids := Swap(ids, 0, n);
      Down(n);
      DropLastFromMultiset(ids);
      ids := ids[..n];
    }

    /** The element `Pop` would remove, or -1 when there is none. */
    method Peek() returns (x: int)
      requires Valid()
      ensures ids == [] ==> x == -1
      ensures ids != [] ==> x >= 0 && x in multiset(ids) && space.Holds(x)
      ensures ids != [] ==> forall y | y in multiset(ids) :: space.Holds(y) && Key(x) <= Key(y)
    {
      if |ids| == 0 {
        return -1;
      }
      RootPrecedesAll();
      x := ids[0];
    }
  }
}
