/**
 Without ties the index is a function of its inputs: there is one descent, one best-first search, one answer to a query
 and one graph an insertion can lead to.
 */
module HnswUniqueness {
  import opened HnswGraph
  import opened HnswIndex
  import opened HnswInsertion
  import opened Numbers
  import opened VectorSpace

  // ------------------------------------------------------ one greedy descent

  lemma HopIsUnique(g: Graph, s: Space, query: seq<real>, lc: nat, u: nat, v: nat, w: nat)
    requires Hop(g, s, query, lc, u, v) && Hop(g, s, query, lc, u, w)
    ensures v == w
  {
    var es := Neighbors(g, u, lc);
    var i: nat :| FirstNearest(s, query, es, i) && es[i] == v;
    var j: nat :| FirstNearest(s, query, es, j) && es[j] == w;
    assert i == j;
  }

  lemma StuckDoesNotHop(g: Graph, s: Space, query: seq<real>, lc: nat, u: nat, v: nat)
    requires Hop(g, s, query, lc, u, v)
    ensures !Stuck(g, s, query, lc, u)
  {
    assert v in Neighbors(g, u, lc);
  }

  lemma {:induction false} WalksEndAlike(g: Graph, s: Space, query: seq<real>, lc: nat, p: seq<nat>, q: seq<nat>)
    requires p != [] && q != [] && p[0] == q[0] && IsWalk(g, s, query, lc, p) && IsWalk(g, s, query, lc, q)
    requires Stuck(g, s, query, lc, p[|p| - 1]) && Stuck(g, s, query, lc, q[|q| - 1])
    ensures p[|p| - 1] == q[|q| - 1]
  {
    if |p| > 1 {
      StuckDoesNotHop(g, s, query, lc, p[0], p[1]);
    }
    if |q| > 1 {
      StuckDoesNotHop(g, s, query, lc, q[0], q[1]);
    }
    if |p| > 1 && |q| > 1 {
      HopIsUnique(g, s, query, lc, p[0], p[1], q[1]);
      WalkPart(g, s, query, lc, p, 1, |p|);
      WalkPart(g, s, query, lc, q, 1, |q|);
      WalksEndAlike(g, s, query, lc, p[1..], q[1..]);
    }
  }

  /** The greedy descent of a layer ends at one node, ties or no ties. */
  lemma LeadsToOne(g: Graph, s: Space, query: seq<real>, lc: nat, from: nat, v: nat, w: nat)
    requires LeadsTo(g, s, query, lc, from, v) && LeadsTo(g, s, query, lc, from, w)
    ensures v == w
  {
    var p :| IsWalk(g, s, query, lc, p) && p != [] && p[0] == from && p[|p| - 1] == v;
    var q :| IsWalk(g, s, query, lc, q) && q != [] && q[0] == from && q[|q| - 1] == w;
    WalksEndAlike(g, s, query, lc, p, q);
  }

  lemma {:induction false} DescentIsUnique(g: Graph, s: Space, query: seq<real>, top: nat, a: seq<nat>, b: seq<nat>)
    requires IsDescent(g, s, query, top, a) && IsDescent(g, s, query, top, b) && |a| == |b| && a[0] == b[0]
    ensures a == b
  {
    var n := |a| - 1;
    if n > 0 {
      DescentFront(g, s, query, top, a, n);
      DescentFront(g, s, query, top, b, n);
      DescentIsUnique(g, s, query, top, a[..n], b[..n]);
      assert a[n - 1] == a[..n][n - 1] == b[n - 1];
      assert LeadsTo(g, s, query, top - (n - 1), a[n - 1], a[n]);
      assert LeadsTo(g, s, query, top - (n - 1), b[n - 1], b[n]);
      LeadsToOne(g, s, query, top - (n - 1), a[n - 1], a[n], b[n]);
      assert a == a[..n] + [a[n]] && b == b[..n] + [b[n]];
    }
  }

  // -------------------------------------------------- one best-first search

  /** No two of the first `n` nodes are equally far from `query`. */
  ghost predicate NoTies(s: Space, query: seq<real>, n: nat)
    requires s.HoldsBelow(n)
  {
    forall u: nat, v: nat | u < n && v < n && u != v :: s.Distance(query, u) != s.Distance(query, v)
  }

  lemma NextIsUnique(s: Space, query: seq<real>, ef: int, n: nat, seen: set<nat>, order: seq<nat>, u: nat, v: nat)
    requires s.HoldsBelow(n) && NoTies(s, query, n) && seen <= Ids(n)
    requires ComesNext(s, query, ef, seen, order, u) && ComesNext(s, query, ef, seen, order, v)
    ensures u == v
  {
  }

  lemma {:induction false} SeenIsMonotone(g: Graph, lc: nat, entry: nat, order: seq<nat>, front: seq<nat>)
    requires front <= order
    ensures Seen(g, lc, entry, front) <= Seen(g, lc, entry, order)
  {
    if front == order {
    } else {
      SeenIsMonotone(g, lc, entry, order[..|order| - 1], front);
    }
  }

  lemma {:induction false} BestFirstAt(g: Graph, s: Space, query: seq<real>, entry: nat, ef: int, lc: nat,
                                       order: seq<nat>, front: seq<nat>)
    requires BestFirst(g, s, query, entry, ef, lc, order) && front < order
    ensures ComesNext(s, query, ef, Seen(g, lc, entry, front), front, order[|front|])
  {
    var n := |order| - 1;
    if |front| == n {
      assert front == order[..n];
    } else {
      BestFirstAt(g, s, query, entry, ef, lc, order[..n], front);
    }
  }

  /** Two best-first orders agree as far as both go. */
  lemma {:induction false} OrdersAgree(g: Graph, s: Space, query: seq<real>, entry: nat, ef: int, lc: nat, n: nat,
                                       a: seq<nat>, b: seq<nat>, front: seq<nat>)
    requires s.HoldsBelow(n) && NoTies(s, query, n) && front <= a && |front| <= |b|
    requires BestFirst(g, s, query, entry, ef, lc, a) && BestFirst(g, s, query, entry, ef, lc, b)
    requires Seen(g, lc, entry, a) <= Ids(n)
    ensures front <= b
  {
    if front != [] {
      var k := |front| - 1;
      OrdersAgree(g, s, query, entry, ef, lc, n, a, b, front[..k]);
      StepsAgree(g, s, query, entry, ef, lc, n, a, b, front[..k]);
      ExtendPrefix(front, b);
    }
  }

  lemma ExtendPrefix(front: seq<nat>, b: seq<nat>)
    requires front != [] && |front| <= |b| && front[..|front| - 1] <= b && front[|front| - 1] == b[|front| - 1]
    ensures front <= b
  {
    assert front == front[..|front| - 1] + [front[|front| - 1]];
  }

  lemma StepsAgree(g: Graph, s: Space, query: seq<real>, entry: nat, ef: int, lc: nat, n: nat,
                   a: seq<nat>, b: seq<nat>, front: seq<nat>)
    requires s.HoldsBelow(n) && NoTies(s, query, n) && front < a && front < b
    requires BestFirst(g, s, query, entry, ef, lc, a) && BestFirst(g, s, query, entry, ef, lc, b)
    requires Seen(g, lc, entry, a) <= Ids(n)
    ensures a[|front|] == b[|front|]
  {
    SeenIsMonotone(g, lc, entry, a, front);
    BestFirstAt(g, s, query, entry, ef, lc, a, front);
    BestFirstAt(g, s, query, entry, ef, lc, b, front);
    NextIsUnique(s, query, ef, n, Seen(g, lc, entry, front), front, a[|front|], b[|front|]);
  }

  /** When its beam has been expanded a search has no node left that would come next. */
  lemma NothingComesNext(g: Graph, s: Space, query: seq<real>, entry: nat, ef: int, lc: nat, n: nat, order: seq<nat>,
                         out: seq<nat>, u: nat)
    requires s.HoldsBelow(n) && NoTies(s, query, n) && Seen(g, lc, entry, order) <= Ids(n)
    requires IsSearch(g, s, query, entry, ef, lc, order, out)
    ensures !ComesNext(s, query, ef, Seen(g, lc, entry, order), order, u)
  {
    var seen := Seen(g, lc, entry, order);
    if ComesNext(s, query, ef, seen, order, u) {
      BeamIsFull(g, s, query, entry, ef, lc, seen, out, u);
      forall r | r in Elements(out)
        ensures r in Nearer(s, query, seen, u)
      {
        assert u in seen - Elements(out);
        assert s.Distance(query, r) <= s.Distance(query, u);
        assert r in seen && r != u;
      }
      SubsetCardinality(Elements(out), Nearer(s, query, seen, u));
      NoDupCardinality(out);
    }
  }

  lemma BeamIsFull(g: Graph, s: Space, query: seq<real>, entry: nat, ef: int, lc: nat, visited: set<nat>,
                   out: seq<nat>, u: nat)
    requires IsBeam(g, s, query, entry, ef, lc, visited, out) && u in visited && u !in out
    ensures |out| == BeamWidth(ef)
  {
    NoDupCardinality(out);
    SubsetCardinality(Elements(out), visited);
    assert u !in Elements(out);
  }

  /** A node of one choice of the nearest and a node of another: one is in both choices, or they are equally far. */
  lemma NearestRivals(s: Space, query: seq<real>, all: set<nat>, a: set<nat>, b: set<nat>, r: nat, w: nat)
    requires NearestOf(s, query, a, all) && NearestOf(s, query, b, all) && r in a && w in b
    ensures s.Holds(r) && s.Holds(w)
    ensures r in b || w in a || s.Distance(query, r) == s.Distance(query, w)
  {
    if r !in b && w !in a {
      assert r in all - b && w in all - a;
    }
  }

  lemma SameNearest(s: Space, query: seq<real>, n: nat, all: set<nat>, a: set<nat>, b: set<nat>)
    requires s.HoldsBelow(n) && NoTies(s, query, n) && all <= Ids(n) && |a| == |b|
    requires NearestOf(s, query, a, all) && NearestOf(s, query, b, all)
    ensures a == b
  {
    if a <= b {
      SubsetCardinality(a, b);
    } else if b <= a {
      SubsetCardinality(b, a);
    } else {
      var r :| r in a && r !in b;
      var w :| w in b && w !in a;
      NearestRivals(s, query, all, a, b, r, w);
    }
  }

  lemma SameLast(s: Space, query: seq<real>, n: nat, a: seq<nat>, b: seq<nat>)
    requires s.HoldsBelow(n) && NoTies(s, query, n) && Elements(a) == Elements(b) <= Ids(n) && |a| == |b| && a != []
    requires SortedByDistance(s, query, a) && SortedByDistance(s, query, b)
    ensures a[|a| - 1] == b[|b| - 1]
  {
    var k := |a| - 1;
    assert a[k] in Elements(b) && b[k] in Elements(a);
    var i :| 0 <= i <= k && b[i] == a[k];
    var j :| 0 <= j <= k && a[j] == b[k];
    assert s.Distance(query, a[k]) <= s.Distance(query, b[k]) <= s.Distance(query, a[k]);
  }

  lemma SortedFront(s: Space, query: seq<real>, a: seq<nat>)
    requires a != [] && NoDup(a) && SortedByDistance(s, query, a)
    ensures NoDup(a[..|a| - 1]) && SortedByDistance(s, query, a[..|a| - 1])
    ensures Elements(a[..|a| - 1]) == Elements(a) - {a[|a| - 1]} && a == a[..|a| - 1] + [a[|a| - 1]]
  {
    DropLastElement(a);
  }

  lemma {:induction false} SameSorted(s: Space, query: seq<real>, n: nat, a: seq<nat>, b: seq<nat>)
    requires s.HoldsBelow(n) && NoTies(s, query, n) && Elements(a) == Elements(b) <= Ids(n) && |a| == |b|
    requires NoDup(a) && NoDup(b) && SortedByDistance(s, query, a) && SortedByDistance(s, query, b)
    ensures a == b
  {
    if a != [] {
      SameLast(s, query, n, a, b);
      SortedFront(s, query, a);
      SortedFront(s, query, b);
      SameSorted(s, query, n, a[..|a| - 1], b[..|b| - 1]);
    }
  }

  lemma DropLastElement(a: seq<nat>)
    requires NoDup(a) && a != []
    ensures Elements(a[..|a| - 1]) == Elements(a) - {a[|a| - 1]}
  {
    var k := |a| - 1;
    forall x | x in a && x != a[k]
      ensures x in a[..k]
    {
      var i :| 0 <= i < |a| && a[i] == x;
      assert a[..k][i] == x;
    }
  }

  /** All best-first searches from one entry expand the same nodes in the same order and find the same beam. */
  lemma SearchIsUnique(g: Graph, s: Space, query: seq<real>, entry: nat, ef: int, lc: nat, n: nat,
                       order: seq<nat>, out: seq<nat>, order': seq<nat>, out': seq<nat>)
    requires s.HoldsBelow(n) && NoTies(s, query, n)
    requires IsSearch(g, s, query, entry, ef, lc, order, out) && Seen(g, lc, entry, order) <= Ids(n)
    requires IsSearch(g, s, query, entry, ef, lc, order', out') && Seen(g, lc, entry, order') <= Ids(n)
    ensures order == order' && out == out'
  {
    SameOrder(g, s, query, entry, ef, lc, n, order, out, order', out');
    SameBeam(g, s, query, entry, ef, lc, n, Seen(g, lc, entry, order), out, out');
  }

  lemma SameOrder(g: Graph, s: Space, query: seq<real>, entry: nat, ef: int, lc: nat, n: nat,
                  order: seq<nat>, out: seq<nat>, order': seq<nat>, out': seq<nat>)
    requires s.HoldsBelow(n) && NoTies(s, query, n)
    requires IsSearch(g, s, query, entry, ef, lc, order, out) && Seen(g, lc, entry, order) <= Ids(n)
    requires IsSearch(g, s, query, entry, ef, lc, order', out') && Seen(g, lc, entry, order') <= Ids(n)
    ensures order == order'
  {
    if |order| <= |order'| {
      OrdersAgree(g, s, query, entry, ef, lc, n, order, order', order);
      NoLongerOrder(g, s, query, entry, ef, lc, n, order, out, order');
    } else {
      OrdersAgree(g, s, query, entry, ef, lc, n, order', order, order');
      NoLongerOrder(g, s, query, entry, ef, lc, n, order', out', order);
    }
  }

  lemma NoLongerOrder(g: Graph, s: Space, query: seq<real>, entry: nat, ef: int, lc: nat, n: nat,
                      order: seq<nat>, out: seq<nat>, longer: seq<nat>)
    requires s.HoldsBelow(n) && NoTies(s, query, n) && order <= longer
    requires IsSearch(g, s, query, entry, ef, lc, order, out) && Seen(g, lc, entry, order) <= Ids(n)
    requires BestFirst(g, s, query, entry, ef, lc, longer)
    ensures order == longer
  {
    if order < longer {
      BestFirstAt(g, s, query, entry, ef, lc, longer, order);
      NothingComesNext(g, s, query, entry, ef, lc, n, order, out, longer[|order|]);
    }
  }

  lemma SameBeam(g: Graph, s: Space, query: seq<real>, entry: nat, ef: int, lc: nat, n: nat, visited: set<nat>,
                 out: seq<nat>, out': seq<nat>)
    requires s.HoldsBelow(n) && NoTies(s, query, n) && visited <= Ids(n)
    requires IsBeam(g, s, query, entry, ef, lc, visited, out) && IsBeam(g, s, query, entry, ef, lc, visited, out')
    ensures out == out'
  {
    NoDupCardinality(out);
    NoDupCardinality(out');
    SameNearest(s, query, n, visited, Elements(out), Elements(out'));
    SameSorted(s, query, n, out, out');
  }

  /** Every query has one answer: no two stored vectors being equally far from it, all answers to it are the same. */
  lemma AnswerIsUnique(g: Graph, s: Space, query: seq<real>, entryPoint: nat, maxLevel: nat, k: nat,
                       chain: seq<nat>, order: seq<nat>, beam: seq<nat>, hits: seq<SearchHit>,
                       chain': seq<nat>, order': seq<nat>, beam': seq<nat>, hits': seq<SearchHit>)
    requires s.HoldsBelow(|g|) && NoTies(s, query, |g|)
    requires IsAnswer(g, s, query, entryPoint, maxLevel, k, chain, order, beam, hits)
    requires IsAnswer(g, s, query, entryPoint, maxLevel, k, chain', order', beam', hits')
    ensures hits == hits'
  {
    DescentIsUnique(g, s, query, maxLevel, chain, chain');
    SearchIsUnique(g, s, query, chain[maxLevel], Max(50, k), 0, |g|, order, beam, order', beam');
  }

  // ------------------------------------------------- one graph an insertion

  /** No two of the first `n` nodes are equally far from any of them. */
  ghost predicate NoTiesAmong(s: Space, n: nat)
    requires s.HoldsBelow(n)
  {
    forall u: nat | u < n :: s.Holds(u) && NoTies(s, s.Vector(u), n)
  }

  lemma SelectionIsUnique(s: Space, query: seq<real>, n: nat, candidates: seq<nat>, k: nat, a: seq<nat>, b: seq<nat>)
    requires s.HoldsBelow(n) && NoTies(s, query, n) && Elements(candidates) <= Ids(n)
    requires IsSelection(s, query, candidates, k, a) && IsSelection(s, query, candidates, k, b)
    ensures a == b
  {
    if |candidates| > k {
      NoDupCardinality(a);
      NoDupCardinality(b);
      SameNearest(s, query, n, Elements(candidates), Elements(a), Elements(b));
      SameSorted(s, query, n, a, b);
    }
  }

  /** Linking along one beam has one outcome on its layer. */
  lemma LinkingIsUnique(start: Graph, a: Graph, b: Graph, s: Space, m: nat, lc: nat, id: nat, beam: seq<nat>, u: nat)
    requires WellFormed(start, m) && s.HoldsBelow(|start|) && NoTiesAmong(s, |start|)
    requires LinkedAt(start, a, s, m, lc, id, beam) && LinkedAt(start, b, s, m, lc, id, beam) && u < |start|
    ensures Neighbors(a, u, lc) == Neighbors(b, u, lc)
  {
    if u != id && u in FirstOf(beam, MaxConn(m, lc)) {
      var candidates := Neighbors(start, u, lc) + [id];
      assert EdgesOk(start, u, lc, m);
      SelectionIsUnique(s, s.Vector(u), |start|, candidates, MaxConn(m, lc), Neighbors(a, u, lc), Neighbors(b, u, lc));
    }
  }

  /** A layer is linked along one beam. */
  lemma LayerBeamIsUnique(start: Graph, a: Graph, b: Graph, s: Space, m: nat, ef: int, vector: seq<real>, id: nat,
                          lc: nat, entry: nat, beam: seq<nat>, beam': seq<nat>)
    requires |start| == id + 1 && s.HoldsBelow(id) && NoTies(s, vector, id)
    requires InsertedAt(start, a, s, m, ef, vector, id, lc, entry, beam)
    requires InsertedAt(start, b, s, m, ef, vector, id, lc, entry, beam')
    ensures beam == beam'
  {
    var order :| IsSearch(start, s, vector, entry, ef, lc, order, beam) && id !in Seen(start, lc, entry, order);
    var order' :| IsSearch(start, s, vector, entry, ef, lc, order', beam') && id !in Seen(start, lc, entry, order');
    ExploredBelow(start, lc, entry, Seen(start, lc, entry, order), id);
    ExploredBelow(start, lc, entry, Seen(start, lc, entry, order'), id);
    SearchIsUnique(start, s, vector, entry, ef, lc, id, order, beam, order', beam');
  }

  lemma ExploredBelow(g: Graph, lc: nat, entry: nat, visited: set<nat>, id: nat)
    requires Explored(g, lc, entry, visited) && |g| == id + 1 && id !in visited
    ensures visited <= Ids(id)
  {
  }

  lemma BeamAgrees(start: Graph, a: Graph, b: Graph, s: Space, m: nat, ef: int, vector: seq<real>, id: nat, top: nat,
                   first: nat, beams: seq<seq<nat>>, beams': seq<seq<nat>>, i: nat)
    requires |start| == id + 1 && s.HoldsBelow(id) && NoTies(s, vector, id)
    requires |beams| == |beams'| <= top + 1 && i < |beams| && beams[..i] == beams'[..i]
    requires LinkedLayers(start, a, s, m, ef, vector, id, top, first, beams)
    requires LinkedLayers(start, b, s, m, ef, vector, id, top, first, beams')
    ensures beams[i] == beams'[i]
  {
    SameEntry(first, beams, beams', i);
    LayerBeamIsUnique(start, a, b, s, m, ef, vector, id, top - i, EntryOf(first, beams, i), beams[i], beams'[i]);
  }

  lemma {:induction false} BeamsAgree(start: Graph, a: Graph, b: Graph, s: Space, m: nat, ef: int, vector: seq<real>,
                                      id: nat, top: nat, first: nat, beams: seq<seq<nat>>, beams': seq<seq<nat>>,
                                      k: nat)
    requires |start| == id + 1 && s.HoldsBelow(id) && NoTies(s, vector, id)
    requires |beams| == |beams'| <= top + 1 && k <= |beams|
    requires LinkedLayers(start, a, s, m, ef, vector, id, top, first, beams)
    requires LinkedLayers(start, b, s, m, ef, vector, id, top, first, beams')
    ensures beams[..k] == beams'[..k]
  {
    if k > 0 {
      BeamsAgree(start, a, b, s, m, ef, vector, id, top, first, beams, beams', k - 1);
      BeamAgrees(start, a, b, s, m, ef, vector, id, top, first, beams, beams', k - 1);
      OneLonger(beams, beams', k - 1);
    }
  }

  lemma OneLonger(a: seq<seq<nat>>, b: seq<seq<nat>>, i: nat)
    requires i < |a| && i < |b| && a[..i] == b[..i] && a[i] == b[i]
    ensures a[..i + 1] == b[..i + 1]
  {
    assert a[..i + 1] == a[..i] + [a[i]] && b[..i + 1] == b[..i] + [b[i]];
  }

  lemma SameEntry(first: nat, beams: seq<seq<nat>>, beams': seq<seq<nat>>, i: nat)
    requires i <= |beams| && i <= |beams'| && beams[..i] == beams'[..i]
    ensures EntryOf(first, beams, i) == EntryOf(first, beams', i)
  {
    if i > 0 {
      assert beams[..i][i - 1] == beams'[..i][i - 1];
    }
  }

  lemma LayerAt(start: Graph, now: Graph, s: Space, m: nat, ef: int, vector: seq<real>, id: nat,
                top: nat, first: nat, beams: seq<seq<nat>>, i: nat)
    requires |beams| <= top + 1 && i < |beams| && LinkedLayers(start, now, s, m, ef, vector, id, top, first, beams)
    ensures LinkedAt(start, now, s, m, top - i, id, beams[i])
  {
    assert InsertedAt(start, now, s, m, ef, vector, id, top - i, EntryOf(first, beams, i), beams[i]);
  }

  /** Two outcomes of one insertion have the same edges. */
  lemma SameEdges(start: Graph, a: Graph, b: Graph, s: Space, m: nat, ef: int, vector: seq<real>, id: nat, top: nat,
                  first: nat, beams: seq<seq<nat>>, u: nat, lc: nat)
    requires WellFormed(start, m) && s.HoldsBelow(|start|) && NoTiesAmong(s, |start|) && |beams| == top + 1
    requires LayersDone(start, a, s, m, ef, vector, id, top, first, beams)
    requires LayersDone(start, b, s, m, ef, vector, id, top, first, beams) && u < |start|
    ensures |a| == |b| == |start| && Neighbors(a, u, lc) == Neighbors(b, u, lc)
  {
    if lc <= top {
      LayerAt(start, a, s, m, ef, vector, id, top, first, beams, top - lc);
      LayerAt(start, b, s, m, ef, vector, id, top, first, beams, top - lc);
      LinkingIsUnique(start, a, b, s, m, lc, id, beams[top - lc], u);
    } else {
      assert SameLayer(start, a, lc) && SameLayer(start, b, lc);
    }
  }

  lemma SameEdgesSameNode(a: Graph, b: Graph, m: nat, u: nat)
    requires WellFormed(a, m) && WellFormed(b, m) && u < |a| == |b| && a[u].level == b[u].level
    requires forall lc: nat :: Neighbors(a, u, lc) == Neighbors(b, u, lc)
    ensures a[u] == b[u]
  {
    forall lc | 0 <= lc < |a[u].connections|
      ensures a[u].connections[lc] == b[u].connections[lc]
    {
      assert Neighbors(a, u, lc) == Neighbors(b, u, lc);
    }
    assert a[u].connections == b[u].connections;
  }

  /**
   An insertion has one outcome: no two nodes being equally far from the vector or from a node, the graph it leads to is
   determined by the graph before, the vector and the level drawn.
   */
  lemma InsertionIsUnique(before: Graph, a: Graph, b: Graph, s: Space, m: nat, ef: int, vector: seq<real>, level: nat,
                          entryPoint: int, maxLevel: nat, chain: seq<nat>, beams: seq<seq<nat>>,
                          chain': seq<nat>, beams': seq<seq<nat>>)
    requires WellFormed(before, m) && s.HoldsBelow(|before| + 1)
    requires NoTies(s, vector, |before|) && NoTiesAmong(s, |before| + 1)
    requires Inserted(before, a, s, m, ef, vector, level, entryPoint, maxLevel, chain, beams)
    requires Inserted(before, b, s, m, ef, vector, level, entryPoint, maxLevel, chain', beams')
    ensures a == b
  {
    var start, top, id := before + [FreshNode(level)], Min(level, maxLevel), |before|;
    FreshNodeKeepsWellFormed(before, m, level);
    DescentIsUnique(start, s, vector, maxLevel, chain, chain');
    BeamsAgree(start, a, b, s, m, ef, vector, id, top, chain[|chain| - 1], beams, beams', top + 1);
    assert beams[..top + 1] == beams && beams'[..top + 1] == beams';
    OutcomesAgree(start, a, b, s, m, ef, vector, id, top, chain[|chain| - 1], beams);
  }

  lemma OutcomesAgree(start: Graph, a: Graph, b: Graph, s: Space, m: nat, ef: int, vector: seq<real>, id: nat, top: nat,
                      first: nat, beams: seq<seq<nat>>)
    requires WellFormed(start, m) && s.HoldsBelow(|start|) && NoTiesAmong(s, |start|) && |beams| == top + 1
    requires LayersDone(start, a, s, m, ef, vector, id, top, first, beams)
    requires LayersDone(start, b, s, m, ef, vector, id, top, first, beams)
    ensures a == b
  {
    forall u: nat | u < |start|
      ensures a[u] == b[u]
    {
      forall lc: nat
        ensures Neighbors(a, u, lc) == Neighbors(b, u, lc)
      {
        SameEdges(start, a, b, s, m, ef, vector, id, top, first, beams, u, lc);
      }
      SameEdgesSameNode(a, b, m, u);
    }
  }
}
