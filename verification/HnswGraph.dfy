/**
 The layered graph of an HNSW index as a value: its invariant, reachability inside one layer,
 and what a beam search, a neighbour selection and a linking step are supposed to produce.
 */
module HnswGraph {
  import opened VectorSpace

  datatype Node = Node(connections: seq<seq<nat>>, level: nat)
  type Graph = seq<Node>

  /** The edges of `u` at layer `lc`; a node below that layer has none. */
  function Neighbors(g: Graph, u: nat, lc: nat): (es: seq<nat>)
    requires u < |g|
  {
    if lc < |g[u].connections| then g[u].connections[lc] else []
  }

  function MaxConn(m: nat, lc: nat): nat {
    if lc == 0 then 2 * m else m
  }

  /** A beam of width `ef` keeps its entry even when `ef` is not positive. */
  function BeamWidth(ef: int): (w: nat) {
    if ef < 1 then 1 else ef
  }

  ghost predicate NoDup(s: seq<nat>) {
    forall i, j | 0 <= i < j < |s| :: s[i] != s[j]
  }

  function Elements(s: seq<nat>): set<nat> {
    set x | x in s
  }

  function Ids(n: nat): (ids: set<nat>)
    ensures forall i: nat :: i in ids <==> i < n
    ensures |ids| == n
  {
    if n == 0 then {} else Ids(n - 1) + {n - 1}
  }

  // ---------------------------------------------------------------- invariant

  /** The edges of `u` at layer `lc` are distinct, not loops, in range, high enough and not too many. */
  ghost predicate EdgesOk(g: Graph, u: nat, lc: nat, m: nat)
    requires u < |g|
  {
    var es := Neighbors(g, u, lc);
    && |es| <= MaxConn(m, lc)
    && NoDup(es)
    && (forall e | e in es :: e < |g| && e != u && lc <= g[e].level)
  }

  ghost predicate WellFormed(g: Graph, m: nat) {
    && (forall u: nat | u < |g| :: |g[u].connections| == g[u].level + 1)
    && (forall u: nat, lc: nat | u < |g| :: EdgesOk(g, u, lc, m))
  }

  /** No node has more than `m` edges on a layer, or `2 * m` on the bottom one. */
  lemma DegreesAreBounded(g: Graph, m: nat, u: nat, lc: nat)
    requires WellFormed(g, m) && u < |g|
    ensures |Neighbors(g, u, lc)| <= if lc == 0 then 2 * m else m
  {
    assert EdgesOk(g, u, lc, m);
  }

  /** Layer 0 joins every two of the first `n` nodes, in both directions. */
  ghost predicate CompleteBelow(g: Graph, n: nat)
    requires n <= |g|
  {
    forall u: nat, v: nat | u < n && v < n && u != v :: v in Neighbors(g, u, 0)
  }

  ghost predicate Complete(g: Graph) {
    CompleteBelow(g, |g|)
  }

  ghost predicate SameLayer(g: Graph, h: Graph, lc: nat) {
    |g| == |h| && forall u: nat | u < |g| :: Neighbors(g, u, lc) == Neighbors(h, u, lc)
  }

  // ------------------------------------------------------------- reachability

  ghost predicate IsPath(g: Graph, lc: nat, p: seq<nat>) {
    && (forall i | 0 <= i < |p| :: p[i] < |g|)
    && (forall i, j | 0 <= i < j < |p| && j == i + 1 :: p[j] in Neighbors(g, p[i], lc))
  }

  ghost predicate Reaches(g: Graph, lc: nat, from: nat, to: nat) {
    exists p :: IsPath(g, lc, p) && p != [] && p[0] == from && p[|p| - 1] == to
  }

  ghost predicate Closed(g: Graph, lc: nat, s: set<nat>) {
    forall u: nat | u in s && u < |g| :: forall e | e in Neighbors(g, u, lc) :: e in s
  }

  lemma ReachesItself(g: Graph, lc: nat, u: nat)
    requires u < |g|
    ensures Reaches(g, lc, u, u)
  {
    assert IsPath(g, lc, [u]);
  }

  lemma ReachesStep(g: Graph, lc: nat, from: nat, u: nat, v: nat)
    requires u < |g| && v < |g| && Reaches(g, lc, from, u) && v in Neighbors(g, u, lc)
    ensures Reaches(g, lc, from, v)
  {
    var p :| IsPath(g, lc, p) && p != [] && p[0] == from && p[|p| - 1] == u;
    var q := p + [v];
    assert q[0] == from && q[|q| - 1] == v;
    assert IsPath(g, lc, q);
  }

  lemma {:induction false} ClosedHoldsPath(g: Graph, lc: nat, s: set<nat>, p: seq<nat>)
    requires IsPath(g, lc, p) && p != [] && p[0] in s && Closed(g, lc, s)
    ensures p[|p| - 1] in s
  {
    if |p| > 1 {
      var q := p[..|p| - 1];
      assert IsPath(g, lc, q) by {
        forall i | 0 <= i < |q| - 1
          ensures q[i + 1] in Neighbors(g, q[i], lc)
        {
          assert q[i + 1] == p[i + 1] && q[i] == p[i];
        }
      }
      ClosedHoldsPath(g, lc, s, q);
      var i := |p| - 2;
      assert p[i + 1] in Neighbors(g, p[i], lc);
    }
  }

  /** A closed set that contains the entry contains everything the entry reaches. */
  lemma ClosedHoldsReachable(g: Graph, lc: nat, s: set<nat>, from: nat, to: nat)
    requires from in s && Closed(g, lc, s) && Reaches(g, lc, from, to)
    ensures to in s
  {
    var p :| IsPath(g, lc, p) && p != [] && p[0] == from && p[|p| - 1] == to;
    ClosedHoldsPath(g, lc, s, p);
  }

  /** The nodes `from` reaches at layer `lc`. */
  ghost function Reachable(g: Graph, lc: nat, from: nat): set<nat> {
    set v: nat | v < |g| && Reaches(g, lc, from, v)
  }

  lemma SameLayerSameReach(g: Graph, h: Graph, lc: nat, from: nat, to: nat)
    requires SameLayer(g, h, lc) && Reaches(g, lc, from, to)
    ensures Reaches(h, lc, from, to)
  {
    var p :| IsPath(g, lc, p) && p != [] && p[0] == from && p[|p| - 1] == to;
    assert IsPath(h, lc, p) by {
      forall i | 0 <= i < |p| - 1
        ensures p[i + 1] in Neighbors(h, p[i], lc)
      {
        assert p[i + 1] in Neighbors(g, p[i], lc);
      }
    }
  }

  // ----------------------------------------------------------- greedy descent

  /** Of the nodes listed, the `i`-th is nearest to `query`, and the first such. */
  ghost predicate FirstNearest(s: Space, query: seq<real>, es: seq<nat>, i: nat) {
    && i < |es| && (forall e | e in es :: s.Holds(e))
    && (forall j | 0 <= j < i :: s.Distance(query, es[i]) < s.Distance(query, es[j]))
    && (forall j | i <= j < |es| :: s.Distance(query, es[i]) <= s.Distance(query, es[j]))
  }

  /** The greedy descent goes from `u` to `v`: the first of the nearest neighbours, which is strictly nearer. */
  ghost predicate Hop(g: Graph, s: Space, query: seq<real>, lc: nat, u: nat, v: nat) {
    && u < |g| && v < |g| && s.Holds(u) && s.Holds(v) && s.Distance(query, v) < s.Distance(query, u)
    && exists i: nat :: FirstNearest(s, query, Neighbors(g, u, lc), i) && Neighbors(g, u, lc)[i] == v
  }

  /** No neighbour of `u` is strictly nearer. */
  ghost predicate Stuck(g: Graph, s: Space, query: seq<real>, lc: nat, u: nat) {
    && u < |g| && s.Holds(u)
    && forall e | e in Neighbors(g, u, lc) :: s.Holds(e) && s.Distance(query, u) <= s.Distance(query, e)
  }

  ghost predicate IsWalk(g: Graph, s: Space, query: seq<real>, lc: nat, p: seq<nat>) {
    forall i, j | 0 <= i < j < |p| && j == i + 1 :: Hop(g, s, query, lc, p[i], p[j])
  }

  /** The greedy descent of layer `lc` that starts at `from` ends at `to`. */
  ghost predicate LeadsTo(g: Graph, s: Space, query: seq<real>, lc: nat, from: nat, to: nat) {
    Stuck(g, s, query, lc, to) && exists p :: IsWalk(g, s, query, lc, p) && p != [] && p[0] == from && p[|p| - 1] == to
  }

  /** The descent through the layers from `top` downwards: each node of the chain is where the one before it leads. */
  ghost predicate IsDescent(g: Graph, s: Space, query: seq<real>, top: nat, chain: seq<nat>) {
    && 0 < |chain| <= top + 1
    && forall i, j | 0 <= i < j < |chain| && j == i + 1 :: LeadsTo(g, s, query, top - i, chain[i], chain[j])
  }

  lemma WalkPart(g: Graph, s: Space, query: seq<real>, lc: nat, p: seq<nat>, lo: nat, hi: nat)
    requires IsWalk(g, s, query, lc, p) && lo <= hi <= |p|
    ensures IsWalk(g, s, query, lc, p[lo..hi])
  {
    var q := p[lo..hi];
    forall i | 0 <= i < |q| - 1
      ensures Hop(g, s, query, lc, q[i], q[i + 1])
    {
      assert Hop(g, s, query, lc, p[lo + i], p[lo + i + 1]);
    }
  }

  lemma DescentFront(g: Graph, s: Space, query: seq<real>, top: nat, chain: seq<nat>, n: nat)
    requires IsDescent(g, s, query, top, chain) && 0 < n <= |chain|
    ensures IsDescent(g, s, query, top, chain[..n])
  {
    var front := chain[..n];
    forall i | 0 <= i < n - 1
      ensures LeadsTo(g, s, query, top - i, front[i], front[i + 1])
    {
      assert LeadsTo(g, s, query, top - i, chain[i], chain[i + 1]);
    }
  }

  lemma DescentGrows(g: Graph, s: Space, query: seq<real>, top: nat, chain: seq<nat>, to: nat)
    requires IsDescent(g, s, query, top, chain) && |chain| <= top
    requires LeadsTo(g, s, query, top - (|chain| - 1), chain[|chain| - 1], to)
    ensures IsDescent(g, s, query, top, chain + [to])
  {
    var longer := chain + [to];
    forall i, j | 0 <= i < j < |longer| && j == i + 1
      ensures LeadsTo(g, s, query, top - i, longer[i], longer[j])
    {
      DescentAt(g, s, query, top, chain, to, i);
    }
  }

  lemma DescentAt(g: Graph, s: Space, query: seq<real>, top: nat, chain: seq<nat>, to: nat, i: nat)
    requires IsDescent(g, s, query, top, chain) && |chain| <= top && i < |chain|
    requires LeadsTo(g, s, query, top - (|chain| - 1), chain[|chain| - 1], to)
    ensures LeadsTo(g, s, query, top - i, (chain + [to])[i], (chain + [to])[i + 1])
  {
    if i < |chain| - 1 {
      assert LeadsTo(g, s, query, top - i, chain[i], chain[i + 1]);
    }
  }

  lemma WalkGrows(g: Graph, s: Space, query: seq<real>, lc: nat, p: seq<nat>, v: nat)
    requires IsWalk(g, s, query, lc, p) && p != [] && Hop(g, s, query, lc, p[|p| - 1], v)
    ensures IsWalk(g, s, query, lc, p + [v])
  {
  }

  // -------------------------------------------------------------- beam search

  ghost predicate SortedByDistance(s: Space, query: seq<real>, out: seq<nat>) {
    && (forall i | 0 <= i < |out| :: s.Holds(out[i]))
    && (forall i, j | 0 <= i < j < |out| :: s.Distance(query, out[i]) <= s.Distance(query, out[j]))
  }

  /** Every member of `all` outside `chosen` is at least as far from `query` as every member of `chosen`. */
  ghost predicate NearestOf(s: Space, query: seq<real>, chosen: set<nat>, all: set<nat>) {
    && (forall v | v in all :: s.Holds(v))
    && chosen <= all
    && (forall r, v {:trigger s.Distance(query, r), s.Distance(query, v)} | r in chosen && v in all - chosen ::
          s.Distance(query, r) <= s.Distance(query, v))
  }

  /** `visited` consists of nodes of layer `lc` that `entry` reaches, `entry` among them. */
  ghost predicate Explored(g: Graph, lc: nat, entry: nat, visited: set<nat>) {
    && entry in visited
    && (forall v | v in visited :: v < |g|)
    && (forall v {:trigger Reaches(g, lc, entry, v)} | v in visited :: Reaches(g, lc, entry, v))
  }

  /**
   The closed beam a search of width `ef` returns: distinct, sorted, the nearest of all visited nodes,
   as many as fit, and with every edge out of a result leading to a visited node.
   */
  ghost predicate IsBeam(g: Graph, s: Space, query: seq<real>, entry: nat, ef: int, lc: nat,
                         visited: set<nat>, out: seq<nat>) {
    && Explored(g, lc, entry, visited)
    && NoDup(out)
    && SortedByDistance(s, query, out)
    && |out| == (if |visited| <= BeamWidth(ef) then |visited| else BeamWidth(ef))
    && NearestOf(s, query, Elements(out), visited)
    && (forall r | r in out && r < |g| :: forall e | e in Neighbors(g, r, lc) :: e in visited)
  }

  // The order in which a search expands nodes

  /** The nodes looked at once those of `order` have been expanded: the entry and all their neighbours. */
  function Seen(g: Graph, lc: nat, entry: nat, order: seq<nat>): (visited: set<nat>) {
    if order == [] then {entry}
    else
      var u := order[|order| - 1];
      Seen(g, lc, entry, order[..|order| - 1]) + (if u < |g| then Elements(Neighbors(g, u, lc)) else {})
  }

  /** The nodes strictly nearer to `query` than `u`. */
  ghost function Nearer(s: Space, query: seq<real>, nodes: set<nat>, u: nat): (nearer: set<nat>)
    requires s.Holds(u)
  {
    set v | v in nodes && s.Holds(v) && s.Distance(query, v) < s.Distance(query, u)
  }

  /** `u` is a nearest of the nodes seen but not expanded, and there is room for it in a beam of the nodes seen. */
  ghost predicate ComesNext(s: Space, query: seq<real>, ef: int, seen: set<nat>, order: seq<nat>, u: nat) {
    && u in seen && u !in order && s.Holds(u)
    && (forall v | v in seen && v !in order :: s.Holds(v) && s.Distance(query, u) <= s.Distance(query, v))
    && |Nearer(s, query, seen, u)| < BeamWidth(ef)
  }

  ghost predicate BestFirst(g: Graph, s: Space, query: seq<real>, entry: nat, ef: int, lc: nat, order: seq<nat>) {
    order == []
    || (var front, u := order[..|order| - 1], order[|order| - 1];
        && BestFirst(g, s, query, entry, ef, lc, front)
        && ComesNext(s, query, ef, Seen(g, lc, entry, front), front, u))
  }

  /** `out` is what a best-first search finds: it expands the nodes in `order` and is done when its beam is expanded. */
  ghost predicate IsSearch(g: Graph, s: Space, query: seq<real>, entry: nat, ef: int, lc: nat, order: seq<nat>,
                           out: seq<nat>) {
    && BestFirst(g, s, query, entry, ef, lc, order)
    && IsBeam(g, s, query, entry, ef, lc, Seen(g, lc, entry, order), out)
    && (forall r | r in out :: r in order)
  }

  lemma SeenGrows(g: Graph, lc: nat, entry: nat, order: seq<nat>, u: nat)
    requires u < |g|
    ensures Seen(g, lc, entry, order + [u]) == Seen(g, lc, entry, order) + Elements(Neighbors(g, u, lc))
  {
    assert (order + [u])[..|order|] == order;
  }

  lemma BestFirstGrows(g: Graph, s: Space, query: seq<real>, entry: nat, ef: int, lc: nat, order: seq<nat>, u: nat)
    requires BestFirst(g, s, query, entry, ef, lc, order)
    requires ComesNext(s, query, ef, Seen(g, lc, entry, order), order, u)
    ensures BestFirst(g, s, query, entry, ef, lc, order + [u])
  {
    assert (order + [u])[..|order|] == order;
  }

  lemma {:induction false} NoDupCardinality(s: seq<nat>)
    requires NoDup(s)
    ensures |Elements(s)| == |s|
  {
    if s != [] {
      var t := s[..|s| - 1];
      NoDupCardinality(t);
      assert Elements(s) == Elements(t) + {s[|s| - 1]};
      assert s[|s| - 1] !in t;
    }
  }

  lemma SubsetCardinality<T>(a: set<T>, b: set<T>)
    requires a <= b
    ensures |a| <= |b| && (|a| == |b| ==> a == b)
  {
    assert b == a + (b - a);
    assert |b| == |a| + |b - a|;
    if |a| == |b| {
      assert b - a == {};
    }
  }

  /** A beam at least as wide as the reachable part of the layer is that reachable part, sorted. */
  lemma WideBeamIsReachable(g: Graph, s: Space, query: seq<real>, entry: nat, ef: int, lc: nat,
                            visited: set<nat>, out: seq<nat>)
    requires IsBeam(g, s, query, entry, ef, lc, visited, out)
    requires |Reachable(g, lc, entry)| <= ef
    ensures Elements(out) == Reachable(g, lc, entry)
  {
    var reach := Reachable(g, lc, entry);
    SubsetCardinality(visited, reach);
    NoDupCardinality(out);
    SubsetCardinality(Elements(out), visited);
    assert Closed(g, lc, visited);
    forall v | v in reach
      ensures v in visited
    {
      ClosedHoldsReachable(g, lc, visited, entry, v);
    }
  }

  /** A beam over nodes that layer 0 joins completely has visited all of them. */
  lemma BeamOnCompleteLayer(g: Graph, n: nat, s: Space, query: seq<real>, entry: nat, ef: int,
                            visited: set<nat>, out: seq<nat>)
    requires n <= |g| && CompleteBelow(g, n)
    requires IsBeam(g, s, query, entry, ef, 0, visited, out) && visited <= Ids(n)
    ensures visited == Ids(n)
    ensures n <= BeamWidth(ef) ==> Elements(out) == Ids(n) && |out| == n
  {
    assert visited != {};
    assert |visited| != 0;
    var r := out[0];
    assert r in Elements(out);
    forall v: nat | v < n
      ensures v in visited
    {
      if v != r {
        assert v in Neighbors(g, r, 0);
      }
    }
    assert visited == Ids(n);
    NoDupCardinality(out);
    SubsetCardinality(Elements(out), visited);
  }

  lemma SameLayerSameBeam(g: Graph, h: Graph, s: Space, query: seq<real>, entry: nat, ef: int, lc: nat,
                          visited: set<nat>, out: seq<nat>)
    requires SameLayer(g, h, lc) && IsBeam(g, s, query, entry, ef, lc, visited, out)
    ensures IsBeam(h, s, query, entry, ef, lc, visited, out)
  {
    forall v | v in visited
      ensures v < |h| && Reaches(h, lc, entry, v)
    {
      SameLayerSameReach(g, h, lc, entry, v);
    }
  }

  // ------------------------------------------------------- selection, linking

  /** `out` is the choice of at most `k` of the `candidates`: all of them when they fit, else `k` nearest. */
  ghost predicate IsSelection(s: Space, query: seq<real>, candidates: seq<nat>, k: nat, out: seq<nat>) {
    if |candidates| <= k then
      out == candidates
    else
      && |out| == k
      && NoDup(out)
      && SortedByDistance(s, query, out)
      && NearestOf(s, query, Elements(out), Elements(candidates))
  }

  function FirstOf(beam: seq<nat>, k: nat): (s: seq<nat>) {
    if |beam| <= k then beam else beam[..k]
  }

  /**
   `after` is `before` with node `id` linked into layer `lc` along `beam`: `id` gets the first entries of the
   beam, each of them gets an edge back to `id` and keeps its nearest edges, and nothing else changes.
   */
  ghost predicate LinkedAt(before: Graph, after: Graph, s: Space, m: nat, lc: nat, id: nat, beam: seq<nat>) {
    && |before| == |after| && id < |after|
    && s.HoldsBelow(|after|)
    && var nb := FirstOf(beam, MaxConn(m, lc));
    && Neighbors(after, id, lc) == nb
    && (forall u: nat | u < |after| && u != id ::
          if u in nb then
            IsSelection(s, s.Vector(u), Neighbors(before, u, lc) + [id], MaxConn(m, lc), Neighbors(after, u, lc))
          else
            Neighbors(after, u, lc) == Neighbors(before, u, lc))
  }

  /** Linking the last node into a layer 0 that joins all earlier nodes and still has room keeps it complete. */
  lemma LinkingKeepsComplete(before: Graph, after: Graph, s: Space, vector: seq<real>, m: nat, ef: int,
                             id: nat, entry: nat, visited: set<nat>, beam: seq<nat>)
    requires 0 < id == |before| - 1 <= BeamWidth(ef) && id <= 2 * m
    requires WellFormed(before, m) && CompleteBelow(before, id)
    requires forall u: nat | u < id :: id !in Neighbors(before, u, 0)
    requires IsBeam(before, s, vector, entry, ef, 0, visited, beam) && id !in visited
    requires LinkedAt(before, after, s, m, 0, id, beam)
    ensures Complete(after)
  {
    BeamOnCompleteLayer(before, id, s, vector, entry, ef, visited, beam);
    forall u: nat | u < id
      ensures u in beam && Neighbors(after, u, 0) == Neighbors(before, u, 0) + [id]
    {
      assert u in Elements(beam);
      LinkingAddsEdge(before, after, s, m, id, beam, u);
    }
    AllLinkedIsComplete(before, after, id, beam);
  }

  /** When everything fits, linking adds the edge back to the new node and drops none. */
  lemma LinkingAddsEdge(before: Graph, after: Graph, s: Space, m: nat, id: nat, beam: seq<nat>, u: nat)
    requires u < id == |before| - 1 <= 2 * m
    requires WellFormed(before, m) && id !in Neighbors(before, u, 0)
    requires |beam| == id && u in beam && LinkedAt(before, after, s, m, 0, id, beam)
    ensures Neighbors(after, u, 0) == Neighbors(before, u, 0) + [id]
  {
    DegreeBelow(before, u, m);
    assert IsSelection(s, s.Vector(u), Neighbors(before, u, 0) + [id], 2 * m, Neighbors(after, u, 0));
  }

  lemma AllLinkedIsComplete(before: Graph, after: Graph, id: nat, beam: seq<nat>)
    requires id == |before| - 1 && |after| == |before| && CompleteBelow(before, id)
    requires Neighbors(after, id, 0) == beam
    requires forall u: nat | u < id :: u in beam && Neighbors(after, u, 0) == Neighbors(before, u, 0) + [id]
    ensures Complete(after)
  {
  }

  /** A node whose layer-0 edges avoid the last id has fewer edges than there are other nodes. */
  lemma DegreeBelow(g: Graph, u: nat, m: nat)
    requires u + 1 < |g| && WellFormed(g, m) && |g| - 1 !in Neighbors(g, u, 0)
    ensures |Neighbors(g, u, 0)| < |g| - 1
  {
    var es := Neighbors(g, u, 0);
    assert EdgesOk(g, u, 0, m);
    NoDupCardinality(es);
    assert Elements(es) <= Ids(|g| - 1) - {u};
    SubsetCardinality(Elements(es), Ids(|g| - 1) - {u});
  }
}
