/** The HNSW index: insertion into and search of a layered neighbour graph over a flat vector store. */
module HnswIndex {
  import opened VectorSpace
  import opened HnswGraph
  import opened HnswSearch
  import opened HnswInsertion
  import opened DistHeaps
  import opened Numbers

  datatype SearchHit = SearchHit(id: nat, score: real)

  datatype Scored = Scored(id: nat, dist: real)

  /** The stored nodes strictly closer to `query` than node `cur`. */
  ghost function Closer(s: Space, n: nat, query: seq<real>, cur: nat): set<nat>
    requires s.HoldsBelow(n) && s.Holds(cur)
  {
    set i | i in Ids(n) && s.Distance(query, i) < s.Distance(query, cur)
  }

  class HNSWIndex {
    const dimension: nat
    const m: nat
    const efConstruct: int
    const efSearch: int := 50
    const similarity: (seq<real>, seq<real>) -> real
    var maxLevel: nat
    var entryPoint: int
    var nodes: Graph
    var vectors: seq<real>

    function Store(): Space
      reads this`vectors
    {
      Space(dimension, vectors, similarity)
    }

    /** What the searches rely on; it also holds in the middle of an insertion. */
    ghost predicate Searchable()
      reads this`nodes, this`vectors
    {
      WellFormed(nodes, m) && Store().HoldsBelow(|nodes|)
    }

    ghost predicate Valid()
      reads this
    {
      |vectors| == |nodes| * dimension && IndexInvariant(nodes, m, efConstruct, entryPoint, maxLevel)
    }

    constructor (dimension: nat, m: nat, efConstruct: int, similarity: (seq<real>, seq<real>) -> real)
      ensures this.dimension == dimension && this.m == m && this.efConstruct == efConstruct
      ensures this.similarity == similarity
      ensures Valid() && nodes == [] && vectors == []
    {
      this.dimension := dimension;
      this.m := m;
      this.efConstruct := efConstruct;
      this.similarity := similarity;
      maxLevel := 0;
      entryPoint := -1;
      nodes := [];
      vectors := [];
    }

    /** Looks at the neighbours of `nearest`, letting each unvisited one compete for the beam. */
    method Expand(query: seq<real>, ghost entryID: nat, ef: int, level: nat, nearest: nat, visited0: set<nat>,
                  ghost order: seq<nat>, candidates: DistHeap, results: DistHeap)
        returns (visited: set<nat>)
      requires Searchable()
      requires candidates.Valid() && results.Valid() && candidates != results
      requires candidates.query == query == results.query && candidates.space == Store() == results.space
      requires !candidates.isMaxHeap && results.isMaxHeap
      requires Expanding(nodes, Store(), query, entryID, ef, level, visited0,
                         multiset(candidates.ids), multiset(results.ids), order, nearest)
      modifies candidates`ids, results`ids
      ensures candidates.Valid() && results.Valid()
      ensures Expanding(nodes, Store(), query, entryID, ef, level, visited,
                        multiset(candidates.ids), multiset(results.ids), order, nearest)
      ensures visited == visited0 + Elements(Neighbors(nodes, nearest, level))
      ensures visited == visited0 ==> candidates.ids == old(candidates.ids)
    {
      ghost var g, s := nodes, Store();
      visited := visited0;
      LookedAtNone(visited0, Neighbors(g, nearest, level));
      if level < |nodes[nearest].connections| {
        var es := nodes[nearest].connections[level];
        for i := 0 to |es|
          invariant candidates.Valid() && results.Valid()
          invariant Expanding(g, s, query, entryID, ef, level, visited,
                              multiset(candidates.ids), multiset(results.ids), order, nearest)
          invariant LookedAt(visited0, es, i, visited)
          invariant visited == visited0 ==> candidates.ids == old(candidates.ids)
        {
          EdgeInRange(g, m, nearest, level, es, i);
          LookedAtOneMore(visited0, es, i, visited);
          visited := LookAt(query, entryID, ef, level, nearest, es[i], visited, order, candidates, results);
        }
        LookedAtAll(visited0, es, visited);
      }
    }

    /** One neighbour `v`: nothing is done if it has been visited. */
    method LookAt(query: seq<real>, ghost entryID: nat, ef: int, ghost level: nat, ghost u: nat, v: nat,
                  visited0: set<nat>, ghost order: seq<nat>, candidates: DistHeap, results: DistHeap)
        returns (visited: set<nat>)
      requires Searchable() && u < |nodes| && v in Neighbors(nodes, u, level) && v < |nodes|
      requires candidates.Valid() && results.Valid() && candidates != results
      requires candidates.query == query == results.query && candidates.space == Store() == results.space
      requires !candidates.isMaxHeap && results.isMaxHeap
      requires Expanding(nodes, Store(), query, entryID, ef, level, visited0,
                         multiset(candidates.ids), multiset(results.ids), order, u)
      modifies candidates`ids, results`ids
      ensures candidates.Valid() && results.Valid() && visited == visited0 + {v}
      ensures visited == visited0 ==> candidates.ids == old(candidates.ids)
      ensures Expanding(nodes, Store(), query, entryID, ef, level, visited,
                        multiset(candidates.ids), multiset(results.ids), order, u)
    {
      visited := visited0;
      if v in visited {
        assert visited0 + {v} == visited0;
      } else {
        visited := Compete(query, entryID, ef, level, u, v, visited, order, candidates, results);
      }
    }

    /** One unvisited neighbour `v` becomes visited and joins, replaces within, or is turned away from the beam. */
    method Compete(query: seq<real>, ghost entryID: nat, ef: int, ghost level: nat, ghost u: nat, v: nat,
                   visited0: set<nat>, ghost order: seq<nat>, candidates: DistHeap, results: DistHeap)
        returns (visited: set<nat>)
      requires Searchable() && u < |nodes| && v in Neighbors(nodes, u, level) && v < |nodes| && v !in visited0
      requires candidates.Valid() && results.Valid() && candidates != results
      requires candidates.query == query == results.query && candidates.space == Store() == results.space
      requires !candidates.isMaxHeap && results.isMaxHeap
      requires Expanding(nodes, Store(), query, entryID, ef, level, visited0,
                         multiset(candidates.ids), multiset(results.ids), order, u)
      modifies candidates`ids, results`ids
      ensures candidates.Valid() && results.Valid() && visited == visited0 + {v}
      ensures Expanding(nodes, Store(), query, entryID, ef, level, visited,
                        multiset(candidates.ids), multiset(results.ids), order, u)
    {
      ghost var g, s := nodes, Store();
      ghost var c, r := multiset(candidates.ids), multiset(results.ids);
      assert |r| == |results.ids|;
      ResultsFit(g, s, query, entryID, ef, level, visited0, c, r, order, u);
      visited := visited0 + {v};
      var farthestResult := results.Peek();
      if |results.ids| < ef || Store().Distance(query, v) < Store().Distance(query, farthestResult) {
        ghost var x := Admit(ef, v, candidates, results);
        if |r| + 1 > ef {
          ExpandingReplaces(g, s, query, entryID, ef, level, visited0, c, r, order, u, v, x);
        } else {
          ExpandingJoins(g, s, query, entryID, ef, level, visited0, c, r, order, u, v);
        }
      } else {
        ExpandingRejects(g, s, query, entryID, ef, level, visited0, c, r, order, u, v);
      }
    }

    /** Pushes `v` on both heaps and, when that overfills the results, pops a farthest member `x` of them. */
    method Admit(ef: int, v: nat, candidates: DistHeap, results: DistHeap) returns (ghost x: nat)
      requires candidates.Valid() && results.Valid() && candidates != results && results.isMaxHeap
      requires candidates.space == results.space && results.space.Holds(v)
      modifies candidates`ids, results`ids
      ensures candidates.Valid() && results.Valid()
      ensures multiset(candidates.ids) == old(multiset(candidates.ids)) + multiset{v}
      ensures var grown := old(multiset(results.ids)) + multiset{v};
        if |grown| > ef then
          && multiset(results.ids) == grown - multiset{x} && x in grown && results.space.Holds(x)
          && NoFarther(results.space, results.query, grown, x)
        else
          multiset(results.ids) == grown
    {
      candidates.Push(v);
      results.Push(v);
      x := 0;
      assert |results.ids| == |multiset(results.ids)|;
      if |results.ids| > ef {
        var farthest := PopFarthest(results);
        x := farthest;
      }
    }

    method PopFarthest(results: DistHeap) returns (x: nat)
      requires results.Valid() && results.isMaxHeap && results.ids != []
      modifies results`ids
      ensures results.Valid() && results.space.Holds(x) && |results.ids| == old(|results.ids|) - 1
      ensures old(multiset(results.ids)) == multiset(results.ids) + multiset{x}
      ensures NoFarther(results.space, results.query, old(multiset(results.ids)), x)
    {
      x := results.Pop();
    }

    method PopNearest(candidates: DistHeap) returns (x: nat)
      requires candidates.Valid() && !candidates.isMaxHeap && candidates.ids != []
      modifies candidates`ids
      ensures candidates.Valid() && candidates.space.Holds(x) && |candidates.ids| == old(|candidates.ids|) - 1
      ensures old(multiset(candidates.ids)) == multiset(candidates.ids) + multiset{x}
      ensures NoNearer(candidates.space, candidates.query, multiset(candidates.ids), x)
    {
      x := candidates.Pop();
    }

    /** Empties a farthest-first heap into a list filled from its back, which is then closest first. */
    method Drain(results: DistHeap) returns (out: seq<nat>)
      requires results.Valid() && results.isMaxHeap
      modifies results`ids
      ensures multiset(out) == old(multiset(results.ids))
      ensures SortedByDistance(results.space, results.query, out)
    {
      ghost var s, query := results.space, results.query;
      out := [];
      while |results.ids| > 0
        invariant results.Valid()
        invariant multiset(results.ids) + multiset(out) == old(multiset(results.ids))
        invariant SortedByDistance(s, query, out)
        invariant out != [] ==> NoFarther(s, query, multiset(results.ids), out[0])
      {
        var x := PopFarthest(results);
        PrependNearer(s, query, x, out);
        out := [x] + out;
      }
    }

    /** Whether a full beam has no use for a candidate as far as `nearest`. */
    method Hopeless(query: seq<real>, ef: int, nearest: nat, results: DistHeap) returns (b: bool, ghost farthest: nat)
      requires results.Valid() && results.isMaxHeap && results.ids != [] && Store().Holds(nearest)
      requires results.query == query && results.space == Store()
      ensures b ==> |results.ids| >= ef
      ensures b ==> Store().Holds(farthest) && NoFarther(Store(), query, multiset(results.ids), farthest)
      ensures b ==> Store().Distance(query, nearest) > Store().Distance(query, farthest)
      ensures !b ==> Hopeful(Store(), query, ef, multiset(results.ids), nearest, farthest)
    {
      b, farthest := false, 0;
      if |results.ids| >= ef {
        var peeked := results.Peek();
        farthest := peeked;
        b := Store().Distance(query, nearest) > Store().Distance(query, peeked);
      }
    }

    /** One round of the search: takes the nearest candidate and either stops or expands it. */
    method Round(query: seq<real>, ghost entryID: nat, ef: int, level: nat, visited0: set<nat>,
                 ghost order0: seq<nat>, candidates: DistHeap, results: DistHeap)
        returns (stop: bool, visited: set<nat>, ghost order: seq<nat>, ghost pending: multiset<nat>)
      requires Searchable()
      requires candidates.Valid() && results.Valid() && candidates != results && candidates.ids != []
      requires candidates.query == query == results.query && candidates.space == Store() == results.space
      requires !candidates.isMaxHeap && results.isMaxHeap
      requires Running(nodes, Store(), query, entryID, ef, level, visited0,
                       multiset(candidates.ids), multiset(results.ids), order0)
      modifies candidates`ids, results`ids
      ensures candidates.Valid() && results.Valid()
      ensures Running(nodes, Store(), query, entryID, ef, level, visited, pending, multiset(results.ids), order)
      ensures pending == if stop then multiset{} else multiset(candidates.ids)
      ensures (visited == visited0 && |candidates.ids| < old(|candidates.ids|))
        || Ids(|nodes|) - visited < Ids(|nodes|) - visited0
    {
      ghost var s, g := Store(), nodes;
      var nearest := PopNearest(candidates);
      pending := multiset(candidates.ids);
      RunningIsInRange(g, s, query, entryID, ef, level, visited0, pending + multiset{nearest},
                       multiset(results.ids), order0, nearest);
      ghost var farthest;
      stop, farthest := Hopeless(query, ef, nearest, results);
      if stop {
        visited, order := visited0, order0;
        RunStops(g, s, query, entryID, ef, level, visited, pending, multiset(results.ids), order, nearest, farthest);
        pending := multiset{};
      } else {
        visited, order := Proceed(query, entryID, ef, level, nearest, farthest, visited0, order0, candidates, results);
        pending := multiset(candidates.ids);
      }
    }

    /** The rest of a round that goes on with its candidate. */
    method Proceed(query: seq<real>, ghost entryID: nat, ef: int, level: nat, nearest: nat, ghost farthest: nat,
                   visited0: set<nat>, ghost order0: seq<nat>, candidates: DistHeap, results: DistHeap)
        returns (visited: set<nat>, ghost order: seq<nat>)
      requires Searchable() && nearest < |nodes|
      requires candidates.Valid() && results.Valid() && candidates != results
      requires candidates.query == query == results.query && candidates.space == Store() == results.space
      requires !candidates.isMaxHeap && results.isMaxHeap
      requires Running(nodes, Store(), query, entryID, ef, level, visited0,
                       multiset(candidates.ids) + multiset{nearest}, multiset(results.ids), order0)
      requires Hopeful(Store(), query, ef, multiset(results.ids), nearest, farthest)
      requires NoNearer(Store(), query, multiset(candidates.ids), nearest)
      modifies candidates`ids, results`ids
      ensures candidates.Valid() && results.Valid()
      ensures Running(nodes, Store(), query, entryID, ef, level, visited,
                      multiset(candidates.ids), multiset(results.ids), order)
      ensures (visited == visited0 && |candidates.ids| == old(|candidates.ids|))
        || Ids(|nodes|) - visited < Ids(|nodes|) - visited0
    {
      RunTakes(nodes, Store(), query, entryID, ef, level, visited0, multiset(candidates.ids), multiset(results.ids),
               order0, nearest, farthest);
      order := order0 + [nearest];
      visited := Expand(query, entryID, ef, level, nearest, visited0, order, candidates, results);
      RunGoesOn(nodes, Store(), query, entryID, ef, level, visited, multiset(candidates.ids), multiset(results.ids),
                order, nearest);
      if visited != visited0 {
        RestShrinks(Ids(|nodes|), visited0, visited);
      }
    }

    /** Beam search of one layer; `order` lists the nodes it expanded. */
    method SearchLayer(query: seq<real>, entryID: nat, ef: int, level: nat)
        returns (out: seq<nat>, ghost order: seq<nat>)
      requires Searchable() && entryID < |nodes|
      ensures IsSearch(nodes, Store(), query, entryID, ef, level, order, out)
      ensures NoDup(out) && SortedByDistance(Store(), query, out) && |out| <= BeamWidth(ef)
    {
      ghost var s, g := Store(), nodes;
      var visited := {entryID};
      order := [];
      var candidates := new DistHeap(query, Store(), false);
      var results := new DistHeap(query, Store(), true);
      candidates.Push(entryID);
      results.Push(entryID);
      RunningStarts(g, s, query, entryID, ef, level);
      assert multiset(candidates.ids) == multiset{entryID} == multiset(results.ids);

      ghost var pending := multiset(candidates.ids);
      while |candidates.ids| > 0
        invariant candidates.Valid() && results.Valid() && fresh(candidates) && fresh(results) && candidates != results
        invariant candidates.query == query == results.query && candidates.space == s == results.space
        invariant !candidates.isMaxHeap && results.isMaxHeap
        invariant pending == multiset(candidates.ids)
        invariant Running(g, s, query, entryID, ef, level, visited, pending, multiset(results.ids), order)
        decreases Ids(|g|) - visited, |candidates.ids|
      {
        var stop;
        stop, visited, order, pending := Round(query, entryID, ef, level, visited, order, candidates, results);
        if stop {
          break;
        }
      }
      ghost var found := multiset(results.ids);
      out := Drain(results);
      FinishedSearchIsBest(g, s, query, entryID, ef, level, visited, found, order, out);
    }

    /**
     Scans one edge list, moving to each strictly nearer node; the list stays the one of the node the scan
     started from.
     */
    method ScanForNearer(query: seq<real>, start: nat, es: seq<nat>) returns (cur: nat, changed: bool)
      requires Store().HoldsBelow(|nodes|) && start < |nodes| && forall e | e in es :: e < |nodes|
      ensures cur < |nodes|
      ensures if changed then cur in es && Store().Distance(query, cur) < Store().Distance(query, start)
              else cur == start
      ensures forall e | e in es :: Store().Distance(query, cur) <= Store().Distance(query, e)
      ensures changed ==> exists i: nat :: FirstNearest(Store(), query, es, i) && es[i] == cur
    {
      ghost var s := Store();
      forall j | 0 <= j < |es|
        ensures es[j] < |nodes| && s.Holds(es[j])
      {
        assert es[j] in es;
      }
      cur, changed := start, false;
      var curDist := Store().Distance(query, cur);
      ghost var at := 0;
      for i := 0 to |es|
        invariant cur < |nodes| && curDist == s.Distance(query, cur)
        invariant if changed then 0 <= at < i && cur == es[at] && curDist < s.Distance(query, start) else cur == start
        invariant forall j | 0 <= j < i :: curDist <= s.Distance(query, es[j])
        invariant changed ==> forall j | 0 <= j < at :: curDist < s.Distance(query, es[j])
      {
        var d := Store().Distance(query, es[i]);
        if d < curDist {
          cur, curDist, changed, at := es[i], d, true, i;
        }
      }
      assert changed ==> FirstNearest(s, query, es, at);
    }

    /** Follows edges of one layer to strictly nearer nodes until none is left. */
    method GreedyClosest(query: seq<real>, ep: nat, level: nat) returns (cur: nat)
      requires Searchable() && ep < |nodes|
      ensures cur < |nodes| && Reaches(nodes, level, ep, cur)
      ensures Store().Distance(query, cur) <= Store().Distance(query, ep)
      ensures forall e | e in Neighbors(nodes, cur, level) ::
                e < |nodes| && Store().Distance(query, cur) <= Store().Distance(query, e)
      ensures level <= nodes[ep].level ==> level <= nodes[cur].level
      ensures LeadsTo(nodes, Store(), query, level, ep, cur)
    {
      ghost var s, g := Store(), nodes;
      cur := ep;
      ghost var walk := [ep];
      ReachesItself(g, level, ep);
      while true
        invariant cur < |g| && s.Distance(query, cur) <= s.Distance(query, ep)
        invariant Reaches(g, level, ep, cur)
        invariant level <= g[ep].level ==> level <= g[cur].level
        invariant IsWalk(g, s, query, level, walk) && walk != [] && walk[0] == ep && walk[|walk| - 1] == cur
        decreases Closer(s, |g|, query, cur)
      {
        ghost var scanned := cur;
        assert EdgesOk(g, scanned, level, m);
        var changed;
        cur, changed := ScanForNearer(query, cur, Neighbors(nodes, cur, level));
        if !changed {
          return;
        }
        ReachesStep(g, level, ep, scanned, cur);
        WalkGrows(g, s, query, level, walk, cur);
        walk := walk + [cur];
        assert cur in Closer(s, |g|, query, scanned) && cur !in Closer(s, |g|, query, cur);
      }
    }

    /** Keeps at most `k` candidates, those nearest to node `nodeID`. */
    method SelectNeighborsForNode(nodeID: nat, candidates: seq<nat>, k: nat) returns (out: seq<nat>)
      requires Store().HoldsBelow(|nodes|) && nodeID < |nodes|
      requires NoDup(candidates) && forall c | c in candidates :: c < |nodes|
      ensures IsSelection(Store(), Store().Vector(nodeID), candidates, k, out)
    {
      if |candidates| <= k {
        return candidates;
      }
      ghost var s := Store();
      var nodeVec := Store().Vector(nodeID);
      forall p | 0 <= p < |candidates|
        ensures s.Holds(candidates[p])
      {
        assert candidates[p] in candidates;
      }
      var sc := new Scored[|candidates|];
      for i := 0 to |candidates|
        invariant forall p | 0 <= p < i ::
                    sc[p].id == candidates[p] && sc[p].dist == s.Distance(nodeVec, candidates[p])
      {
        sc[i] := Scored(candidates[i], Store().Distance(nodeVec, candidates[i]));
      }
      assert ScoredChoice(s, nodeVec, candidates, sc[..]);
      ExchangeSort(s, nodeVec, candidates, sc);
      out := seq(k, i requires 0 <= i < sc.Length reads sc => sc[i].id);
      FirstScoredAreNearest(s, nodeVec, candidates, sc[..], out);
    }

    method SelectNeighborsSimple(candidates: seq<nat>, k: nat) returns (out: seq<nat>)
      ensures out == FirstOf(candidates, k)
    {
      out := if |candidates| <= k then candidates else candidates[..k];
    }

    /** Gives `id` the edges `neighbors` at layer `lc` and each of them an edge back, pruning full lists. */
    method Connect(id: nat, lc: nat, neighbors: seq<nat>, ghost beam: seq<nat>)
      requires Searchable() && Linkable(nodes, lc, id, neighbors)
      requires neighbors == FirstOf(beam, MaxConn(m, lc))
      modifies this`nodes
      ensures Searchable() && SameLevels(old(nodes), nodes) && SameOtherLayers(old(nodes), nodes, lc)
      ensures LinkedAt(old(nodes), nodes, Store(), m, lc, id, beam)
    {
      ghost var before, s := nodes, Store();
      var maxConn := MaxConn(m, lc);
      LinkStarts(before, s, m, lc, id, neighbors);
      nodes := SetEdges(nodes, id, lc, neighbors);
      for i := 0 to |neighbors|
        invariant PartlyLinked(before, nodes, s, m, lc, id, neighbors, i)
      {
        var n := neighbors[i];
        assert n in neighbors && n !in neighbors[..i];
        EdgesWithNewId(before, nodes, s, m, lc, id, neighbors, i);
        var edges := Neighbors(nodes, n, lc) + [id];
        if |edges| > maxConn {
          edges := SelectNeighborsForNode(n, edges, maxConn);
        }
        LinkOneMore(before, nodes, s, m, lc, id, neighbors, i, edges);
        nodes := SetEdges(nodes, n, lc, edges);
      }
      assert neighbors[..|neighbors|] == neighbors;
    }

    /**
     Adds a vector whose node was given `level` layers above the bottom one; ids are handed out in order. The node is
     linked along `beams`, one a layer, the first of which starts where the greedy descent along `chain` ends.
     */
    method Insert(vector: seq<real>, level: nat)
        returns (id: nat, ghost chain: seq<nat>, ghost beams: seq<seq<nat>>)
      requires Valid() && |vector| == dimension
      modifies this
      ensures Valid()
      ensures id == old(|nodes|) && |nodes| == id + 1 && vectors == old(vectors) + vector
      ensures Store().HoldsBelow(|nodes|)
      ensures if old(nodes) == [] then nodes == [FreshNode(level)]
              else Inserted(old(nodes), nodes, Store(), m, efConstruct, vector, level, old(entryPoint), old(maxLevel),
                            chain, beams)
      ensures if id == 0 || level > old(maxLevel) then entryPoint == id && maxLevel == level
              else entryPoint == old(entryPoint) && maxLevel == old(maxLevel)
    {
      ghost var before := nodes;
      id := Append(vector, level);
      chain, beams := [], [];
      if entryPoint < 0 {
        entryPoint := id;
        maxLevel := level;
        return;
      }
      var ep: nat;
      ep, chain := Descend(vector, id, level);
      beams := LinkAll(vector, id, ep, Min(level, maxLevel));
      InsertionCompletes(before, nodes, Store(), m, efConstruct, vector, level, entryPoint, maxLevel, chain, beams);
      if level > maxLevel {
        maxLevel := level;
        entryPoint := id;
      }
    }

    /** Stores the vector and a node without edges. */
    method Append(vector: seq<real>, level: nat) returns (id: nat)
      requires Valid() && |vector| == dimension
      modifies this`nodes, this`vectors
      ensures id == |old(nodes)| && nodes == old(nodes) + [FreshNode(level)] && vectors == old(vectors) + vector
      ensures Searchable() && |vectors| == |nodes| * dimension && NoEdgeTo(nodes, id)
    {
      id := |nodes|;
      AppendKeepsVectors(Store(), vector, id);
      FreshNodeKeepsWellFormed(nodes, m, level);
      nodes := nodes + [FreshNode(level)];
      vectors := vectors + vector;
    }

    /** Links a node no edge leads to into all layers from `top` down. */
    method LinkAll(vector: seq<real>, id: nat, first: nat, top: nat) returns (ghost beams: seq<seq<nat>>)
      requires Searchable() && id < |nodes| && top <= nodes[id].level
      requires first < |nodes| && first != id && top <= nodes[first].level
      requires NoEdgeTo(nodes, id)
      modifies this`nodes
      ensures Searchable() && |beams| == top + 1
      ensures LayersDone(old(nodes), nodes, Store(), m, efConstruct, vector, id, top, first, beams)
    {
      ghost var start, s := nodes, Store();
      var ep: nat, lc: int := first, top;
      beams := [];
      NothingLinked(start, s, m, efConstruct, vector, id, top, first);
      while lc >= 0
        invariant -1 <= lc <= top && Searchable() && |beams| == top - lc
        invariant LayersDone(start, nodes, s, m, efConstruct, vector, id, top, first, beams)
        invariant lc >= 0 ==> ep < |nodes| && ep != id && lc <= nodes[ep].level && ep == EntryOf(first, beams, |beams|)
      {
        ghost var beam;
        ep, beam := LinkLayer(vector, id, ep, lc, start, top, first, beams);
        beams := beams + [beam];
        lc := lc - 1;
      }
    }

    /** The entry for the top layer of a new node of the given level: greedy descent through the layers above. */
    method Descend(query: seq<real>, ghost id: nat, level: nat) returns (ep: nat, ghost chain: seq<nat>)
      requires Searchable() && 0 <= entryPoint < |nodes| && nodes[entryPoint].level == maxLevel
      requires entryPoint != id
      requires NoEdgeTo(nodes, id)
      ensures ep < |nodes| && Min(level, maxLevel) <= nodes[ep].level && ep != id
      ensures IsDescent(nodes, Store(), query, maxLevel, chain) && |chain| == maxLevel - Min(level, maxLevel) + 1
      ensures chain[0] == entryPoint && chain[|chain| - 1] == ep
    {
      ep := entryPoint;
      chain := [ep];
      var lc: int := maxLevel;
      while lc > level
        invariant Min(level, maxLevel) <= lc <= maxLevel
        invariant ep < |nodes| && lc <= nodes[ep].level && ep != id
        invariant IsDescent(nodes, Store(), query, maxLevel, chain) && |chain| == maxLevel - lc + 1
        invariant chain[0] == entryPoint && chain[|chain| - 1] == ep
      {
        ep, chain := DescendOne(query, id, ep, lc, maxLevel, chain);
        lc := lc - 1;
      }
    }

    /** One layer of a descent, around a node no edge leads to. */
    method DescendOne(query: seq<real>, ghost id: nat, ep: nat, lc: nat, ghost top: nat, ghost chain0: seq<nat>)
        returns (next: nat, ghost chain: seq<nat>)
      requires Searchable() && ep < |nodes| && ep != id && lc <= nodes[ep].level
      requires IsDescent(nodes, Store(), query, top, chain0) && |chain0| == top - lc + 1 && 0 < lc <= top
      requires chain0[|chain0| - 1] == ep
      requires NoEdgeTo(nodes, id)
      ensures next < |nodes| && next != id && lc <= nodes[next].level
      ensures chain == chain0 + [next] && IsDescent(nodes, Store(), query, top, chain)
    {
      next := GreedyClosest(query, ep, lc);
      if next == id {
        ReachAvoids(nodes, lc, ep, id);
      }
      DescentGrows(nodes, Store(), query, top, chain0, next);
      chain := chain0 + [next];
    }

    /** One layer of an insertion: search, choose, connect, and hand the nearest node on to the layer below. */
    method LinkLayer(vector: seq<real>, id: nat, ep: nat, lc: nat, ghost start: Graph, ghost top: nat, ghost first: nat,
                     ghost beams: seq<seq<nat>>)
        returns (next: nat, ghost beam: seq<nat>)
      requires Searchable() && id < |start| && |beams| <= top && lc == top - |beams| && top <= start[id].level
      requires ep < |nodes| && ep != id && lc <= nodes[ep].level && ep == EntryOf(first, beams, |beams|)
      requires LayersDone(start, nodes, Store(), m, efConstruct, vector, id, top, first, beams)
      requires NoEdgeTo(start, id)
      modifies this`nodes
      ensures Searchable()
      ensures LayersDone(start, nodes, Store(), m, efConstruct, vector, id, top, first, beams + [beam])
      ensures beam != [] && next == beam[0] < |nodes| && next != id && lc <= nodes[next].level
    {
      ghost var s, now := Store(), nodes;
      var candidates, order := SearchLayer(vector, ep, efConstruct, lc);
      beam := candidates;
      NoEdgeYet(start, now, lc, top, id);
      SearchIsLinkable(now, s, m, vector, ep, efConstruct, lc, id, order, beam);
      var neighbors := SelectNeighborsSimple(candidates, MaxConn(m, lc));
      Connect(id, lc, neighbors, candidates);
      LayerLinked(start, now, nodes, s, m, efConstruct, vector, id, lc, top, ep, order, beam);
      LinkedOneLower(start, now, nodes, m, lc, top);
      LinkedLayersStay(start, now, nodes, s, m, efConstruct, vector, id, top, first, beams, beams + [beam]);
      LastEntry(first, beams, beams + [beam], |beams|);
      LinkedUpToGrows(start, nodes, s, m, efConstruct, vector, id, top, first, beams + [beam], |beams|, lc, ep, beam);
      next := candidates[0];
    }

    /**
     The `k` nearest stored vectors the search finds, best first: greedily down to layer 1 along `chain`, then
     best-first in layer 0, expanding the nodes of `order` for a beam at least 50 wide.
     */
    method SearchKNN(query: seq<real>, k: nat)
        returns (hits: seq<SearchHit>, ghost chain: seq<nat>, ghost order: seq<nat>, ghost beam: seq<nat>)
      requires Valid()
      ensures nodes == [] ==> hits == []
      ensures Store().HoldsBelow(|nodes|)
      ensures nodes != [] ==>
                && 0 <= entryPoint < |nodes|
                && IsAnswer(nodes, Store(), query, entryPoint, maxLevel, k, chain, order, beam, hits)
      ensures nodes != [] && k >= 1 ==> StartsNear(nodes, Store(), query, entryPoint, maxLevel, hits)
      ensures |nodes| <= CompleteUpTo(m, efConstruct) ==> AreNearest(Store(), |nodes|, query, k, hits)
    {
      FlatStoreHoldsIds(Store(), |nodes|);
      chain, order, beam := [], [], [];
      if entryPoint < 0 || |nodes| == 0 {
        return [], chain, order, beam;
      }
      var ep: nat := entryPoint;
      chain := [ep];
      var lc := maxLevel;
      while lc > 0
        invariant ep < |nodes| && lc <= maxLevel
        invariant IsDescent(nodes, Store(), query, maxLevel, chain) && |chain| == maxLevel - lc + 1
        invariant chain[0] == entryPoint && chain[|chain| - 1] == ep
      {
        ep := GreedyClosest(query, ep, lc);
        DescentGrows(nodes, Store(), query, maxLevel, chain, ep);
        chain := chain + [ep];
        lc := lc - 1;
      }
      var ef := SearchWidth(efSearch, k);
      var candidates;
      candidates, order := SearchLayer(query, ep, ef, 0);
      beam := candidates;
      hits := Hits(Store(), query, FirstOf(candidates, k));
      IsAnswered(nodes, Store(), query, entryPoint, maxLevel, k, chain, order, beam, hits);
      if |nodes| <= CompleteUpTo(m, efConstruct) {
        BeamGivesNearest(nodes, Store(), query, ep, ef, k, Seen(nodes, 0, ep, order), candidates);
      }
    }
  }

  /** `sc` lists the candidates, in some order, each once and with its distance. */
  ghost predicate ScoredChoice(s: Space, vec: seq<real>, candidates: seq<nat>, sc: seq<Scored>) {
    && |sc| == |candidates|
    && (forall p | 0 <= p < |sc| ::
          sc[p].id in candidates && s.Holds(sc[p].id) && sc[p].dist == s.Distance(vec, sc[p].id))
    && (forall p, q | 0 <= p < q < |sc| :: sc[p].id != sc[q].id)
  }

  method ExchangeSort(ghost s: Space, ghost vec: seq<real>, ghost candidates: seq<nat>, sc: array<Scored>)
    requires ScoredChoice(s, vec, candidates, sc[..])
    modifies sc
    ensures ScoredChoice(s, vec, candidates, sc[..])
    ensures forall p, q | 0 <= p < q < sc.Length :: sc[p].dist <= sc[q].dist
  {
    for i := 0 to sc.Length
      invariant ScoredChoice(s, vec, candidates, sc[..])
      invariant forall p, q | 0 <= p < i && p < q < sc.Length :: sc[p].dist <= sc[q].dist
    {
      for j := i + 1 to sc.Length
        invariant ScoredChoice(s, vec, candidates, sc[..])
        invariant forall p, q | 0 <= p < i && p < q < sc.Length :: sc[p].dist <= sc[q].dist
        invariant forall q | i <= q < j :: sc[i].dist <= sc[q].dist
      {
        if sc[j].dist < sc[i].dist {
          sc[i], sc[j] := sc[j], sc[i];
        }
      }
    }
  }

  lemma FirstScoredAreNearest(s: Space, vec: seq<real>, candidates: seq<nat>, sc: seq<Scored>, out: seq<nat>)
    requires NoDup(candidates) && ScoredChoice(s, vec, candidates, sc) && |out| < |sc|
    requires forall p, q | 0 <= p < q < |sc| :: sc[p].dist <= sc[q].dist
    requires forall i | 0 <= i < |out| :: out[i] == sc[i].id
    ensures IsSelection(s, vec, candidates, |out|, out)
  {
    var all := seq(|sc|, i requires 0 <= i < |sc| => sc[i].id);
    NoDupCardinality(all);
    NoDupCardinality(candidates);
    SubsetCardinality(Elements(all), Elements(candidates));
    forall v | v in Elements(candidates) - Elements(out)
      ensures exists q :: |out| <= q < |sc| && sc[q].id == v
    {
      assert v in all;
    }
  }

  /** A search keeps a beam of at least the default width and at least `k`. */
  function SearchWidth(efSearch: int, k: nat): int {
    if efSearch < k then k else efSearch
  }

  function Hits(s: Space, query: seq<real>, ids: seq<nat>): (hits: seq<SearchHit>)
    requires forall i | 0 <= i < |ids| :: s.Holds(ids[i])
  {
    seq(|ids|, i requires 0 <= i < |ids| => SearchHit(ids[i], s.similarity(query, s.Vector(ids[i]))))
  }

  /**
   `hits` is the answer to `query`: the first `k` of what a best-first search of layer 0 finds, for a beam at least 50
   wide, from where the greedy descent along `chain` through all layers above it ends.
   */
  ghost predicate IsAnswer(g: Graph, s: Space, query: seq<real>, entryPoint: nat, maxLevel: nat, k: nat,
                           chain: seq<nat>, order: seq<nat>, beam: seq<nat>, hits: seq<SearchHit>) {
    && IsDescent(g, s, query, maxLevel, chain) && |chain| == maxLevel + 1 && chain[0] == entryPoint
    && IsSearch(g, s, query, chain[maxLevel], Max(50, k), 0, order, beam)
    && |hits| == Min(k, |beam|)
    && forall i | 0 <= i < |hits| ::
         s.Holds(beam[i]) && hits[i] == SearchHit(beam[i], s.similarity(query, s.Vector(beam[i])))
  }

  /** The best hit is as similar as the entry point and, on an index of several layers, as its neighbours on the top. */
  ghost predicate StartsNear(g: Graph, s: Space, query: seq<real>, entryPoint: nat, maxLevel: nat, hits: seq<SearchHit>)
    requires entryPoint < |g|
  {
    && hits != [] && s.Holds(entryPoint) && hits[0].score >= s.similarity(query, s.Vector(entryPoint))
    && (maxLevel >= 1 ==> forall v | v in Neighbors(g, entryPoint, maxLevel) ::
                            s.Holds(v) && hits[0].score >= s.similarity(query, s.Vector(v)))
  }

  lemma IsAnswered(g: Graph, s: Space, query: seq<real>, entryPoint: nat, maxLevel: nat, k: nat,
                   chain: seq<nat>, order: seq<nat>, beam: seq<nat>, hits: seq<SearchHit>)
    requires s.HoldsBelow(|g|) && entryPoint < |g|
    requires IsDescent(g, s, query, maxLevel, chain) && |chain| == maxLevel + 1 && chain[0] == entryPoint
    requires IsSearch(g, s, query, chain[maxLevel], Max(50, k), 0, order, beam)
    requires (forall i | 0 <= i < |beam| :: s.Holds(beam[i])) && hits == Hits(s, query, FirstOf(beam, k))
    ensures IsAnswer(g, s, query, entryPoint, maxLevel, k, chain, order, beam, hits)
    ensures k >= 1 ==> StartsNear(g, s, query, entryPoint, maxLevel, hits)
  {
    var ep := chain[maxLevel];
    DescentIsNear(g, s, query, maxLevel, chain);
    BeamStartsNear(g, s, query, ep, Max(50, k), 0, Seen(g, 0, ep, order), beam);
  }

  /**
   The answer of an exhaustive search: `k` stored vectors, or all of them, each once and with its similarity,
   most similar first, and no stored vector left out is more similar than one of them.
   */
  ghost predicate AreNearest(s: Space, n: nat, query: seq<real>, k: nat, hits: seq<SearchHit>)
    requires s.HoldsBelow(n)
  {
    && |hits| == Min(k, n)
    && (forall i | 0 <= i < |hits| :: hits[i].id < n && hits[i].score == s.similarity(query, s.Vector(hits[i].id)))
    && (forall i, j | 0 <= i < j < |hits| :: hits[i].id != hits[j].id && hits[i].score >= hits[j].score)
    && (forall v: nat, i | v < n && !IsHit(hits, v) && 0 <= i < |hits| ::
          hits[i].score >= s.similarity(query, s.Vector(v)))
  }

  ghost predicate IsHit(hits: seq<SearchHit>, v: nat) {
    exists i :: 0 <= i < |hits| && hits[i].id == v
  }

  lemma EdgesWithNewId(before: Graph, now: Graph, s: Space, m: nat, lc: nat, id: nat, nb: seq<nat>, i: nat)
    requires i < |nb| && PartlyLinked(before, now, s, m, lc, id, nb, i) && Linkable(before, lc, id, nb)
    ensures nb[i] < |now| && lc <= now[nb[i]].level
    ensures NoDup(Neighbors(now, nb[i], lc) + [id])
    ensures forall e | e in Neighbors(now, nb[i], lc) + [id] :: e < |now|
  {
    var u := nb[i];
    assert u in nb && u !in nb[..i];
    assert EdgesOk(now, u, lc, m);
  }

  lemma EdgeInRange(g: Graph, m: nat, u: nat, lc: nat, es: seq<nat>, i: nat)
    requires WellFormed(g, m) && u < |g| && es == Neighbors(g, u, lc) && i < |es|
    ensures es[i] < |g| && es[i] in Neighbors(g, u, lc)
  {
    assert EdgesOk(g, u, lc, m);
    assert es[i] in es;
  }

  /** Nothing reaches a node no edge leads to. */
  lemma ReachAvoids(g: Graph, lc: nat, from: nat, id: nat)
    requires from != id && forall u: nat | u < |g| :: id !in Neighbors(g, u, lc)
    ensures !Reaches(g, lc, from, id)
  {
    forall p: seq<nat> | IsPath(g, lc, p) && p != [] && p[0] == from
      ensures p[|p| - 1] != id
    {
      if |p| > 1 {
        var i := |p| - 2;
        assert p[i + 1] in Neighbors(g, p[i], lc);
      }
    }
  }

  /** Whatever the first `k` of a beam leave out is at least as far as all of them. */
  lemma FirstOfBeatsRest(s: Space, query: seq<real>, visited: set<nat>, beam: seq<nat>, k: nat, i: nat, v: nat)
    requires NearestOf(s, query, Elements(beam), visited) && SortedByDistance(s, query, beam)
    requires i < |FirstOf(beam, k)| && v in visited && v !in FirstOf(beam, k)
    ensures s.Distance(query, beam[i]) <= s.Distance(query, v)
  {
    assert beam[i] in Elements(beam);
    if v in beam {
      var j :| 0 <= j < |beam| && beam[j] == v;
      forall t | 0 <= t < |FirstOf(beam, k)|
        ensures beam[t] in FirstOf(beam, k)
      {
        assert FirstOf(beam, k)[t] == beam[t];
      }
    } else {
      assert v in visited - Elements(beam);
    }
  }

  /** The first node of a beam is no farther than the entry of the search. */
  lemma BeamStartsNear(g: Graph, s: Space, query: seq<real>, entry: nat, ef: int, lc: nat, visited: set<nat>,
                       beam: seq<nat>)
    requires s.Holds(entry) && IsBeam(g, s, query, entry, ef, lc, visited, beam)
    ensures beam != [] && s.Holds(beam[0]) && s.Distance(query, beam[0]) <= s.Distance(query, entry)
  {
    assert entry in visited;
    assert beam[0] in Elements(beam);
    if entry in beam {
      var i :| 0 <= i < |beam| && beam[i] == entry;
    } else {
      assert entry in visited - Elements(beam);
    }
  }

  lemma {:induction false} HopsComeNearer(g: Graph, s: Space, query: seq<real>, lc: nat, p: seq<nat>)
    requires IsWalk(g, s, query, lc, p) && p != [] && s.Holds(p[0])
    ensures s.Holds(p[|p| - 1]) && s.Distance(query, p[|p| - 1]) <= s.Distance(query, p[0])
  {
    if |p| > 1 {
      WalkPart(g, s, query, lc, p, 0, |p| - 1);
      HopsComeNearer(g, s, query, lc, p[..|p| - 1]);
      var i := |p| - 2;
      assert Hop(g, s, query, lc, p[i], p[i + 1]);
    }
  }

  /** Where a descent of one layer ends is no farther than its start and than each neighbour of its start. */
  lemma LeadsNearer(g: Graph, s: Space, query: seq<real>, lc: nat, from: nat, to: nat)
    requires from < |g| && s.Holds(from) && LeadsTo(g, s, query, lc, from, to)
    ensures to < |g| && s.Holds(to) && s.Distance(query, to) <= s.Distance(query, from)
    ensures forall e | e in Neighbors(g, from, lc) :: s.Holds(e) && s.Distance(query, to) <= s.Distance(query, e)
  {
    var p :| IsWalk(g, s, query, lc, p) && p != [] && p[0] == from && p[|p| - 1] == to;
    HopsComeNearer(g, s, query, lc, p);
    if |p| > 1 {
      assert Hop(g, s, query, lc, p[0], p[1]);
      WalkPart(g, s, query, lc, p, 1, |p|);
      HopsComeNearer(g, s, query, lc, p[1..]);
    }
  }

  /** Where a descent ends is no farther than the start, nor than the start's neighbours on its own layer. */
  lemma {:induction false} DescentIsNear(g: Graph, s: Space, query: seq<real>, top: nat, chain: seq<nat>)
    requires s.HoldsBelow(|g|) && IsDescent(g, s, query, top, chain) && chain[0] < |g|
    ensures var to := chain[|chain| - 1];
      && to < |g| && s.Distance(query, to) <= s.Distance(query, chain[0])
      && (|chain| > 1 ==> forall e | e in Neighbors(g, chain[0], top) ::
                            s.Holds(e) && s.Distance(query, to) <= s.Distance(query, e))
  {
    if |chain| > 1 {
      var n := |chain| - 1;
      var front := chain[..n];
      DescentFront(g, s, query, top, chain, n);
      DescentIsNear(g, s, query, top, front);
      assert LeadsTo(g, s, query, top - (n - 1), chain[n - 1], chain[n]);
      LeadsNearer(g, s, query, top - (n - 1), chain[n - 1], chain[n]);
    }
  }

  /** The nodes of a beam, listed: distinct, in order, and the nearest of the first `n` ids, at least `k` if so many. */
  ghost predicate RanksNearest(s: Space, n: nat, query: seq<real>, k: nat, beam: seq<nat>) {
    && NoDup(beam) && SortedByDistance(s, query, beam)
    && NearestOf(s, query, Elements(beam), Ids(n)) && Min(k, n) <= |beam| <= n
  }

  lemma BeamRanksNearest(g: Graph, s: Space, query: seq<real>, entry: nat, ef: int, k: nat, visited: set<nat>,
                         beam: seq<nat>)
    requires Complete(g) && k <= ef && 1 <= ef
    requires IsBeam(g, s, query, entry, ef, 0, visited, beam)
    ensures RanksNearest(s, |g|, query, k, beam)
  {
    BeamOnCompleteLayer(g, |g|, s, query, entry, ef, visited, beam);
  }

  /** On a complete layer 0 a beam at least `k` wide starts with the exact answer. */
  lemma BeamGivesNearest(g: Graph, s: Space, query: seq<real>, entry: nat, ef: int, k: nat, visited: set<nat>,
                         beam: seq<nat>)
    requires s.HoldsBelow(|g|) && Complete(g) && k <= ef && 1 <= ef
    requires IsBeam(g, s, query, entry, ef, 0, visited, beam)
    ensures AreNearest(s, |g|, query, k, Hits(s, query, FirstOf(beam, k)))
  {
    BeamRanksNearest(g, s, query, entry, ef, k, visited, beam);
    NearestVisitedAreNearest(s, |g|, query, k, beam);
  }

  lemma NearestVisitedAreNearest(s: Space, n: nat, query: seq<real>, k: nat, beam: seq<nat>)
    requires s.HoldsBelow(n) && RanksNearest(s, n, query, k, beam)
    ensures AreNearest(s, n, query, k, Hits(s, query, FirstOf(beam, k)))
  {
    FirstOfKeepsOrder(s, n, query, beam, k);
    FirstOfBeatsAll(s, n, query, Ids(n), beam, k);
    HitsAreNearest(s, n, query, k, FirstOf(beam, k));
  }

  lemma FirstOfKeepsOrder(s: Space, n: nat, query: seq<real>, beam: seq<nat>, k: nat)
    requires NoDup(beam) && SortedByDistance(s, query, beam) && Elements(beam) <= Ids(n)
    ensures NoDup(FirstOf(beam, k)) && SortedByDistance(s, query, FirstOf(beam, k))
    ensures forall i | 0 <= i < |FirstOf(beam, k)| :: FirstOf(beam, k)[i] < n
  {
    forall i | 0 <= i < |FirstOf(beam, k)|
      ensures FirstOf(beam, k)[i] < n
    {
      assert beam[i] in Elements(beam);
    }
  }

  lemma FirstOfBeatsAll(s: Space, n: nat, query: seq<real>, visited: set<nat>, beam: seq<nat>, k: nat)
    requires s.HoldsBelow(n) && visited == Ids(n)
    requires NearestOf(s, query, Elements(beam), visited) && SortedByDistance(s, query, beam)
    requires forall i | 0 <= i < |FirstOf(beam, k)| :: FirstOf(beam, k)[i] < n
    ensures forall v: nat, i: nat | v < n && v !in FirstOf(beam, k) && i < |FirstOf(beam, k)| ::
              s.Distance(query, FirstOf(beam, k)[i]) <= s.Distance(query, v)
  {
    forall v: nat, i: nat | v < n && v !in FirstOf(beam, k) && i < |FirstOf(beam, k)|
      ensures s.Distance(query, FirstOf(beam, k)[i]) <= s.Distance(query, v)
    {
      FirstOfBeatsRest(s, query, visited, beam, k, i, v);
    }
  }

  lemma HitsAreNearest(s: Space, n: nat, query: seq<real>, k: nat, ids: seq<nat>)
    requires s.HoldsBelow(n) && |ids| == Min(k, n) && NoDup(ids) && SortedByDistance(s, query, ids)
    requires forall i | 0 <= i < |ids| :: ids[i] < n
    requires forall v: nat, i: nat | v < n && v !in ids && i < |ids| ::
               s.Distance(query, ids[i]) <= s.Distance(query, v)
    ensures AreNearest(s, n, query, k, Hits(s, query, ids))
  {
    var hits := Hits(s, query, ids);
    forall v: nat, i | v < n && !IsHit(hits, v) && 0 <= i < |hits|
      ensures hits[i].score >= s.similarity(query, s.Vector(v))
    {
      assert v !in ids by {
        assert forall j | 0 <= j < |ids| :: hits[j].id == ids[j];
      }
      assert s.Distance(query, ids[i]) <= s.Distance(query, v);
    }
    forall i, j | 0 <= i < j < |hits|
      ensures hits[i].id != hits[j].id && hits[i].score >= hits[j].score
    {
      assert ids[i] != ids[j] && s.Distance(query, ids[i]) <= s.Distance(query, ids[j]);
    }
  }

  /** All exhaustive answers carry the same scores, whatever ids they choose among ties. */
  lemma NearestScoresAreUnique(s: Space, n: nat, query: seq<real>, k: nat, a: seq<SearchHit>, b: seq<SearchHit>)
    requires s.HoldsBelow(n) && AreNearest(s, n, query, k, a) && AreNearest(s, n, query, k, b)
    ensures |a| == |b| && forall i | 0 <= i < |a| :: a[i].score == b[i].score
  {
    forall i | 0 <= i < |a|
      ensures a[i].score == b[i].score
    {
      NoBetterAt(s, n, query, k, a, b, i);
      NoBetterAt(s, n, query, k, b, a, i);
    }
  }

  lemma NoBetterAt(s: Space, n: nat, query: seq<real>, k: nat, a: seq<SearchHit>, b: seq<SearchHit>, i: nat)
    requires s.HoldsBelow(n) && AreNearest(s, n, query, k, a) && AreNearest(s, n, query, k, b) && i < |a|
    ensures a[i].score <= b[i].score
  {
    var front := seq(i + 1, t requires 0 <= t <= i => a[t].id);
    var back := seq(i, t requires 0 <= t < i => b[t].id);
    var t := SomeNotAmong(front, back);
    var v := a[t].id;
    forall r | 0 <= r < i
      ensures b[r].id != v
    {
      assert back[r] == b[r].id && back[r] in back;
    }
    LaterScores(s, n, query, k, b, i, v);
    assert a[t].score >= a[i].score;
  }

  /** A node that is none of the first `i` hits is no more similar than the hit behind them. */
  lemma LaterScores(s: Space, n: nat, query: seq<real>, k: nat, b: seq<SearchHit>, i: nat, v: nat)
    requires s.HoldsBelow(n) && AreNearest(s, n, query, k, b) && i < |b| && v < n
    requires forall r | 0 <= r < i :: b[r].id != v
    ensures b[i].score >= s.similarity(query, s.Vector(v))
  {
    if j: nat :| j < |b| && b[j].id == v {
      assert b[i].score >= b[j].score;
    } else {
      assert !IsHit(b, v);
    }
  }

  lemma SomeNotAmong(front: seq<nat>, back: seq<nat>) returns (t: nat)
    requires NoDup(front) && |back| < |front|
    ensures t < |front| && front[t] !in back
  {
    NoDupCardinality(front);
    ElementsBounded(back);
    if Elements(front) <= Elements(back) {
      SubsetCardinality(Elements(front), Elements(back));
    }
    var v :| v in Elements(front) && v !in Elements(back);
    t :| 0 <= t < |front| && front[t] == v;
  }
}
