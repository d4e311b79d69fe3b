/** The state of a running beam search over one layer and the steps that keep it sound. */
module HnswSearch {
  import opened VectorSpace
  import opened HnswGraph

  ghost predicate Expanded(g: Graph, lc: nat, u: nat, visited: set<nat>)
    requires u < |g|
  {
    forall e | e in Neighbors(g, u, lc) :: e in visited
  }

  /** Every member of `results` is at least as near to `query` as node `v`. */
  ghost predicate NoFarther(s: Space, query: seq<real>, results: multiset<nat>, v: nat)
    requires s.Holds(v)
  {
    forall r | r in results :: s.Holds(r) && s.Distance(query, r) <= s.Distance(query, v)
  }

  /**
   What every step of the search keeps: results and candidates are visited, a visited node outside the results
   lost to a full beam of nodes at least as near, and a result not yet expanded is still a candidate
   or is in `current`, the node being expanded.
   */
  ghost predicate Searching(g: Graph, s: Space, query: seq<real>, entry: nat, ef: int, lc: nat, visited: set<nat>,
                            candidates: multiset<nat>, results: multiset<nat>, current: set<nat>)
    requires s.HoldsBelow(|g|)
  {
    && Explored(g, lc, entry, visited)
    && (forall v | v in candidates :: v in visited)
    && results <= multiset(visited)
    && 0 < |results| <= BeamWidth(ef)
    && (forall v | v in visited && v !in results :: |results| == BeamWidth(ef) && NoFarther(s, query, results, v))
    && (forall r | r in results :: r in candidates || r in current || Expanded(g, lc, r, visited))
  }

  lemma ExploredGrows(g: Graph, lc: nat, entry: nat, visited: set<nat>, u: nat, v: nat)
    requires Explored(g, lc, entry, visited) && u in visited && u < |g| && v in Neighbors(g, u, lc) && v < |g|
    ensures Explored(g, lc, entry, visited + {v})
  {
    ReachesStep(g, lc, entry, u, v);
  }

  lemma SearchStarts(g: Graph, s: Space, query: seq<real>, entry: nat, ef: int, lc: nat)
    requires entry < |g| && s.HoldsBelow(|g|)
    ensures Searching(g, s, query, entry, ef, lc, {entry}, multiset{entry}, multiset{entry}, {})
  {
    ReachesItself(g, lc, entry);
  }

  /** A neighbour that meets a beam with room joins it. */
  lemma NeighborJoins(g: Graph, s: Space, query: seq<real>, entry: nat, ef: int, lc: nat, visited: set<nat>,
                      candidates: multiset<nat>, results: multiset<nat>, u: nat, v: nat)
    requires s.HoldsBelow(|g|) && Searching(g, s, query, entry, ef, lc, visited, candidates, results, {u})
    requires u in visited && u < |g| && v in Neighbors(g, u, lc) && v < |g| && v !in visited
    requires |results| < BeamWidth(ef)
    ensures Searching(g, s, query, entry, ef, lc, visited + {v}, candidates + multiset{v}, results + multiset{v}, {u})
  {
    ExploredGrows(g, lc, entry, visited, u, v);
  }

  /** A neighbour that meets a full beam takes part in it, and a farthest member `x` leaves. */
  lemma NeighborReplaces(g: Graph, s: Space, query: seq<real>, entry: nat, ef: int, lc: nat, visited: set<nat>,
                         candidates: multiset<nat>, results: multiset<nat>, u: nat, v: nat, x: nat)
    requires s.HoldsBelow(|g|) && Searching(g, s, query, entry, ef, lc, visited, candidates, results, {u})
    requires u in visited && u < |g| && v in Neighbors(g, u, lc) && v < |g| && v !in visited
    requires |results| == BeamWidth(ef)
    requires x in results + multiset{v} && s.Holds(x) && NoFarther(s, query, results + multiset{v}, x)
    ensures Searching(g, s, query, entry, ef, lc, visited + {v}, candidates + multiset{v},
                      results + multiset{v} - multiset{x}, {u})
  {
    var after := results + multiset{v} - multiset{x};
    assert |after| == |results|;
    assert after <= results + multiset{v} <= multiset(visited + {v});
    ExploredGrows(g, lc, entry, visited, u, v);
    PendingAfterReplacing(g, s, query, entry, ef, lc, visited, candidates, results, u, v, x);
    LosersAfterReplacing(g, s, query, entry, ef, lc, visited, candidates, results, u, v, x);
  }

  lemma PendingAfterReplacing(g: Graph, s: Space, query: seq<real>, entry: nat, ef: int, lc: nat,
                              visited: set<nat>, candidates: multiset<nat>, results: multiset<nat>,
                              u: nat, v: nat, x: nat)
    requires s.HoldsBelow(|g|) && Searching(g, s, query, entry, ef, lc, visited, candidates, results, {u})
    requires v < |g|
    ensures forall r | r in results + multiset{v} - multiset{x} ::
              r < |g| && (r in candidates + multiset{v} || r in {u} || Expanded(g, lc, r, visited + {v}))
  {
    forall r | r in results + multiset{v} - multiset{x} && r != v
      ensures r < |g| && (r in candidates + multiset{v} || r in {u} || Expanded(g, lc, r, visited + {v}))
    {
      assert r in results && r in visited;
      assert r in candidates || r == u || Expanded(g, lc, r, visited);
    }
  }

  lemma LosersAfterReplacing(g: Graph, s: Space, query: seq<real>, entry: nat, ef: int, lc: nat,
                             visited: set<nat>, candidates: multiset<nat>, results: multiset<nat>,
                             u: nat, v: nat, x: nat)
    requires s.HoldsBelow(|g|) && Searching(g, s, query, entry, ef, lc, visited, candidates, results, {u})
    requires v < |g| && v !in visited && s.Holds(x)
    requires x in results + multiset{v} && NoFarther(s, query, results + multiset{v}, x)
    ensures forall w | w in visited + {v} && w !in results + multiset{v} - multiset{x} ::
              s.Holds(w) && NoFarther(s, query, results + multiset{v} - multiset{x}, w)
  {
    forall w | w in visited + {v} && w !in results + multiset{v} - multiset{x}
      ensures s.Holds(w) && NoFarther(s, query, results + multiset{v} - multiset{x}, w)
    {
      if w != x {
        assert w != v && w !in results;
        assert NoFarther(s, query, results, w);
        ReplacedNoFarther(s, query, results, v, x, w);
      }
    }
  }

  lemma ReplacedNoFarther(s: Space, query: seq<real>, results: multiset<nat>, v: nat, x: nat, w: nat)
    requires s.Holds(w) && s.Holds(x) && NoFarther(s, query, results, w)
    requires x in results + multiset{v} && NoFarther(s, query, results + multiset{v}, x)
    ensures NoFarther(s, query, results + multiset{v} - multiset{x}, w)
  {
    if x == v {
      assert results + multiset{v} - multiset{x} == results;
    } else {
      assert s.Distance(query, x) <= s.Distance(query, w);
    }
  }

  /** A neighbour that meets a full beam and is at least as far as all of it only becomes visited. */
  lemma NeighborRejected(g: Graph, s: Space, query: seq<real>, entry: nat, ef: int, lc: nat, visited: set<nat>,
                         candidates: multiset<nat>, results: multiset<nat>, u: nat, v: nat)
    requires s.HoldsBelow(|g|) && Searching(g, s, query, entry, ef, lc, visited, candidates, results, {u})
    requires u in visited && u < |g| && v in Neighbors(g, u, lc) && v < |g| && v !in visited
    requires |results| == BeamWidth(ef) && NoFarther(s, query, results, v)
    ensures Searching(g, s, query, entry, ef, lc, visited + {v}, candidates, results, {u})
  {
    ExploredGrows(g, lc, entry, visited, u, v);
  }

  // ------------------------------------------------ the order of expansion

  /**
   What ties a running search to the nodes it has expanded: they have been visited, a candidate is visited, not expanded
   and listed once, and every result is a candidate still or has been expanded.
   */
  ghost predicate Traced(visited: set<nat>, candidates: multiset<nat>, results: multiset<nat>, order: seq<nat>) {
    && (forall u | u in order :: u in visited)
    && (forall c | c in candidates :: c in visited && c !in order && candidates[c] == 1)
    && (forall r | r in results :: r in candidates || r in order)
  }

  lemma TraceAdmits(visited: set<nat>, candidates: multiset<nat>, results: multiset<nat>, order: seq<nat>, v: nat,
                    after: multiset<nat>)
    requires Traced(visited, candidates, results, order) && v !in visited && after <= results + multiset{v}
    ensures Traced(visited + {v}, candidates + multiset{v}, after, order)
  {
  }

  lemma TraceTakes(visited: set<nat>, candidates: multiset<nat>, results: multiset<nat>, order: seq<nat>, u: nat)
    requires Traced(visited, candidates + multiset{u}, results, order)
    ensures Traced(visited, candidates, results, order + [u]) && u !in order && u in visited
  {
    assert u in candidates + multiset{u};
    assert (candidates + multiset{u})[u] == candidates[u] + 1;
    assert forall c | c in candidates && c != u :: (candidates + multiset{u})[c] == candidates[c];
  }

  /** The test before a node is expanded: the beam has room, or the node is no farther than some member `r`. */
  ghost predicate Hopeful(s: Space, query: seq<real>, ef: int, results: multiset<nat>, u: nat, r: nat)
    requires s.Holds(u)
  {
    |results| < ef || (r in results && s.Holds(r) && s.Distance(query, u) <= s.Distance(query, r))
  }

  lemma NearestUnexpanded(g: Graph, s: Space, query: seq<real>, entry: nat, ef: int, lc: nat, visited: set<nat>,
                          candidates: multiset<nat>, results: multiset<nat>, order: seq<nat>, u: nat, r: nat, v: nat)
    requires s.HoldsBelow(|g|) && s.Holds(u) && u in candidates
    requires Searching(g, s, query, entry, ef, lc, visited, candidates, results, {})
    requires Traced(visited, candidates, results, order) && Hopeful(s, query, ef, results, u, r)
    requires forall c | c in candidates :: s.Holds(c) && s.Distance(query, u) <= s.Distance(query, c)
    requires v in visited && v !in order
    ensures s.Holds(v) && s.Distance(query, u) <= s.Distance(query, v)
  {
    if v !in candidates {
      assert v !in results;
      assert NoFarther(s, query, results, v);
    }
  }

  lemma FewAreNearer(g: Graph, s: Space, query: seq<real>, entry: nat, ef: int, lc: nat, visited: set<nat>,
                     candidates: multiset<nat>, results: multiset<nat>, u: nat, r: nat)
    requires s.HoldsBelow(|g|) && s.Holds(u) && u in visited
    requires Searching(g, s, query, entry, ef, lc, visited, candidates, results, {})
    requires Hopeful(s, query, ef, results, u, r)
    ensures |Nearer(s, query, visited, u)| < BeamWidth(ef)
  {
    var nearer := Nearer(s, query, visited, u);
    var x := if |results| < ef then u else r;
    forall v | v in nearer
      ensures v in results && v != x
    {
      assert v in visited;
    }
    assert x in results by {
      if |results| < ef {
        assert forall v | v in visited :: v in results;
      }
    }
    assert multiset(nearer + {x}) <= results;
    BagCardinality(nearer + {x}, results);
  }

  lemma BagCardinality(a: set<nat>, b: multiset<nat>)
    requires multiset(a) <= b
    ensures |a| <= |b|
  {
    assert |multiset(a)| == |a|;
    assert b == multiset(a) + (b - multiset(a));
  }

  /** The candidate taken, when the search goes on with it, is the one a best-first search expands next. */
  lemma TakenComesNext(g: Graph, s: Space, query: seq<real>, entry: nat, ef: int, lc: nat, visited: set<nat>,
                       candidates: multiset<nat>, results: multiset<nat>, order: seq<nat>, u: nat, r: nat)
    requires s.HoldsBelow(|g|) && s.Holds(u) && u in candidates
    requires Searching(g, s, query, entry, ef, lc, visited, candidates, results, {})
    requires Traced(visited, candidates, results, order) && Hopeful(s, query, ef, results, u, r)
    requires forall c | c in candidates :: s.Holds(c) && s.Distance(query, u) <= s.Distance(query, c)
    ensures ComesNext(s, query, ef, visited, order, u)
  {
    FewAreNearer(g, s, query, entry, ef, lc, visited, candidates, results, u, r);
    forall v | v in visited && v !in order
      ensures s.Holds(v) && s.Distance(query, u) <= s.Distance(query, v)
    {
      NearestUnexpanded(g, s, query, entry, ef, lc, visited, candidates, results, order, u, r, v);
    }
  }

  /** When the search stops early, every result has been expanded. */
  lemma StoppedTrace(s: Space, query: seq<real>, visited: set<nat>, candidates: multiset<nat>, results: multiset<nat>,
                     order: seq<nat>, nearest: nat, farthest: nat)
    requires s.Holds(nearest) && s.Holds(farthest)
    requires Traced(visited, candidates, results, order)
    requires forall c | c in candidates :: s.Holds(c) && s.Distance(query, nearest) <= s.Distance(query, c)
    requires NoFarther(s, query, results, farthest) && s.Distance(query, nearest) > s.Distance(query, farthest)
    ensures Traced(visited, multiset{}, results, order)
  {
  }

  // ---------------------------------------------------- taking and finishing

  lemma CandidateTaken(g: Graph, s: Space, query: seq<real>, entry: nat, ef: int, lc: nat, visited: set<nat>,
                       candidates: multiset<nat>, results: multiset<nat>, u: nat)
    requires s.HoldsBelow(|g|)
    requires Searching(g, s, query, entry, ef, lc, visited, candidates + multiset{u}, results, {})
    ensures Searching(g, s, query, entry, ef, lc, visited, candidates, results, {u})
  {
  }

  lemma CurrentExpanded(g: Graph, s: Space, query: seq<real>, entry: nat, ef: int, lc: nat, visited: set<nat>,
                        candidates: multiset<nat>, results: multiset<nat>, u: nat)
    requires s.HoldsBelow(|g|) && u < |g| && Expanded(g, lc, u, visited)
    requires Searching(g, s, query, entry, ef, lc, visited, candidates, results, {u})
    ensures Searching(g, s, query, entry, ef, lc, visited, candidates, results, {})
  {
  }

  // The search between two rounds, and while a node is expanded

  /** A search about to take its next candidate: it has expanded the nodes of `order`, best first. */
  ghost predicate Running(g: Graph, s: Space, query: seq<real>, entry: nat, ef: int, lc: nat, visited: set<nat>,
                          candidates: multiset<nat>, results: multiset<nat>, order: seq<nat>)
    requires s.HoldsBelow(|g|)
  {
    && Searching(g, s, query, entry, ef, lc, visited, candidates, results, {})
    && Traced(visited, candidates, results, order)
    && BestFirst(g, s, query, entry, ef, lc, order) && visited == Seen(g, lc, entry, order)
  }

  /** A search that is expanding `u`, the last node of `order`. */
  ghost predicate Expanding(g: Graph, s: Space, query: seq<real>, entry: nat, ef: int, lc: nat, visited: set<nat>,
                            candidates: multiset<nat>, results: multiset<nat>, order: seq<nat>, u: nat)
    requires s.HoldsBelow(|g|)
  {
    && u in visited && u < |g|
    && Searching(g, s, query, entry, ef, lc, visited, candidates, results, {u})
    && Traced(visited, candidates, results, order)
  }

  lemma RunningStarts(g: Graph, s: Space, query: seq<real>, entry: nat, ef: int, lc: nat)
    requires entry < |g| && s.HoldsBelow(|g|)
    ensures Running(g, s, query, entry, ef, lc, {entry}, multiset{entry}, multiset{entry}, [])
  {
    SearchStarts(g, s, query, entry, ef, lc);
  }

  /** The next candidate is in range, and there is a result to compare it with. */
  lemma RunningIsInRange(g: Graph, s: Space, query: seq<real>, entry: nat, ef: int, lc: nat, visited: set<nat>,
                         candidates: multiset<nat>, results: multiset<nat>, order: seq<nat>, u: nat)
    requires s.HoldsBelow(|g|) && u in candidates
    requires Running(g, s, query, entry, ef, lc, visited, candidates, results, order)
    ensures u < |g| && |results| > 0
  {
  }

  lemma RunStops(g: Graph, s: Space, query: seq<real>, entry: nat, ef: int, lc: nat, visited: set<nat>,
                 candidates: multiset<nat>, results: multiset<nat>, order: seq<nat>, nearest: nat, farthest: nat)
    requires s.HoldsBelow(|g|) && s.Holds(nearest) && s.Holds(farthest)
    requires Running(g, s, query, entry, ef, lc, visited, candidates + multiset{nearest}, results, order)
    requires NoNearer(s, query, candidates, nearest)
    requires NoFarther(s, query, results, farthest)
    requires s.Distance(query, nearest) > s.Distance(query, farthest)
    ensures Running(g, s, query, entry, ef, lc, visited, multiset{}, results, order)
  {
    EarlyExitLeavesNothing(g, s, query, entry, ef, lc, visited, candidates, results, nearest, farthest);
    StoppedTrace(s, query, visited, candidates + multiset{nearest}, results, order, nearest, farthest);
  }

  lemma RunTakes(g: Graph, s: Space, query: seq<real>, entry: nat, ef: int, lc: nat, visited: set<nat>,
                 candidates: multiset<nat>, results: multiset<nat>, order: seq<nat>, u: nat, r: nat)
    requires s.HoldsBelow(|g|) && u < |g| && Hopeful(s, query, ef, results, u, r)
    requires Running(g, s, query, entry, ef, lc, visited, candidates + multiset{u}, results, order)
    requires NoNearer(s, query, candidates, u)
    ensures Expanding(g, s, query, entry, ef, lc, visited, candidates, results, order + [u], u)
    ensures BestFirst(g, s, query, entry, ef, lc, order + [u])
    ensures Seen(g, lc, entry, order + [u]) == visited + Elements(Neighbors(g, u, lc))
  {
    TakenComesNext(g, s, query, entry, ef, lc, visited, candidates + multiset{u}, results, order, u, r);
    TraceTakes(visited, candidates, results, order, u);
    BestFirstGrows(g, s, query, entry, ef, lc, order, u);
    SeenGrows(g, lc, entry, order, u);
    CandidateTaken(g, s, query, entry, ef, lc, visited, candidates, results, u);
  }

  lemma RunGoesOn(g: Graph, s: Space, query: seq<real>, entry: nat, ef: int, lc: nat, visited: set<nat>,
                  candidates: multiset<nat>, results: multiset<nat>, order: seq<nat>, u: nat)
    requires s.HoldsBelow(|g|) && BestFirst(g, s, query, entry, ef, lc, order)
    requires Expanding(g, s, query, entry, ef, lc, visited, candidates, results, order, u)
    requires visited == Seen(g, lc, entry, order) && Elements(Neighbors(g, u, lc)) <= visited
    ensures Running(g, s, query, entry, ef, lc, visited, candidates, results, order) && visited <= Ids(|g|)
  {
    forall e | e in Neighbors(g, u, lc)
      ensures e in visited
    {
      assert e in Elements(Neighbors(g, u, lc));
    }
    CurrentExpanded(g, s, query, entry, ef, lc, visited, candidates, results, u);
    VisitedInIds(g, s, query, entry, ef, lc, visited, candidates, results);
  }

  // One unvisited neighbour `v` of the node being expanded

  lemma ExpandingJoins(g: Graph, s: Space, query: seq<real>, entry: nat, ef: int, lc: nat, visited: set<nat>,
                       candidates: multiset<nat>, results: multiset<nat>, order: seq<nat>, u: nat, v: nat)
    requires s.HoldsBelow(|g|) && Expanding(g, s, query, entry, ef, lc, visited, candidates, results, order, u)
    requires v in Neighbors(g, u, lc) && v < |g| && v !in visited && |results| < BeamWidth(ef)
    ensures Expanding(g, s, query, entry, ef, lc, visited + {v}, candidates + multiset{v}, results + multiset{v},
                      order, u)
  {
    NeighborJoins(g, s, query, entry, ef, lc, visited, candidates, results, u, v);
    TraceAdmits(visited, candidates, results, order, v, results + multiset{v});
  }

  lemma ExpandingReplaces(g: Graph, s: Space, query: seq<real>, entry: nat, ef: int, lc: nat, visited: set<nat>,
                          candidates: multiset<nat>, results: multiset<nat>, order: seq<nat>, u: nat, v: nat, x: nat)
    requires s.HoldsBelow(|g|) && Expanding(g, s, query, entry, ef, lc, visited, candidates, results, order, u)
    requires v in Neighbors(g, u, lc) && v < |g| && v !in visited && |results| == BeamWidth(ef)
    requires x in results + multiset{v} && s.Holds(x) && NoFarther(s, query, results + multiset{v}, x)
    ensures Expanding(g, s, query, entry, ef, lc, visited + {v}, candidates + multiset{v},
                      results + multiset{v} - multiset{x}, order, u)
  {
    NeighborReplaces(g, s, query, entry, ef, lc, visited, candidates, results, u, v, x);
    TraceAdmits(visited, candidates, results, order, v, results + multiset{v} - multiset{x});
  }

  lemma ExpandingRejects(g: Graph, s: Space, query: seq<real>, entry: nat, ef: int, lc: nat, visited: set<nat>,
                         candidates: multiset<nat>, results: multiset<nat>, order: seq<nat>, u: nat, v: nat)
    requires s.HoldsBelow(|g|) && Expanding(g, s, query, entry, ef, lc, visited, candidates, results, order, u)
    requires v in Neighbors(g, u, lc) && v < |g| && v !in visited
    requires |results| == BeamWidth(ef) && NoFarther(s, query, results, v)
    ensures Expanding(g, s, query, entry, ef, lc, visited + {v}, candidates, results, order, u)
  {
    NeighborRejected(g, s, query, entry, ef, lc, visited, candidates, results, u, v);
  }

  lemma ResultsFit(g: Graph, s: Space, query: seq<real>, entry: nat, ef: int, lc: nat, visited: set<nat>,
                   candidates: multiset<nat>, results: multiset<nat>, order: seq<nat>, u: nat)
    requires s.HoldsBelow(|g|) && Expanding(g, s, query, entry, ef, lc, visited, candidates, results, order, u)
    ensures 0 < |results| <= BeamWidth(ef)
  {
  }

  /** The first `i` edges have been looked at. */
  ghost predicate LookedAt(before: set<nat>, es: seq<nat>, i: nat, visited: set<nat>)
    requires i <= |es|
  {
    visited == before + Elements(es[..i])
  }

  lemma LookedAtNone(before: set<nat>, es: seq<nat>)
    ensures LookedAt(before, es, 0, before) && (es == [] ==> before + Elements(es) == before)
  {
  }

  lemma LookedAtOneMore(before: set<nat>, es: seq<nat>, i: nat, visited: set<nat>)
    requires i < |es| && LookedAt(before, es, i, visited)
    ensures LookedAt(before, es, i + 1, visited + {es[i]})
    ensures visited + {es[i]} == before ==> visited == before
  {
    assert Elements(es[..i + 1]) == Elements(es[..i]) + {es[i]};
  }

  lemma LookedAtAll(before: set<nat>, es: seq<nat>, visited: set<nat>)
    requires LookedAt(before, es, |es|, visited)
    ensures visited == before + Elements(es)
  {
    assert es[..|es|] == es;
  }

  /** Every one of `candidates` is at least as far from `query` as node `u`. */
  ghost predicate NoNearer(s: Space, query: seq<real>, candidates: multiset<nat>, u: nat) {
    s.Holds(u) && forall c | c in candidates :: s.Holds(c) && s.Distance(query, u) <= s.Distance(query, c)
  }

  /** The early exit is sound: when the nearest candidate is farther than a farthest result, no result is pending. */
  lemma EarlyExitLeavesNothing(g: Graph, s: Space, query: seq<real>, entry: nat, ef: int, lc: nat, visited: set<nat>,
                               candidates: multiset<nat>, results: multiset<nat>, nearest: nat, farthest: nat)
    requires s.HoldsBelow(|g|) && s.Holds(nearest) && s.Holds(farthest)
    requires Searching(g, s, query, entry, ef, lc, visited, candidates + multiset{nearest}, results, {})
    requires forall c | c in candidates :: s.Holds(c) && s.Distance(query, nearest) <= s.Distance(query, c)
    requires NoFarther(s, query, results, farthest)
    requires s.Distance(query, nearest) > s.Distance(query, farthest)
    ensures Searching(g, s, query, entry, ef, lc, visited, multiset{}, results, {})
  {
  }

  lemma VisitedInIds(g: Graph, s: Space, query: seq<real>, entry: nat, ef: int, lc: nat, visited: set<nat>,
                     candidates: multiset<nat>, results: multiset<nat>)
    requires s.HoldsBelow(|g|) && Searching(g, s, query, entry, ef, lc, visited, candidates, results, {})
    ensures visited <= Ids(|g|)
  {
  }

  /** Looking at more nodes leaves strictly fewer to look at. */
  lemma RestShrinks(all: set<nat>, before: set<nat>, visited: set<nat>)
    requires before <= visited <= all && before != visited
    ensures all - visited < all - before
  {
    assert !(visited <= before);
    var v :| v in visited && v !in before;
    assert v in all - before && v !in all - visited;
  }

  lemma PrependNearer(s: Space, query: seq<real>, x: nat, done: seq<nat>)
    requires s.Holds(x) && SortedByDistance(s, query, done)
    requires done != [] ==> s.Distance(query, x) <= s.Distance(query, done[0])
    ensures SortedByDistance(s, query, [x] + done)
    ensures multiset([x] + done) == multiset{x} + multiset(done)
  {
  }

  lemma DistinctList(s: seq<nat>, members: set<nat>)
    requires multiset(s) <= multiset(members)
    ensures NoDup(s) && Elements(s) <= members
    ensures forall v :: v in s <==> v in multiset(s)
  {
    forall i, j | 0 <= i < j < |s|
      ensures s[i] != s[j]
    {
      assert s == s[..j] + [s[j]] + s[j + 1..];
      assert s[..j][i] == s[i];
      assert multiset(s)[s[j]] >= multiset(s[..j])[s[j]] + 1;
    }
    forall v | v in s
      ensures v in members
    {
      assert v in multiset(s);
    }
  }

  lemma ResultsAreNearest(g: Graph, s: Space, query: seq<real>, entry: nat, ef: int, lc: nat, visited: set<nat>,
                          results: multiset<nat>, out: seq<nat>)
    requires s.HoldsBelow(|g|) && Searching(g, s, query, entry, ef, lc, visited, multiset{}, results, {})
    requires Elements(out) <= visited && forall v :: v in out <==> v in results
    ensures NearestOf(s, query, Elements(out), visited)
    ensures Elements(out) != visited ==> |results| == BeamWidth(ef)
  {
    forall r, v | r in Elements(out) && v in visited - Elements(out)
      ensures s.Distance(query, r) <= s.Distance(query, v)
    {
      assert r in results && v !in results;
      assert NoFarther(s, query, results, v);
    }
    if Elements(out) != visited {
      var v :| v in visited - Elements(out);
      assert v !in results;
    }
  }

  lemma FinishedTrace(visited: set<nat>, results: multiset<nat>, order: seq<nat>, out: seq<nat>)
    requires Traced(visited, multiset{}, results, order) && multiset(out) == results
    ensures forall r | r in out :: r in order
  {
    assert forall r | r in out :: r in multiset(out);
  }

  /** A finished search whose results are listed in order is a closed beam. */
  lemma FinishedSearchIsBeam(g: Graph, s: Space, query: seq<real>, entry: nat, ef: int, lc: nat, visited: set<nat>,
                             results: multiset<nat>, out: seq<nat>)
    requires s.HoldsBelow(|g|) && Searching(g, s, query, entry, ef, lc, visited, multiset{}, results, {})
    requires multiset(out) == results && SortedByDistance(s, query, out)
    ensures IsBeam(g, s, query, entry, ef, lc, visited, out)
  {
    DistinctList(out, visited);
    NoDupCardinality(out);
    SubsetCardinality(Elements(out), visited);
    assert |out| == |multiset(out)|;
    ResultsAreNearest(g, s, query, entry, ef, lc, visited, results, out);
    forall r | r in out && r < |g|
      ensures forall e | e in Neighbors(g, r, lc) :: e in visited
    {
      assert Expanded(g, lc, r, visited);
    }
  }

  /** A finished search is a best-first search. */
  lemma FinishedSearchIsBest(g: Graph, s: Space, query: seq<real>, entry: nat, ef: int, lc: nat, visited: set<nat>,
                             results: multiset<nat>, order: seq<nat>, out: seq<nat>)
    requires s.HoldsBelow(|g|) && Running(g, s, query, entry, ef, lc, visited, multiset{}, results, order)
    requires multiset(out) == results && SortedByDistance(s, query, out)
    ensures IsSearch(g, s, query, entry, ef, lc, order, out)
  {
    FinishedSearchIsBeam(g, s, query, entry, ef, lc, visited, results, out);
    FinishedTrace(visited, results, order, out);
  }
}
