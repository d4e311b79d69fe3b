/** What inserting one node does to the layered graph, layer by layer from the top. */
module HnswInsertion {
  import opened VectorSpace
  import opened HnswGraph
  import opened Numbers

  function FreshNode(level: nat): (n: Node) {
    Node(seq(level + 1, _ => []), level)
  }

  function SetEdges(g: Graph, u: nat, lc: nat, es: seq<nat>): (h: Graph)
    requires u < |g| && lc < |g[u].connections|
  {
    g[u := g[u].(connections := g[u].connections[lc := es])]
  }

  ghost predicate SameLevels(g: Graph, h: Graph) {
    |g| == |h| && forall u: nat | u < |g| :: g[u].level == h[u].level
  }

  ghost predicate SameOtherLayers(g: Graph, h: Graph, lc: nat) {
    forall l: nat | l != lc :: SameLayer(g, h, l)
  }

  /** Replacing one edge list by an admissible one keeps the invariant and touches nothing else. */
  lemma SetEdgesEffect(g: Graph, m: nat, u: nat, lc: nat, es: seq<nat>)
    requires WellFormed(g, m) && u < |g| && lc <= g[u].level
    requires |es| <= MaxConn(m, lc) && NoDup(es)
    requires forall e | e in es :: e < |g| && e != u && lc <= g[e].level
    ensures var h := SetEdges(g, u, lc, es);
      && WellFormed(h, m) && SameLevels(g, h) && SameOtherLayers(g, h, lc)
      && Neighbors(h, u, lc) == es
      && (forall v: nat | v < |g| && v != u :: Neighbors(h, v, lc) == Neighbors(g, v, lc))
  {
    var h := SetEdges(g, u, lc, es);
    forall v: nat, l: nat | v < |h|
      ensures EdgesOk(h, v, l, m)
    {
      assert EdgesOk(g, v, l, m);
    }
  }

  // ------------------------------------------------------ linking one layer

  /** The first `i` entries of `nb` have their edge back to `id`. */
  ghost predicate PartlyLinked(before: Graph, now: Graph, s: Space, m: nat, lc: nat, id: nat, nb: seq<nat>, i: nat)
    requires i <= |nb|
  {
    && WellFormed(now, m) && SameLevels(before, now) && SameOtherLayers(before, now, lc)
    && id < |now| && s.HoldsBelow(|now|)
    && Neighbors(now, id, lc) == nb
    && (forall u: nat | u < |now| && u != id ::
          if u in nb[..i] then
            IsSelection(s, s.Vector(u), Neighbors(before, u, lc) + [id], MaxConn(m, lc), Neighbors(now, u, lc))
          else
            Neighbors(now, u, lc) == Neighbors(before, u, lc))
  }

  /** The nodes a layer may be linked to: distinct, high enough, not `id`, and without an edge to `id`. */
  ghost predicate Linkable(g: Graph, lc: nat, id: nat, nb: seq<nat>) {
    && NoDup(nb)
    && id < |g| && lc <= g[id].level
    && (forall v | v in nb :: v < |g| && v != id && lc <= g[v].level && id !in Neighbors(g, v, lc))
  }

  lemma SelectionIsAdmissible(g: Graph, s: Space, m: nat, lc: nat, id: nat, u: nat, out: seq<nat>)
    requires WellFormed(g, m) && s.HoldsBelow(|g|) && u < |g| && id < |g| && u != id
    requires lc <= g[id].level && id !in Neighbors(g, u, lc)
    requires IsSelection(s, s.Vector(u), Neighbors(g, u, lc) + [id], MaxConn(m, lc), out)
    ensures |out| <= MaxConn(m, lc) && NoDup(out)
    ensures forall e | e in out :: e < |g| && e != u && lc <= g[e].level
  {
    assert EdgesOk(g, u, lc, m);
    forall e | e in out
      ensures e in Neighbors(g, u, lc) || e == id
    {
      assert e in Elements(out);
      assert e in Elements(Neighbors(g, u, lc) + [id]);
    }
  }

  lemma LinkStarts(before: Graph, s: Space, m: nat, lc: nat, id: nat, nb: seq<nat>)
    requires WellFormed(before, m) && s.HoldsBelow(|before|) && Linkable(before, lc, id, nb)
    requires |nb| <= MaxConn(m, lc)
    ensures PartlyLinked(before, SetEdges(before, id, lc, nb), s, m, lc, id, nb, 0)
  {
    SetEdgesEffect(before, m, id, lc, nb);
  }

  lemma LinkOneMore(before: Graph, now: Graph, s: Space, m: nat, lc: nat, id: nat, nb: seq<nat>, i: nat,
                    out: seq<nat>)
    requires i < |nb| && PartlyLinked(before, now, s, m, lc, id, nb, i) && Linkable(before, lc, id, nb)
    requires nb[i] < |now|
    requires WellFormed(before, m)
    requires IsSelection(s, s.Vector(nb[i]), Neighbors(now, nb[i], lc) + [id], MaxConn(m, lc), out)
    ensures lc < |now[nb[i]].connections|
    ensures PartlyLinked(before, SetEdges(now, nb[i], lc, out), s, m, lc, id, nb, i + 1)
  {
    var u := nb[i];
    assert u in nb && u !in nb[..i];
    assert Neighbors(now, u, lc) == Neighbors(before, u, lc);
    SelectionIsAdmissible(now, s, m, lc, id, u, out);
    SetEdgesEffect(now, m, u, lc, out);
    assert nb[..i + 1] == nb[..i] + [u];
    forall l: nat | l != lc
      ensures SameLayer(before, SetEdges(now, u, lc, out), l)
    {
      assert SameLayer(before, now, l) && SameLayer(now, SetEdges(now, u, lc, out), l);
    }
  }

  // ------------------------------------------------------- the whole insertion

  /** Layer `lc` of `after` is layer `lc` of `start` with `id` linked along the beam a search from `entry` finds. */
  ghost predicate InsertedAt(start: Graph, after: Graph, s: Space, m: nat, ef: int, vector: seq<real>,
                             id: nat, lc: nat, entry: nat, beam: seq<nat>) {
    exists order: seq<nat> {:trigger IsSearch(start, s, vector, entry, ef, lc, order, beam)} ::
      && IsSearch(start, s, vector, entry, ef, lc, order, beam)
      && id !in Seen(start, lc, entry, order)
      && LinkedAt(start, after, s, m, lc, id, beam)
  }

  /** Where the search of the `i`-th layer from the top starts: at the nearest node found in the layer above. */
  function EntryOf(first: nat, beams: seq<seq<nat>>, i: nat): (entry: nat)
    requires i <= |beams|
  {
    if i == 0 || beams[i - 1] == [] then first else beams[i - 1][0]
  }

  /** The first `k` layers from `top` down have their links to `id`. */
  ghost predicate LinkedUpTo(start: Graph, now: Graph, s: Space, m: nat, ef: int, vector: seq<real>, id: nat,
                             top: nat, first: nat, beams: seq<seq<nat>>, k: nat)
    requires k <= |beams| && k <= top + 1
  {
    forall i: nat {:trigger EntryOf(first, beams, i)} | i < k ::
      InsertedAt(start, now, s, m, ef, vector, id, top - i, EntryOf(first, beams, i), beams[i])
  }

  /** As many layers from `top` down as there are beams have their links to `id`. */
  ghost predicate LinkedLayers(start: Graph, now: Graph, s: Space, m: nat, ef: int, vector: seq<real>, id: nat,
                               top: nat, first: nat, beams: seq<seq<nat>>)
    requires |beams| <= top + 1
  {
    LinkedUpTo(start, now, s, m, ef, vector, id, top, first, beams, |beams|)
  }

  /** The layers up to `lc` and those above `top` are as before. */
  ghost predicate OtherLayersKept(start: Graph, now: Graph, lc: int, top: nat) {
    forall l: nat | l <= lc || top < l :: SameLayer(start, now, l)
  }

  /** A well-formed graph that differs from `start` in the edges of the layers above `lc`, up to `top`, at most. */
  ghost predicate LinkedAbove(start: Graph, now: Graph, m: nat, lc: int, top: nat) {
    WellFormed(now, m) && SameLevels(start, now) && OtherLayersKept(start, now, lc, top)
  }

  ghost predicate LayersDone(start: Graph, now: Graph, s: Space, m: nat, ef: int, vector: seq<real>, id: nat,
                             top: nat, first: nat, beams: seq<seq<nat>>) {
    && |beams| <= top + 1 && LinkedAbove(start, now, m, top - |beams|, top)
    && LinkedLayers(start, now, s, m, ef, vector, id, top, first, beams)
  }

  /**
   A whole insertion of a node of the given level: greedily down to the layer above its top layer, then layer by layer
   along beams that start one at the nearest node of the other.
   */
  ghost predicate Inserted(before: Graph, after: Graph, s: Space, m: nat, ef: int, vector: seq<real>, level: nat,
                           entryPoint: int, maxLevel: nat, chain: seq<nat>, beams: seq<seq<nat>>) {
    var start, top := before + [FreshNode(level)], Min(level, maxLevel);
    && IsDescent(start, s, vector, maxLevel, chain) && |chain| == maxLevel - top + 1 && chain[0] == entryPoint
    && |beams| == top + 1
    && LayersDone(start, after, s, m, ef, vector, |before|, top, chain[|chain| - 1], beams)
  }

  lemma LinkedAtOnlyNeedsLayer(g: Graph, g': Graph, h: Graph, h': Graph, s: Space, m: nat, lc: nat, id: nat,
                               beam: seq<nat>)
    requires LinkedAt(g, h, s, m, lc, id, beam) && SameLayer(g, g', lc) && SameLayer(h, h', lc)
    ensures LinkedAt(g', h', s, m, lc, id, beam)
  {
  }

  lemma {:induction false} SameLayerSameSeen(g: Graph, h: Graph, lc: nat, entry: nat, order: seq<nat>)
    requires SameLayer(g, h, lc)
    ensures Seen(g, lc, entry, order) == Seen(h, lc, entry, order)
  {
    if order != [] {
      SameLayerSameSeen(g, h, lc, entry, order[..|order| - 1]);
    }
  }

  lemma {:induction false} SameLayerSameOrder(g: Graph, h: Graph, s: Space, query: seq<real>, entry: nat, ef: int,
                                              lc: nat, order: seq<nat>)
    requires SameLayer(g, h, lc) && BestFirst(g, s, query, entry, ef, lc, order)
    ensures BestFirst(h, s, query, entry, ef, lc, order)
  {
    if order != [] {
      SameLayerSameOrder(g, h, s, query, entry, ef, lc, order[..|order| - 1]);
      SameLayerSameSeen(g, h, lc, entry, order[..|order| - 1]);
    }
  }

  lemma SameLayerSameSearch(g: Graph, h: Graph, s: Space, query: seq<real>, entry: nat, ef: int, lc: nat,
                            order: seq<nat>, out: seq<nat>)
    requires SameLayer(g, h, lc) && IsSearch(g, s, query, entry, ef, lc, order, out)
    ensures IsSearch(h, s, query, entry, ef, lc, order, out)
  {
    SameLayerSameSeen(g, h, lc, entry, order);
    SameLayerSameOrder(g, h, s, query, entry, ef, lc, order);
    SameLayerSameBeam(g, h, s, query, entry, ef, lc, Seen(g, lc, entry, order), out);
  }

  /** The layer just linked. */
  lemma LayerLinked(start: Graph, now: Graph, next: Graph, s: Space, m: nat, ef: int, vector: seq<real>, id: nat,
                    lc: nat, top: nat, entry: nat, order: seq<nat>, beam: seq<nat>)
    requires OtherLayersKept(start, now, lc, top)
    requires IsSearch(now, s, vector, entry, ef, lc, order, beam) && id !in Seen(now, lc, entry, order)
    requires LinkedAt(now, next, s, m, lc, id, beam)
    ensures InsertedAt(start, next, s, m, ef, vector, id, lc, entry, beam)
  {
    assert SameLayer(start, now, lc);
    SameLayerSameSearch(now, start, s, vector, entry, ef, lc, order, beam);
    SameLayerSameSeen(now, start, lc, entry, order);
    LinkedAtOnlyNeedsLayer(now, start, next, next, s, m, lc, id, beam);
  }

  /** A layer linked before stays linked. */
  lemma LayerKept(start: Graph, now: Graph, next: Graph, s: Space, m: nat, ef: int, vector: seq<real>, id: nat,
                  lc: nat, entry: nat, beam: seq<nat>)
    requires InsertedAt(start, now, s, m, ef, vector, id, lc, entry, beam) && SameLayer(now, next, lc)
    ensures InsertedAt(start, next, s, m, ef, vector, id, lc, entry, beam)
  {
    var order :| IsSearch(start, s, vector, entry, ef, lc, order, beam) && id !in Seen(start, lc, entry, order)
                 && LinkedAt(start, now, s, m, lc, id, beam);
    LinkedAtOnlyNeedsLayer(start, start, now, next, s, m, lc, id, beam);
  }

  /** A layer linked before stays linked while the next one is. */
  lemma LinkedLayerStays(start: Graph, now: Graph, next: Graph, s: Space, m: nat, ef: int, vector: seq<real>, id: nat,
                         top: nat, first: nat, beams: seq<seq<nat>>, after: seq<seq<nat>>, i: nat)
    requires i < |beams| <= top && SameOtherLayers(now, next, top - |beams|) && beams <= after
    requires LinkedLayers(start, now, s, m, ef, vector, id, top, first, beams)
    ensures InsertedAt(start, next, s, m, ef, vector, id, top - i, EntryOf(first, after, i), after[i])
  {
    var entry := EntryOf(first, beams, i);
    assert InsertedAt(start, now, s, m, ef, vector, id, top - i, entry, beams[i]);
    assert SameLayer(now, next, top - i);
    LayerKept(start, now, next, s, m, ef, vector, id, top - i, entry, beams[i]);
  }

  lemma NothingLinked(start: Graph, s: Space, m: nat, ef: int, vector: seq<real>, id: nat, top: nat, first: nat)
    requires WellFormed(start, m)
    ensures LayersDone(start, start, s, m, ef, vector, id, top, first, [])
  {
  }

  lemma LinkedOneLower(start: Graph, now: Graph, next: Graph, m: nat, lc: nat, top: nat)
    requires LinkedAbove(start, now, m, lc, top) && lc <= top
    requires WellFormed(next, m) && SameLevels(now, next) && SameOtherLayers(now, next, lc)
    ensures LinkedAbove(start, next, m, lc - 1, top)
  {
    forall l: nat | l <= lc - 1 || top < l
      ensures SameLayer(start, next, l)
    {
      assert SameLayer(start, now, l) && SameLayer(now, next, l);
    }
  }

  lemma LinkedLayersStay(start: Graph, now: Graph, next: Graph, s: Space, m: nat, ef: int, vector: seq<real>, id: nat,
                         top: nat, first: nat, beams: seq<seq<nat>>, after: seq<seq<nat>>)
    requires |beams| <= top && beams <= after && SameOtherLayers(now, next, top - |beams|)
    requires LinkedLayers(start, now, s, m, ef, vector, id, top, first, beams)
    ensures LinkedUpTo(start, next, s, m, ef, vector, id, top, first, after, |beams|)
  {
    forall i: nat {:trigger EntryOf(first, after, i)} | i < |beams|
      ensures InsertedAt(start, next, s, m, ef, vector, id, top - i, EntryOf(first, after, i), after[i])
    {
      LinkedLayerStays(start, now, next, s, m, ef, vector, id, top, first, beams, after, i);
    }
  }

  /** With one more layer linked, along the last of the beams. */
  lemma LinkedUpToGrows(start: Graph, now: Graph, s: Space, m: nat, ef: int, vector: seq<real>, id: nat, top: nat,
                        first: nat, beams: seq<seq<nat>>, k: nat, lc: nat, entry: nat, beam: seq<nat>)
    requires |beams| == k + 1 && k <= top && LinkedUpTo(start, now, s, m, ef, vector, id, top, first, beams, k)
    requires lc == top - k && entry == EntryOf(first, beams, k) && beam == beams[k]
    requires InsertedAt(start, now, s, m, ef, vector, id, lc, entry, beam)
    ensures LinkedLayers(start, now, s, m, ef, vector, id, top, first, beams)
  {
  }

  lemma LastEntry(first: nat, beams: seq<seq<nat>>, after: seq<seq<nat>>, i: nat)
    requires i == |beams| && beams <= after
    ensures EntryOf(first, after, i) == EntryOf(first, beams, |beams|)
  {
  }

  /** Adding an unlinked node keeps the graph invariant. */
  lemma FreshNodeKeepsWellFormed(g: Graph, m: nat, level: nat)
    requires WellFormed(g, m)
    ensures var h := g + [FreshNode(level)];
      && WellFormed(h, m)
      && (forall u: nat, lc: nat | u < |g| :: Neighbors(h, u, lc) == Neighbors(g, u, lc))
      && (forall lc: nat :: Neighbors(h, |g|, lc) == [])
      && (forall u: nat, lc: nat | u < |h| :: |g| !in Neighbors(h, u, lc))
  {
    var h := g + [FreshNode(level)];
    forall u: nat, lc: nat | u < |h|
      ensures EdgesOk(h, u, lc, m) && |g| !in Neighbors(h, u, lc)
    {
      if u < |g| {
        assert h[u] == g[u];
        assert EdgesOk(g, u, lc, m);
      }
    }
  }

  /** A search that starts at layer `lc` stays on nodes of that layer and off a node no edge leads to. */
  lemma BeamStaysOnLayer(g: Graph, s: Space, m: nat, query: seq<real>, entry: nat, ef: int, lc: nat, id: nat,
                         visited: set<nat>, beam: seq<nat>)
    requires WellFormed(g, m) && IsBeam(g, s, query, entry, ef, lc, visited, beam)
    requires entry < |g| && lc <= g[entry].level && entry != id
    requires forall u: nat | u < |g| && u != id :: id !in Neighbors(g, u, lc)
    ensures forall v | v in visited :: v < |g| && lc <= g[v].level && v != id
    ensures beam != [] && forall v | v in beam :: v in visited
  {
    var layer := set v | v in Ids(|g|) && lc <= g[v].level && v != id;
    forall u: nat | u in layer && u < |g|
      ensures forall e | e in Neighbors(g, u, lc) :: e in layer
    {
      assert EdgesOk(g, u, lc, m);
    }
    forall v | v in visited
      ensures v in layer
    {
      ClosedHoldsReachable(g, lc, layer, entry, v);
    }
    forall v | v in beam
      ensures v in visited
    {
      assert v in Elements(beam);
    }
    assert visited != {};
    assert |visited| != 0;
  }

  ghost predicate NoEdgeTo(g: Graph, id: nat) {
    forall u: nat, l: nat | u < |g| :: id !in Neighbors(g, u, l)
  }

  /** What a search from an entry on the layer finds can be linked to a node no edge leads to. */
  lemma SearchIsLinkable(g: Graph, s: Space, m: nat, query: seq<real>, entry: nat, ef: int, lc: nat, id: nat,
                         order: seq<nat>, beam: seq<nat>)
    requires WellFormed(g, m) && IsSearch(g, s, query, entry, ef, lc, order, beam)
    requires entry < |g| && lc <= g[entry].level && entry != id && id < |g| && lc <= g[id].level
    requires forall u: nat | u < |g| :: id !in Neighbors(g, u, lc)
    ensures id !in Seen(g, lc, entry, order)
    ensures beam != [] && beam[0] < |g| && beam[0] != id && lc <= g[beam[0]].level
    ensures Linkable(g, lc, id, FirstOf(beam, MaxConn(m, lc)))
  {
    BeamStaysOnLayer(g, s, m, query, entry, ef, lc, id, Seen(g, lc, entry, order), beam);
    assert beam[0] in beam;
    var nb := FirstOf(beam, MaxConn(m, lc));
    forall v | v in nb
      ensures v in beam
    {
    }
  }

  lemma NoEdgeYet(start: Graph, now: Graph, lc: nat, top: nat, id: nat)
    requires OtherLayersKept(start, now, lc, top) && NoEdgeTo(start, id)
    ensures forall u: nat | u < |now| :: id !in Neighbors(now, u, lc)
  {
    assert SameLayer(start, now, lc);
  }

  // ------------------------------------------------------ the index invariant

  /** Layer 0 is complete exactly while every node fits beside all others, both in a beam and in an edge list. */
  function CompleteUpTo(m: nat, ef: int): nat {
    (if 2 * m <= BeamWidth(ef) then 2 * m else BeamWidth(ef)) + 1
  }

  ghost predicate IndexInvariant(g: Graph, m: nat, ef: int, entryPoint: int, maxLevel: nat) {
    && WellFormed(g, m)
    && -1 <= entryPoint < |g|
    && (entryPoint == -1 <==> g == [])
    && (g != [] ==> g[entryPoint].level == maxLevel)
    && (forall u: nat | u < |g| :: g[u].level <= maxLevel)
    && (|g| >= 2 && m >= 1 ==> forall u: nat | u < |g| :: Neighbors(g, u, 0) != [])
    && (|g| <= CompleteUpTo(m, ef) <==> Complete(g))
  }

  lemma LinkingLeavesNoIsolatedNode(before: Graph, after: Graph, s: Space, m: nat, id: nat, beam: seq<nat>)
    requires LinkedAt(before, after, s, m, 0, id, beam) && m >= 1 && beam != []
    requires forall v | v in beam :: v != id
    requires forall u: nat | u < |before| && u != id :: Neighbors(before, u, 0) == [] ==> [u] == beam
    ensures forall u: nat | u < |after| :: Neighbors(after, u, 0) != []
  {
    forall u: nat | u < |after| && u != id
      ensures Neighbors(after, u, 0) != []
    {
      if u in FirstOf(beam, 2 * m) {
        assert IsSelection(s, s.Vector(u), Neighbors(before, u, 0) + [id], 2 * m, Neighbors(after, u, 0));
      }
    }
  }

  /** The beam along which a finished insertion linked the new node into layer 0. */
  lemma BottomBeam(before: Graph, after: Graph, s: Space, m: nat, ef: int, vector: seq<real>, level: nat, top: nat,
                   first: nat, beams: seq<seq<nat>>)
      returns (entry: nat, visited: set<nat>, beam: seq<nat>)
    requires WellFormed(before, m)
    requires |beams| == top + 1
    requires LayersDone(before + [FreshNode(level)], after, s, m, ef, vector, |before|, top, first, beams)
    ensures var start := before + [FreshNode(level)];
      && WellFormed(start, m)
      && (forall u: nat | u < |before| :: Neighbors(start, u, 0) == Neighbors(before, u, 0))
      && (forall u: nat | u < |start| :: |before| !in Neighbors(start, u, 0))
      && IsBeam(start, s, vector, entry, ef, 0, visited, beam)
      && LinkedAt(start, after, s, m, 0, |before|, beam)
      && |before| !in visited && beam != [] && (forall v | v in beam :: v in visited)
  {
    var start, id := before + [FreshNode(level)], |before|;
    FreshNodeKeepsWellFormed(before, m, level);
    entry, beam := EntryOf(first, beams, top), beams[top];
    assert InsertedAt(start, after, s, m, ef, vector, id, top - top, entry, beam);
    var order :| IsSearch(start, s, vector, entry, ef, 0, order, beam) && id !in Seen(start, 0, entry, order)
                 && LinkedAt(start, after, s, m, 0, id, beam);
    visited := Seen(start, 0, entry, order);
    BeamStaysOnLayer(start, s, m, vector, entry, ef, 0, id, visited, beam);
  }

  /** A finished insertion keeps the invariant of the index. */
  lemma InsertionKeepsInvariant(before: Graph, after: Graph, s: Space, m: nat, ef: int, vector: seq<real>, level: nat,
                                entryPoint: int, maxLevel: nat, top: nat, first: nat, beams: seq<seq<nat>>)
    requires before != [] && IndexInvariant(before, m, ef, entryPoint, maxLevel)
    requires |beams| == top + 1
    requires LayersDone(before + [FreshNode(level)], after, s, m, ef, vector, |before|, top, first, beams)
    ensures level > maxLevel ==> IndexInvariant(after, m, ef, |before|, level)
    ensures level <= maxLevel ==> IndexInvariant(after, m, ef, entryPoint, maxLevel)
  {
    InsertionIsolatesNone(before, after, s, m, ef, vector, level, top, first, beams);
    InsertionDecidesCompleteness(before, after, s, m, ef, vector, level, top, first, beams);
  }

  /** A finished insertion, seen as a whole. */
  lemma InsertionCompletes(before: Graph, after: Graph, s: Space, m: nat, ef: int, vector: seq<real>, level: nat,
                           entryPoint: int, maxLevel: nat, chain: seq<nat>, beams: seq<seq<nat>>)
    requires before != [] && IndexInvariant(before, m, ef, entryPoint, maxLevel) && |beams| == Min(level, maxLevel) + 1
    requires IsDescent(before + [FreshNode(level)], s, vector, maxLevel, chain)
    requires |chain| == maxLevel - Min(level, maxLevel) + 1 && chain[0] == entryPoint
    requires LayersDone(before + [FreshNode(level)], after, s, m, ef, vector, |before|, Min(level, maxLevel),
                        chain[|chain| - 1], beams)
    ensures Inserted(before, after, s, m, ef, vector, level, entryPoint, maxLevel, chain, beams)
    ensures |after| == |before| + 1
    ensures level > maxLevel ==> IndexInvariant(after, m, ef, |before|, level)
    ensures level <= maxLevel ==> IndexInvariant(after, m, ef, entryPoint, maxLevel)
  {
    InsertionKeepsInvariant(before, after, s, m, ef, vector, level, entryPoint, maxLevel, Min(level, maxLevel),
                            chain[|chain| - 1], beams);
  }

  lemma InsertionIsolatesNone(before: Graph, after: Graph, s: Space, m: nat, ef: int, vector: seq<real>, level: nat,
                              top: nat, first: nat, beams: seq<seq<nat>>)
    requires before != [] && WellFormed(before, m)
    requires |before| >= 2 && m >= 1 ==> forall u: nat | u < |before| :: Neighbors(before, u, 0) != []
    requires |beams| == top + 1
    requires LayersDone(before + [FreshNode(level)], after, s, m, ef, vector, |before|, top, first, beams)
    ensures m >= 1 ==> forall u: nat | u < |after| :: Neighbors(after, u, 0) != []
  {
    var start, id := before + [FreshNode(level)], |before|;
    var entry, visited, beam := BottomBeam(before, after, s, m, ef, vector, level, top, first, beams);
    BeamIsolatesNone(before, start, after, s, m, ef, vector, id, entry, visited, beam);
  }

  lemma BeamIsolatesNone(before: Graph, start: Graph, after: Graph, s: Space, m: nat, ef: int, vector: seq<real>,
                         id: nat, entry: nat, visited: set<nat>, beam: seq<nat>)
    requires before != [] && id == |before| && |start| == id + 1
    requires |before| >= 2 && m >= 1 ==> forall u: nat | u < |before| :: Neighbors(before, u, 0) != []
    requires forall u: nat | u < |before| :: Neighbors(start, u, 0) == Neighbors(before, u, 0)
    requires IsBeam(start, s, vector, entry, ef, 0, visited, beam) && LinkedAt(start, after, s, m, 0, id, beam)
    requires id !in visited && beam != [] && forall v | v in beam :: v in visited
    ensures m >= 1 ==> forall u: nat | u < |after| :: Neighbors(after, u, 0) != []
  {
    if m >= 1 {
      if |before| == 1 {
        SingletonBeam(start, s, vector, entry, ef, 0, visited, beam);
      }
      LinkingLeavesNoIsolatedNode(start, after, s, m, id, beam);
    }
  }

  lemma InsertionDecidesCompleteness(before: Graph, after: Graph, s: Space, m: nat, ef: int, vector: seq<real>,
                                     level: nat, top: nat, first: nat, beams: seq<seq<nat>>)
    requires before != [] && WellFormed(before, m) && (|before| <= CompleteUpTo(m, ef) <==> Complete(before))
    requires |beams| == top + 1
    requires LayersDone(before + [FreshNode(level)], after, s, m, ef, vector, |before|, top, first, beams)
    ensures |after| <= CompleteUpTo(m, ef) <==> Complete(after)
  {
    var start, id := before + [FreshNode(level)], |before|;
    var entry, visited, beam := BottomBeam(before, after, s, m, ef, vector, level, top, first, beams);
    if |after| <= CompleteUpTo(m, ef) {
      LinkingKeepsComplete(start, after, s, vector, m, ef, id, entry, visited, beam);
    } else {
      LinkingLeavesIncomplete(start, after, s, vector, m, ef, id, entry, visited, beam);
    }
  }

  /** A new node without room beside all others misses an edge, and an edge once missing is never added. */
  lemma LinkingLeavesIncomplete(start: Graph, after: Graph, s: Space, vector: seq<real>, m: nat, ef: int, id: nat,
                                entry: nat, visited: set<nat>, beam: seq<nat>)
    requires 0 < id == |start| - 1
    requires id >= CompleteUpTo(m, ef) && (id > CompleteUpTo(m, ef) ==> !CompleteBelow(start, id))
    requires IsBeam(start, s, vector, entry, ef, 0, visited, beam) && LinkedAt(start, after, s, m, 0, id, beam)
    ensures !Complete(after)
  {
    if id > CompleteUpTo(m, ef) {
      var u: nat, v: nat :| u < id && v < id && u != v && v !in Neighbors(start, u, 0);
      MissingEdgeStays(start, after, s, m, id, beam, u, v);
    } else {
      var nb := Neighbors(after, id, 0);
      ElementsBounded(nb);
      if Ids(id) <= Elements(nb) {
        SubsetCardinality(Ids(id), Elements(nb));
      }
      var v :| v in Ids(id) && v !in Elements(nb);
      assert v !in nb;
    }
  }

  lemma MissingEdgeStays(before: Graph, after: Graph, s: Space, m: nat, id: nat, beam: seq<nat>, u: nat, v: nat)
    requires LinkedAt(before, after, s, m, 0, id, beam)
    requires u < |before| && u != id && v != id && v !in Neighbors(before, u, 0)
    ensures v !in Neighbors(after, u, 0)
  {
    if u in FirstOf(beam, 2 * m) {
      var es := Neighbors(before, u, 0) + [id];
      assert IsSelection(s, s.Vector(u), es, 2 * m, Neighbors(after, u, 0));
      assert v !in Elements(es);
      assert forall e | e in Neighbors(after, u, 0) :: e in Elements(Neighbors(after, u, 0));
    }
  }

  lemma {:induction false} ElementsBounded(s: seq<nat>)
    ensures |Elements(s)| <= |s|
  {
    if s != [] {
      ElementsBounded(s[..|s| - 1]);
      assert Elements(s) == Elements(s[..|s| - 1]) + {s[|s| - 1]};
    }
  }

  lemma SingletonBeam(g: Graph, s: Space, query: seq<real>, entry: nat, ef: int, lc: nat, visited: set<nat>,
                      beam: seq<nat>)
    requires IsBeam(g, s, query, entry, ef, lc, visited, beam) && |g| == 2
    requires 1 !in visited
    ensures beam == [0]
  {
    assert visited == {0};
    assert beam[0] in Elements(beam);
  }
}
