/** The flat vector store of an HNSW index and the distance it induces. */
module VectorSpace {

  /** `similarity` stands for cosine similarity; it is an arbitrary total function of two vectors. */
  datatype Space = Space(dimension: nat, vectors: seq<real>, similarity: (seq<real>, seq<real>) -> real) {

    /** The vector of node `id` lies inside the flat store. */
    predicate Holds(id: nat) {
      id * dimension + dimension <= |vectors|
    }

    ghost predicate HoldsBelow(n: nat) {
      forall id: nat | id < n :: Holds(id)
    }

    function Vector(id: nat): (v: seq<real>)
      requires Holds(id)
    {
      assert 0 <= id * dimension;
      vectors[id * dimension..id * dimension + dimension]
    }

    function Distance(query: seq<real>, id: nat): (d: real)
      requires Holds(id)
    {
      1.0 - similarity(query, Vector(id))
    }
  }

  /** A store of `n` vectors holds every id below `n`. */
  lemma FlatStoreHoldsIds(s: Space, n: nat)
    requires |s.vectors| == n * s.dimension
    ensures s.HoldsBelow(n)
  {
    forall id: nat | id < n
      ensures s.Holds(id)
    {
      assert (id + 1) * s.dimension <= n * s.dimension;
    }
  }

  /** Appending a vector gives the new id that vector and keeps every earlier vector and distance. */
  lemma AppendKeepsVectors(before: Space, vector: seq<real>, n: nat)
    requires |before.vectors| == n * before.dimension
    requires |vector| == before.dimension
    ensures before.HoldsBelow(n)
    ensures var after := before.(vectors := before.vectors + vector);
      && |after.vectors| == (n + 1) * before.dimension
      && after.HoldsBelow(n + 1)
      && after.Vector(n) == vector
      && (forall id: nat | id < n :: after.Vector(id) == before.Vector(id))
      && (forall query, id: nat | id < n :: after.Distance(query, id) == before.Distance(query, id))
  {
    var after := before.(vectors := before.vectors + vector);
    assert (n + 1) * before.dimension == n * before.dimension + before.dimension;
    FlatStoreHoldsIds(before, n);
    FlatStoreHoldsIds(after, n + 1);
    forall id: nat | id < n
      ensures after.Vector(id) == before.Vector(id)
    {
      assert before.Holds(id);
    }
  }
}
