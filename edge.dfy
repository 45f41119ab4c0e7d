/** An immutable pair of endpoints. */
module Edges {
  import opened Outcomes
  import opened Vertices

  /** `first` and `second` are fixed at construction; the destructor `second` is getSecond. */
  datatype Edge<I, T> = Edge(first: Vertex<I, T>, second: Vertex<I, T>) {

    /**
     * getAdjacentVertex: the other endpoint when `v` is one of the two endpoints
     * (the probe against `first` comes first, so a self-loop yields `v` itself),
     * and no match when it is neither.
     */
    function AdjacentVertex(v: Vertex<I, T>): (r: Option<Vertex<I, T>>)
      ensures r.Some? <==> v == first || v == second
      ensures r.Some? ==> r.value == first || r.value == second
    {
      if v == first then Some(second)
      else if v == second then Some(first)
      else None
    }
  }

  /** The Edge constructor: fails on a null endpoint, otherwise stores both as given. */
  function NewEdge<I, T>(first: Vertex?<I, T>, second: Vertex?<I, T>): (r: Result<Edge<I, T>>)
    ensures r.Err? <==> first == null || second == null
    ensures r.Err? ==> r.error == NullPointer
    ensures r.Ok? ==> r.value.first == first && r.value.second == second
  {
    if first == null || second == null then Err(NullPointer)
    else Ok(Edge(first, second))
  }

  /** The endpoint getAdjacentVertex returns and the one it was given are the edge's two endpoints. */
  lemma AdjacentVertexIsOtherEnd<I, T>(e: Edge<I, T>, v: Vertex<I, T>)
    requires e.AdjacentVertex(v).Some?
    ensures multiset{v, e.AdjacentVertex(v).value} == multiset{e.first, e.second}
  {
    if v == e.first {
      assert e.AdjacentVertex(v).value == e.second;
    } else {
      assert e.AdjacentVertex(v).value == e.first;
    }
  }

  /** Stepping across an edge twice from one of its endpoints comes back to that endpoint. */
  lemma AdjacentVertexTwice<I, T>(e: Edge<I, T>, v: Vertex<I, T>)
    requires v == e.first || v == e.second
    ensures e.AdjacentVertex(v).Some?
    ensures e.AdjacentVertex(e.AdjacentVertex(v).value) == Some(v)
  {
    if v == e.first {
      assert e.AdjacentVertex(v) == Some(e.second);
    } else {
      assert e.AdjacentVertex(v) == Some(e.first);
    }
  }
}
