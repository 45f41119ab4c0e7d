/**
 * The graph of the repository's pattern-search test: eight vertices with ids
 * 1..8, sixteen edges added in the test's order, and the search for the type
 * pattern A, B, C from vertex 1.
 */
module GraphFixture {
  import opened Outcomes
  import opened Vertices
  import opened Edges
  import opened Walks
  import opened Graphs

  type V = Vertex<int, string>

  /** The test's vertices: the ids 1..8 (which also tell them apart) and the types. */
  ghost predicate TestVertices(v1: V, v2: V, v3: V, v4: V, v5: V, v6: V, v7: V, v8: V) {
    && v1.id == 1 && v2.id == 2 && v3.id == 3 && v4.id == 4
    && v5.id == 5 && v6.id == 6 && v7.id == 7 && v8.id == 8
    && v1.kind == "A" && v2.kind == "B" && v3.kind == "D" && v4.kind == "A"
    && v5.kind == "C" && v6.kind == "B" && v7.kind == "E" && v8.kind == "C"
  }

  /** The adjacency map after the test's first eight addEdge calls. */
  ghost function TestAdjacencyHalf(v1: V, v2: V, v3: V, v4: V, v5: V, v6: V, v7: V, v8: V): Adjacency<int, string> {
    var m0 := map[v1 := [], v2 := [], v3 := [], v4 := [], v5 := [], v6 := [], v7 := [], v8 := []];
    var m1 := WithEdge(m0, Edge(v1, v2));
    var m2 := WithEdge(m1, Edge(v2, v1));
    var m3 := WithEdge(m2, Edge(v2, v3));
    var m4 := WithEdge(m3, Edge(v2, v5));
    var m5 := WithEdge(m4, Edge(v3, v2));
    var m6 := WithEdge(m5, Edge(v4, v5));
    var m7 := WithEdge(m6, Edge(v4, v6));
    var m8 := WithEdge(m7, Edge(v4, v7));
    m8
  }

  /** The adjacency map the test's sixteen addEdge calls leave behind, one WithEdge per call. */
  ghost function TestAdjacency(v1: V, v2: V, v3: V, v4: V, v5: V, v6: V, v7: V, v8: V): Adjacency<int, string> {
    var m8 := TestAdjacencyHalf(v1, v2, v3, v4, v5, v6, v7, v8);
    var m9 := WithEdge(m8, Edge(v5, v2));
    var m10 := WithEdge(m9, Edge(v5, v4));
    var m11 := WithEdge(m10, Edge(v5, v6));
    var m12 := WithEdge(m11, Edge(v6, v4));
    var m13 := WithEdge(m12, Edge(v6, v5));
    var m14 := WithEdge(m13, Edge(v6, v8));
    var m15 := WithEdge(m14, Edge(v7, v4));
    var m16 := WithEdge(m15, Edge(v8, v6));
    m16
  }

  /** The first two edge lists after the first eight addEdge calls. */
  lemma TestHalfLists12(v1: V, v2: V, v3: V, v4: V, v5: V, v6: V, v7: V, v8: V)
    requires TestVertices(v1, v2, v3, v4, v5, v6, v7, v8)
    ensures var m := TestAdjacencyHalf(v1, v2, v3, v4, v5, v6, v7, v8);
      && m[v1] == [Edge(v1, v2), Edge(v2, v1)]
      && m[v2] == [Edge(v1, v2), Edge(v2, v1), Edge(v2, v3), Edge(v2, v5), Edge(v3, v2)]
  {
  }

  /** The third and fourth edge lists after the first eight addEdge calls. */
  lemma TestHalfLists34(v1: V, v2: V, v3: V, v4: V, v5: V, v6: V, v7: V, v8: V)
    requires TestVertices(v1, v2, v3, v4, v5, v6, v7, v8)
    ensures var m := TestAdjacencyHalf(v1, v2, v3, v4, v5, v6, v7, v8);
      && m[v3] == [Edge(v2, v3), Edge(v3, v2)]
      && m[v4] == [Edge(v4, v5), Edge(v4, v6), Edge(v4, v7)]
  {
  }

  /** The last four edge lists after the first eight addEdge calls. */
  lemma TestHalfLists5678(v1: V, v2: V, v3: V, v4: V, v5: V, v6: V, v7: V, v8: V)
    requires TestVertices(v1, v2, v3, v4, v5, v6, v7, v8)
    ensures var m := TestAdjacencyHalf(v1, v2, v3, v4, v5, v6, v7, v8);
      && m[v5] == [Edge(v2, v5), Edge(v4, v5)]
      && m[v6] == [Edge(v4, v6)]
      && m[v7] == [Edge(v4, v7)]
      && m[v8] == []
  {
  }

  /** The edge lists of the test graph, vertex by vertex. */
  ghost predicate TestShape(adj: Adjacency<int, string>, v1: V, v2: V, v3: V, v4: V, v5: V, v6: V, v7: V, v8: V) {
    && adj.Keys == {v1, v2, v3, v4, v5, v6, v7, v8}
    && adj[v1] == [Edge(v1, v2), Edge(v2, v1)]
    && adj[v2] == [Edge(v1, v2), Edge(v2, v1), Edge(v2, v3), Edge(v2, v5), Edge(v3, v2), Edge(v5, v2)]
    && adj[v3] == [Edge(v2, v3), Edge(v3, v2)]
    && adj[v4] == [Edge(v4, v5), Edge(v4, v6), Edge(v4, v7), Edge(v5, v4), Edge(v6, v4), Edge(v7, v4)]
    && adj[v5] == [Edge(v2, v5), Edge(v4, v5), Edge(v5, v2), Edge(v5, v4), Edge(v5, v6), Edge(v6, v5)]
    && adj[v6] == [Edge(v4, v6), Edge(v5, v6), Edge(v6, v4), Edge(v6, v5), Edge(v6, v8), Edge(v8, v6)]
    && adj[v7] == [Edge(v4, v7), Edge(v7, v4)]
    && adj[v8] == [Edge(v6, v8), Edge(v8, v6)]
  }

  lemma TestList1(v1: V, v2: V, v3: V, v4: V, v5: V, v6: V, v7: V, v8: V)
    requires TestVertices(v1, v2, v3, v4, v5, v6, v7, v8)
    ensures TestAdjacency(v1, v2, v3, v4, v5, v6, v7, v8)[v1] == [Edge(v1, v2), Edge(v2, v1)]
  {
    TestHalfLists12(v1, v2, v3, v4, v5, v6, v7, v8);
  }

  lemma TestList2(v1: V, v2: V, v3: V, v4: V, v5: V, v6: V, v7: V, v8: V)
    requires TestVertices(v1, v2, v3, v4, v5, v6, v7, v8)
    ensures TestAdjacency(v1, v2, v3, v4, v5, v6, v7, v8)[v2] == [Edge(v1, v2), Edge(v2, v1), Edge(v2, v3), Edge(v2, v5), Edge(v3, v2), Edge(v5, v2)]
  {
    TestHalfLists12(v1, v2, v3, v4, v5, v6, v7, v8);
  }

  lemma TestList3(v1: V, v2: V, v3: V, v4: V, v5: V, v6: V, v7: V, v8: V)
    requires TestVertices(v1, v2, v3, v4, v5, v6, v7, v8)
    ensures TestAdjacency(v1, v2, v3, v4, v5, v6, v7, v8)[v3] == [Edge(v2, v3), Edge(v3, v2)]
  {
    TestHalfLists34(v1, v2, v3, v4, v5, v6, v7, v8);
  }

  lemma TestList4(v1: V, v2: V, v3: V, v4: V, v5: V, v6: V, v7: V, v8: V)
    requires TestVertices(v1, v2, v3, v4, v5, v6, v7, v8)
    ensures TestAdjacency(v1, v2, v3, v4, v5, v6, v7, v8)[v4] == [Edge(v4, v5), Edge(v4, v6), Edge(v4, v7), Edge(v5, v4), Edge(v6, v4), Edge(v7, v4)]
  {
    TestHalfLists34(v1, v2, v3, v4, v5, v6, v7, v8);
  }

  lemma TestList5(v1: V, v2: V, v3: V, v4: V, v5: V, v6: V, v7: V, v8: V)
    requires TestVertices(v1, v2, v3, v4, v5, v6, v7, v8)
    ensures TestAdjacency(v1, v2, v3, v4, v5, v6, v7, v8)[v5] == [Edge(v2, v5), Edge(v4, v5), Edge(v5, v2), Edge(v5, v4), Edge(v5, v6), Edge(v6, v5)]
  {
    TestHalfLists5678(v1, v2, v3, v4, v5, v6, v7, v8);
  }

  lemma TestList6(v1: V, v2: V, v3: V, v4: V, v5: V, v6: V, v7: V, v8: V)
    requires TestVertices(v1, v2, v3, v4, v5, v6, v7, v8)
    ensures TestAdjacency(v1, v2, v3, v4, v5, v6, v7, v8)[v6] == [Edge(v4, v6), Edge(v5, v6), Edge(v6, v4), Edge(v6, v5), Edge(v6, v8), Edge(v8, v6)]
  {
    TestHalfLists5678(v1, v2, v3, v4, v5, v6, v7, v8);
  }

  lemma TestList7(v1: V, v2: V, v3: V, v4: V, v5: V, v6: V, v7: V, v8: V)
    requires TestVertices(v1, v2, v3, v4, v5, v6, v7, v8)
    ensures TestAdjacency(v1, v2, v3, v4, v5, v6, v7, v8)[v7] == [Edge(v4, v7), Edge(v7, v4)]
  {
    TestHalfLists5678(v1, v2, v3, v4, v5, v6, v7, v8);
  }

  lemma TestList8(v1: V, v2: V, v3: V, v4: V, v5: V, v6: V, v7: V, v8: V)
    requires TestVertices(v1, v2, v3, v4, v5, v6, v7, v8)
    ensures TestAdjacency(v1, v2, v3, v4, v5, v6, v7, v8)[v8] == [Edge(v6, v8), Edge(v8, v6)]
  {
    TestHalfLists5678(v1, v2, v3, v4, v5, v6, v7, v8);
  }

  /** The sixteen addEdge calls on the eight fresh vertices give the edge lists of TestShape. */
  lemma TestAdjacencyShape(v1: V, v2: V, v3: V, v4: V, v5: V, v6: V, v7: V, v8: V)
    requires TestVertices(v1, v2, v3, v4, v5, v6, v7, v8)
    ensures TestShape(TestAdjacency(v1, v2, v3, v4, v5, v6, v7, v8), v1, v2, v3, v4, v5, v6, v7, v8)
  {
    TestList1(v1, v2, v3, v4, v5, v6, v7, v8);
    TestList2(v1, v2, v3, v4, v5, v6, v7, v8);
    TestList3(v1, v2, v3, v4, v5, v6, v7, v8);
    TestList4(v1, v2, v3, v4, v5, v6, v7, v8);
    TestList5(v1, v2, v3, v4, v5, v6, v7, v8);
    TestList6(v1, v2, v3, v4, v5, v6, v7, v8);
    TestList7(v1, v2, v3, v4, v5, v6, v7, v8);
    TestList8(v1, v2, v3, v4, v5, v6, v7, v8);
  }

  /** The pattern the test searches for. */
  const TestPattern: seq<Option<string>> := [Some("A"), Some("B"), Some("C")]

  /** The getNeighbors lists of the four vertices a match of the pattern can pass through. */
  lemma TestNeighbors(adj: Adjacency<int, string>, v1: V, v2: V, v3: V, v4: V, v5: V, v6: V, v7: V, v8: V)
    requires TestShape(adj, v1, v2, v3, v4, v5, v6, v7, v8)
    ensures Neighbors(adj, v1) == [v2, v1]
    ensures Neighbors(adj, v4) == [v5, v6, v7, v4, v4, v4]
    ensures Neighbors(adj, v2) == [v2, v1, v3, v5, v2, v2]
    ensures Neighbors(adj, v6) == [v6, v6, v4, v5, v8, v6]
  {
  }

  /** Vertex 4 is reachable from vertex 1 by BFS moves, through vertices 2 and 5. */
  lemma TestReachable(adj: Adjacency<int, string>, v1: V, v2: V, v3: V, v4: V, v5: V, v6: V, v7: V, v8: V)
    requires TestShape(adj, v1, v2, v3, v4, v5, v6, v7, v8)
    ensures Reachable(adj, v1, v1) && Reachable(adj, v1, v4)
  {
    assert adj[v1][0] == Edge(v1, v2) && adj[v2][3] == Edge(v2, v5) && adj[v5][1] == Edge(v4, v5);
    ReachableRoot(adj, v1);
    assert Step(adj, v1, v2) by { assert Edge(v1, v2).AdjacentVertex(v1) == Some(v2); }
    ReachableStep(adj, v1, v1, v2);
    assert Step(adj, v2, v5) by { assert Edge(v2, v5).AdjacentVertex(v2) == Some(v5); }
    ReachableStep(adj, v1, v2, v5);
    assert Step(adj, v5, v4) by { assert Edge(v4, v5).AdjacentVertex(v5) == Some(v4); }
    ReachableStep(adj, v1, v5, v4);
  }

  /**
   * The matches of A, B, C from vertex 1 in the test graph are exactly the
   * three paths the test expects: 4-6-5, 1-2-5 and 4-6-8.
   */
  lemma TestMatches(adj: Adjacency<int, string>, v1: V, v2: V, v3: V, v4: V, v5: V, v6: V, v7: V, v8: V)
    requires TestVertices(v1, v2, v3, v4, v5, v6, v7, v8) && TestShape(adj, v1, v2, v3, v4, v5, v6, v7, v8)
    ensures forall q :: IsMatch(adj, v1, TestPattern, q) <==> q in {[v4, v6, v5], [v1, v2, v5], [v4, v6, v8]}
  {
    forall q ensures IsMatch(adj, v1, TestPattern, q) <==> q in {[v4, v6, v5], [v1, v2, v5], [v4, v6, v8]} {
      if IsMatch(adj, v1, TestPattern, q) {
        OnlyExpected(adj, v1, v2, v3, v4, v5, v6, v7, v8, q);
      }
      if q in {[v4, v6, v5], [v1, v2, v5], [v4, v6, v8]} {
        ExpectedMatch(adj, v1, v2, v3, v4, v5, v6, v7, v8, q);
      }
    }
  }

  /** Every match of the pattern is one of the three expected paths. */
  lemma OnlyExpected(adj: Adjacency<int, string>, v1: V, v2: V, v3: V, v4: V, v5: V, v6: V, v7: V, v8: V, q: seq<V>)
    requires TestVertices(v1, v2, v3, v4, v5, v6, v7, v8) && TestShape(adj, v1, v2, v3, v4, v5, v6, v7, v8)
    requires IsMatch(adj, v1, TestPattern, q)
    ensures q == [v4, v6, v5] || q == [v1, v2, v5] || q == [v4, v6, v8]
  {
    TestNeighbors(adj, v1, v2, v3, v4, v5, v6, v7, v8);
    assert q == [q[0], q[1], q[2]];
    assert q[0] in adj && q[0].kind == "A" && q[1].kind == "B" && q[2].kind == "C";
    assert q[1] in Neighbors(adj, q[0]) && q[2] in Neighbors(adj, q[1]);
    assert q[0] == v1 || q[0] == v4;
    if q[0] == v1 {
      assert q[1] == v2;
      assert q[2] == v5;
    } else {
      assert q[1] == v6;
      assert q[2] == v5 || q[2] == v8;
    }
  }

  /** Each of the three expected paths is a match of the pattern. */
  lemma ExpectedMatch(adj: Adjacency<int, string>, v1: V, v2: V, v3: V, v4: V, v5: V, v6: V, v7: V, v8: V, q: seq<V>)
    requires TestVertices(v1, v2, v3, v4, v5, v6, v7, v8) && TestShape(adj, v1, v2, v3, v4, v5, v6, v7, v8)
    requires q == [v4, v6, v5] || q == [v1, v2, v5] || q == [v4, v6, v8]
    ensures IsMatch(adj, v1, TestPattern, q)
  {
    TestNeighbors(adj, v1, v2, v3, v4, v5, v6, v7, v8);
    TestReachable(adj, v1, v2, v3, v4, v5, v6, v7, v8);
    if q == [v1, v2, v5] {
      assert v2 in Neighbors(adj, v1) && v5 in Neighbors(adj, v2);
    } else {
      assert v6 in Neighbors(adj, v4) && v5 in Neighbors(adj, v6) && v8 in Neighbors(adj, v6);
    }
  }

  /** The test's first and second addVertex calls. */
  method AddTestVerticesFirst(g: Graph<int, string>) returns (v1: V, v2: V)
    requires g.Valid() && g.vertices == [] && g.adjacency == map[]
    modifies g
    ensures g.Valid() && fresh(v1) && fresh(v2)
    ensures v1.id == 1 && v2.id == 2 && v1.kind == "A" && v2.kind == "B"
    ensures g.vertices == [v1, v2]
    ensures g.adjacency == map[v1 := [], v2 := []]
  {
    var r := g.AddVertex(Some(1), Some("A"));
    v1 := r.value;
    r := g.AddVertex(Some(2), Some("B"));
    v2 := r.value;
  }

  /** The test's third and fourth addVertex calls. */
  method AddTestVerticesSecond(g: Graph<int, string>, v1: V, v2: V) returns (v3: V, v4: V)
    requires g.Valid() && g.vertices == [v1, v2] && g.adjacency == map[v1 := [], v2 := []]
    modifies g
    ensures g.Valid() && fresh(v3) && fresh(v4)
    ensures v3.id == 3 && v4.id == 4 && v3.kind == "D" && v4.kind == "A"
    ensures g.vertices == [v1, v2, v3, v4]
    ensures g.adjacency == map[v1 := [], v2 := [], v3 := [], v4 := []]
  {
    var r := g.AddVertex(Some(3), Some("D"));
    v3 := r.value;
    r := g.AddVertex(Some(4), Some("A"));
    v4 := r.value;
  }

  /** The test's fifth and sixth addVertex calls. */
  method AddTestVerticesThird(g: Graph<int, string>, v1: V, v2: V, v3: V, v4: V) returns (v5: V, v6: V)
    requires g.Valid() && g.vertices == [v1, v2, v3, v4] && g.adjacency == map[v1 := [], v2 := [], v3 := [], v4 := []]
    modifies g
    ensures g.Valid() && fresh(v5) && fresh(v6)
    ensures v5.id == 5 && v6.id == 6 && v5.kind == "C" && v6.kind == "B"
    ensures g.vertices == [v1, v2, v3, v4, v5, v6]
    ensures g.adjacency == map[v1 := [], v2 := [], v3 := [], v4 := [], v5 := [], v6 := []]
  {
    var r := g.AddVertex(Some(5), Some("C"));
    v5 := r.value;
    r := g.AddVertex(Some(6), Some("B"));
    v6 := r.value;
  }

  /** The test's seventh and eighth addVertex calls. */
  method AddTestVerticesLast(g: Graph<int, string>, v1: V, v2: V, v3: V, v4: V, v5: V, v6: V) returns (v7: V, v8: V)
    requires g.Valid() && g.vertices == [v1, v2, v3, v4, v5, v6] && g.adjacency == map[v1 := [], v2 := [], v3 := [], v4 := [], v5 := [], v6 := []]
    modifies g
    ensures g.Valid() && fresh(v7) && fresh(v8)
    ensures v7.id == 7 && v8.id == 8 && v7.kind == "E" && v8.kind == "C"
    ensures g.vertices == [v1, v2, v3, v4, v5, v6, v7, v8]
    ensures g.adjacency == map[v1 := [], v2 := [], v3 := [], v4 := [], v5 := [], v6 := [], v7 := [], v8 := []]
  {
    var r := g.AddVertex(Some(7), Some("E"));
    v7 := r.value;
    r := g.AddVertex(Some(8), Some("C"));
    v8 := r.value;
  }

  /** The test's first eight addEdge calls. */
  method AddTestEdgesFirst(g: Graph<int, string>, v1: V, v2: V, v3: V, v4: V, v5: V, v6: V, v7: V, v8: V)
    requires g.Valid() && TestVertices(v1, v2, v3, v4, v5, v6, v7, v8)
    requires g.adjacency == map[v1 := [], v2 := [], v3 := [], v4 := [], v5 := [], v6 := [], v7 := [], v8 := []]
    modifies g
    ensures g.Valid() && g.vertices == old(g.vertices)
    ensures g.adjacency == TestAdjacencyHalf(v1, v2, v3, v4, v5, v6, v7, v8)
  {
    var e := g.AddEdge(v1, v2);
    e := g.AddEdge(v2, v1);
    e := g.AddEdge(v2, v3);
    e := g.AddEdge(v2, v5);
    e := g.AddEdge(v3, v2);
    e := g.AddEdge(v4, v5);
    e := g.AddEdge(v4, v6);
    e := g.AddEdge(v4, v7);
  }

  /** The test's last eight addEdge calls. */
  method AddTestEdgesLast(g: Graph<int, string>, v1: V, v2: V, v3: V, v4: V, v5: V, v6: V, v7: V, v8: V)
    requires g.Valid() && TestVertices(v1, v2, v3, v4, v5, v6, v7, v8)
    requires g.adjacency == TestAdjacencyHalf(v1, v2, v3, v4, v5, v6, v7, v8)
    modifies g
    ensures g.Valid() && g.vertices == old(g.vertices)
    ensures g.adjacency == TestAdjacency(v1, v2, v3, v4, v5, v6, v7, v8)
  {
    var e := g.AddEdge(v5, v2);
    e := g.AddEdge(v5, v4);
    e := g.AddEdge(v5, v6);
    e := g.AddEdge(v6, v4);
    e := g.AddEdge(v6, v5);
    e := g.AddEdge(v6, v8);
    e := g.AddEdge(v7, v4);
    e := g.AddEdge(v8, v6);
  }

  /** The id sequence of a path, as the test collects it. */
  function PathIds(q: seq<V>): seq<int> {
    seq(|q|, i requires 0 <= i < |q| => q[i].id)
  }

  /** getActualResults: the id sequences of a search result. */
  function ResultIds(found: set<seq<V>>): set<seq<int>> {
    set q | q in found :: PathIds(q)
  }

  /** The search result on the test graph, pinned down by its membership contract. */
  lemma TestSearchResult(adj: Adjacency<int, string>, v1: V, v2: V, v3: V, v4: V, v5: V, v6: V, v7: V, v8: V, found: set<seq<V>>)
    requires TestVertices(v1, v2, v3, v4, v5, v6, v7, v8) && TestShape(adj, v1, v2, v3, v4, v5, v6, v7, v8)
    requires forall q :: q in found <==> IsMatch(adj, v1, TestPattern, q)
    ensures found == {[v4, v6, v5], [v1, v2, v5], [v4, v6, v8]}
  {
    TestMatches(adj, v1, v2, v3, v4, v5, v6, v7, v8);
  }

  /** The id sequences of the three expected paths. */
  lemma TestResultIds(v1: V, v2: V, v3: V, v4: V, v5: V, v6: V, v7: V, v8: V, found: set<seq<V>>)
    requires TestVertices(v1, v2, v3, v4, v5, v6, v7, v8)
    requires found == {[v4, v6, v5], [v1, v2, v5], [v4, v6, v8]}
    ensures ResultIds(found) == {[4, 6, 5], [1, 2, 5], [4, 6, 8]}
  {
    assert PathIds([v4, v6, v5]) == [4, 6, 5] && PathIds([v1, v2, v5]) == [1, 2, 5] && PathIds([v4, v6, v8]) == [4, 6, 8];
  }

  /** The test's eight addVertex calls on a new graph. */
  method BuildTestVertices() returns (g: Graph<int, string>, v1: V, v2: V, v3: V, v4: V, v5: V, v6: V, v7: V, v8: V)
    ensures g.Valid() && TestVertices(v1, v2, v3, v4, v5, v6, v7, v8)
    ensures g.vertices == [v1, v2, v3, v4, v5, v6, v7, v8]
    ensures g.adjacency == map[v1 := [], v2 := [], v3 := [], v4 := [], v5 := [], v6 := [], v7 := [], v8 := []]
    ensures fresh(g) && fresh(v1) && fresh(v2) && fresh(v3) && fresh(v4) && fresh(v5) && fresh(v6) && fresh(v7) && fresh(v8)
  {
    g := new Graph();
    v1, v2 := AddTestVerticesFirst(g);
    v3, v4 := AddTestVerticesSecond(g, v1, v2);
    v5, v6 := AddTestVerticesThird(g, v1, v2, v3, v4);
    v7, v8 := AddTestVerticesLast(g, v1, v2, v3, v4, v5, v6);
  }

  /**
   * The test's sixteen addEdge calls and its search for A, B, C from vertex 1:
   * the search finds exactly the three expected paths, and their id sequences
   * are the test's expected results.
   */
  method AddTestEdgesAndSearch(g: Graph<int, string>, v1: V, v2: V, v3: V, v4: V, v5: V, v6: V, v7: V, v8: V)
      returns (r: Result<set<seq<V>>>, ids: set<seq<int>>)
    requires g.Valid() && TestVertices(v1, v2, v3, v4, v5, v6, v7, v8)
    requires g.vertices == [v1, v2, v3, v4, v5, v6, v7, v8]
    requires g.adjacency == map[v1 := [], v2 := [], v3 := [], v4 := [], v5 := [], v6 := [], v7 := [], v8 := []]
    modifies g, g.vertices
    ensures g.adjacency == TestAdjacency(v1, v2, v3, v4, v5, v6, v7, v8)
    ensures r == Ok({[v4, v6, v5], [v1, v2, v5], [v4, v6, v8]})
    ensures r.Ok? && ids == ResultIds(r.value)
    ensures ids == {[4, 6, 5], [1, 2, 5], [4, 6, 8]}
  {
    AddTestEdgesFirst(g, v1, v2, v3, v4, v5, v6, v7, v8);
    AddTestEdgesLast(g, v1, v2, v3, v4, v5, v6, v7, v8);
    TestAdjacencyShape(v1, v2, v3, v4, v5, v6, v7, v8);
    ghost var adj := g.adjacency;
    r := g.Search(v1, TestPattern);
    TestSearchResult(adj, v1, v2, v3, v4, v5, v6, v7, v8, r.value);
    TestResultIds(v1, v2, v3, v4, v5, v6, v7, v8, r.value);
    ids := ResultIds(r.value);
  }

  /**
   * graphSearchByPatternTest: build the test graph, search for A, B, C from
   * vertex 1 and collect the id sequences of the paths found. They are exactly
   * the three the test expects.
   */
  method SearchTestGraph() returns (r: Result<set<seq<V>>>, ids: set<seq<int>>)
    ensures r.Ok? && ids == ResultIds(r.value)
    ensures ids == {[4, 6, 5], [1, 2, 5], [4, 6, 8]}
  {
    var g, v1, v2, v3, v4, v5, v6, v7, v8 := BuildTestVertices();
    r, ids := AddTestEdgesAndSearch(g, v1, v2, v3, v4, v5, v6, v7, v8);
  }
}
