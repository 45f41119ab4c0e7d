/** The graph: vertex creation, edge creation, BFS root-type resolution and pattern search. */
module Graphs {
  import opened Outcomes
  import opened Vertices
  import opened Edges
  import opened Walks
  import opened Traversal

  class Graph<I, T(==)> {
    /** Every vertex created by AddVertex, in creation order. */
    var vertices: seq<Vertex<I, T>>
    /** Each vertex to the edges added at it, in insertion order. */
    var adjacency: Adjacency<I, T>

    /** The registered vertices are exactly the keys, each created once, and the map is well formed. */
    ghost predicate Valid()
      reads this
    {
      && (forall v :: v in adjacency ==> v in vertices)
      && (forall v :: v in vertices ==> v in adjacency)
      && Distinct(vertices)
      && WellFormed(adjacency)
    }

    constructor ()
      ensures Valid()
      ensures vertices == [] && adjacency == map[]
    {
      vertices := [];
      adjacency := map[];
    }

    /**
     * addVertex: a null id or type throws; otherwise one fresh vertex is appended
     * and registered with an empty edge list, and nothing else changes.
     */
    method AddVertex(id: Option<I>, kind: Option<T>) returns (r: Result<Vertex<I, T>>)
      requires Valid()
      modifies this
      ensures Valid()
      ensures r.Err? <==> id == None || kind == None
      ensures r.Err? ==> r.error == NullPointer && vertices == old(vertices) && adjacency == old(adjacency)
      ensures r.Ok? ==> fresh(r.value) && r.value !in old(adjacency)
      ensures r.Ok? ==> r.value.id == id.value && r.value.kind == kind.value && !r.value.visited
      ensures r.Ok? ==> vertices == old(vertices) + [r.value] && adjacency == old(adjacency)[r.value := []]
    {
      if id == None || kind == None {
        return Err(NullPointer);
      }
      var v := new Vertex(id.value, kind.value);
      vertices := vertices + [v];
      adjacency := adjacency[v := []];
      return Ok(v);
    }

    /**
     * addEdge: a null endpoint throws before anything changes. Otherwise one edge
     * is appended to `first`'s list and then to `second`'s (twice to one list for a
     * self-loop). An unregistered endpoint throws when its list is fetched, so an
     * unregistered `second` leaves the edge already appended at `first`.
     */
    method AddEdge(first: Vertex?<I, T>, second: Vertex?<I, T>) returns (r: Result<Edge<I, T>>)
      requires Valid()
      modifies this
      ensures vertices == old(vertices)
      ensures r.Ok? <==> first != null && second != null && first in old(adjacency) && second in old(adjacency)
      ensures r.Err? ==> r.error == NullPointer
      ensures first == null || second == null || first !in old(adjacency) ==>
        adjacency == old(adjacency) && Valid()
      ensures first != null && second != null && first in old(adjacency) && second !in old(adjacency) ==>
        adjacency == old(adjacency)[first := old(adjacency)[first] + [Edge(first, second)]]
      ensures r.Ok? ==> r.value == Edge(first, second) && adjacency == WithEdge(old(adjacency), r.value) && Valid()
    {
      if first == null || second == null {
        return Err(NullPointer);
      }
      var edge := NewEdge(first, second).value;
      if first !in adjacency {
        return Err(NullPointer);
      }
      var list := adjacency[first] + [edge];
      adjacency := adjacency[first := list];
      if second !in adjacency {
        return Err(NullPointer);
      }
      list := adjacency[second] + [edge];
      adjacency := adjacency[second := list];
      WithEdgeWellFormed(old(adjacency), edge);
      return Ok(edge);
    }

    /** getNeighbors: one entry per incident edge, in list order, each that edge's `second`. */
    method GetNeighbors(v: Vertex<I, T>) returns (neighbors: seq<Vertex<I, T>>)
      requires v in adjacency
      ensures |neighbors| == |adjacency[v]|
      ensures forall i :: 0 <= i < |neighbors| ==> neighbors[i] == adjacency[v][i].second
      ensures neighbors == Neighbors(adjacency, v)
    {
      neighbors := [];
      var edges := adjacency[v];
      for i := 0 to |edges|
        invariant |neighbors| == i
        invariant forall j :: 0 <= j < i ==> neighbors[j] == edges[j].second
      {
        neighbors := neighbors + [edges[i].second];
      }
    }

    /** getRelevantNeighbors: the getNeighbors entries of type `patternElement`, in order. */
    method GetRelevantNeighbors(v: Vertex<I, T>, patternElement: Option<T>) returns (relevant: seq<Vertex<I, T>>)
      requires v in adjacency
      ensures relevant == RelevantNeighbors(adjacency, v, patternElement)
    {
      relevant := [];
      var neighbors := GetNeighbors(v);
      for i := 0 to |neighbors|
        invariant relevant == FilterKind(neighbors[..i], patternElement)
      {
        assert neighbors[..i + 1][..i] == neighbors[..i];
        if Matches(neighbors[i], patternElement) {
          relevant := relevant + [neighbors[i]];
        }
      }
      assert neighbors[..|neighbors|] == neighbors;
    }

    /**
     * search: an empty pattern fails on its first element; the first element is
     * resolved by traverseGraphBFS (with its failures); the BFS result becomes
     * singleton paths, which are extended once per later element. The paths
     * returned are exactly the matches of the pattern.
     */
    method Search(root: Vertex?<I, T>, patternTypes: seq<Option<T>>) returns (r: Result<set<seq<Vertex<I, T>>>>)
      requires Valid()
      modifies vertices
      ensures |patternTypes| == 0 ==> r == Err(IndexOutOfBounds)
      ensures |patternTypes| > 0 ==> (r.Err? <==> root == null || patternTypes[0] == None || root !in adjacency)
      ensures |patternTypes| > 0 && (root == null || patternTypes[0] == None) ==> r == Err(NullPointer)
      ensures |patternTypes| > 0 && root != null && patternTypes[0] != None && root !in adjacency ==> r == Err(IllegalArgument)
      ensures vertices == old(vertices) && adjacency == old(adjacency)
      ensures r.Err? ==> unchanged(vertices)
      ensures r.Ok? ==> r.value == MatchSet(adjacency, root, patternTypes)
      ensures r.Ok? ==> forall q :: q in r.value <==> IsMatch(adjacency, root, patternTypes, q)
      ensures r.Ok? ==> forall q :: q in r.value ==> |q| == |patternTypes| && forall i :: 0 <= i < |q| ==> Matches(q[i], patternTypes[i])
      ensures r.Ok? ==> root != null && forall i :: 0 <= i < |vertices| ==> (vertices[i].visited <==> Reachable(adjacency, root, vertices[i]))
    {
      if |patternTypes| == 0 {
        return Err(IndexOutOfBounds);
      }
      var first, order := TraverseGraphBFS(root, patternTypes[0]);
      if first.Err? {
        return Err(first.error);
      }
      var paths := ExtendSeeds(root, patternTypes, first.value);
      MatchSetMembers(adjacency, root, patternTypes);
      return Ok(paths);
    }

    /**
     * search run twice with the same arguments on an unchanged graph: the flag
     * reset at the start of traverseGraphBFS makes the second answer equal the first.
     */
    method SearchTwice(root: Vertex?<I, T>, patternTypes: seq<Option<T>>)
      returns (r1: Result<set<seq<Vertex<I, T>>>>, r2: Result<set<seq<Vertex<I, T>>>>)
      requires Valid()
      modifies vertices
      ensures r1 == r2
    {
      r1 := Search(root, patternTypes);
      r2 := Search(root, patternTypes);
    }

    /**
     * The loops of search after the BFS: the BFS result becomes singleton paths,
     * which are extended once per later pattern element.
     */
    method ExtendSeeds(root: Vertex<I, T>, patternTypes: seq<Option<T>>, seeds: seq<Vertex<I, T>>)
      returns (paths: set<seq<Vertex<I, T>>>)
      requires Valid() && |patternTypes| > 0
      requires forall v :: v in seeds <==> Reachable(adjacency, root, v) && Matches(v, patternTypes[0])
      ensures paths == MatchSet(adjacency, root, patternTypes)
    {
      SingletonsOfReachable(adjacency, root, patternTypes[0], seeds);
      paths := SingletonPaths(seeds);
      assert patternTypes[..1] == [patternTypes[0]];
      SeedsEndInGraph(adjacency, root, patternTypes[0]);
      for k := 1 to |patternTypes|
        invariant paths == MatchSet(adjacency, root, patternTypes[..k])
        invariant PathsEndInGraph(adjacency, paths)
      {
        assert patternTypes[..k + 1][..k] == patternTypes[..k];
        paths := GetPathToRelevantNeighbor(paths, patternTypes[k]);
      }
      assert patternTypes[..|patternTypes|] == patternTypes;
    }

    /** The loop of search that turns each BFS result into a one-vertex path. */
    static method SingletonPaths(seeds: seq<Vertex<I, T>>) returns (paths: set<seq<Vertex<I, T>>>)
      ensures paths == Singletons(seeds)
    {
      paths := {};
      for i := 0 to |seeds|
        invariant paths == Singletons(seeds[..i])
      {
        SingletonsSnoc(seeds, i);
        paths := paths + {[seeds[i]]};
      }
      assert seeds[..|seeds|] == seeds;
    }

    /**
     * getPathToRelevantNeighbor: every path extended by every relevant neighbour of
     * its last vertex; a path without one contributes nothing.
     */
    method GetPathToRelevantNeighbor(initialPaths: set<seq<Vertex<I, T>>>, patternElement: Option<T>)
      returns (nextPaths: set<seq<Vertex<I, T>>>)
      requires Valid()
      requires PathsEndInGraph(adjacency, initialPaths)
      ensures nextPaths == ExtendAll(adjacency, initialPaths, patternElement)
      ensures PathsEndInGraph(adjacency, nextPaths)
    {
      nextPaths := {};
      var remaining := initialPaths;
      while remaining != {}
        invariant remaining <= initialPaths
        invariant nextPaths == ExtendAll(adjacency, initialPaths - remaining, patternElement)
        decreases remaining
      {
        var path :| path in remaining;
        ghost var done := initialPaths - remaining;
        assert path in initialPaths;
        var neighbors := GetRelevantNeighbors(path[|path| - 1], patternElement);
        var extended := AppendEach(path, neighbors);
        ExtendAllAddPath(adjacency, done, path, patternElement);
        nextPaths := nextPaths + extended;
        remaining := remaining - {path};
        assert initialPaths - remaining == done + {path};
      }
      assert initialPaths - remaining == initialPaths;
      ExtendAllEndsInGraph(adjacency, initialPaths, patternElement);
    }

    /**
     * traverseGraphBFS: a null root or type throws NullPointer and an
     * unregistered root IllegalArgument, before any flag changes. Otherwise every
     * flag is cleared, the BFS over getAdjacentVertex moves visits `order`
     * (exactly BfsOrder: root first, no vertex twice, each later vertex one move
     * from an earlier one), the result is the visited vertices of type
     * `kind` in visiting order, and afterwards a vertex's flag is set exactly when
     * it is reachable from the root.
     */
    method TraverseGraphBFS(root: Vertex?<I, T>, kind: Option<T>) returns (r: Result<seq<Vertex<I, T>>>, ghost order: seq<Vertex<I, T>>)
      requires Valid()
      modifies vertices
      ensures r.Err? <==> root == null || kind == None || root !in adjacency
      ensures root == null || kind == None ==> r == Err(NullPointer)
      ensures root != null && kind != None && root !in adjacency ==> r == Err(IllegalArgument)
      ensures r.Err? ==> unchanged(vertices)
      ensures r.Ok? ==> |order| > 0 && order[0] == root && Distinct(order) && r.value == FilterKind(order, kind)
      ensures r.Ok? ==> forall i :: 0 <= i < |order| ==> order[i] in adjacency && Reachable(adjacency, root, order[i])
      ensures r.Ok? ==> forall v :: Reachable(adjacency, root, v) ==> v in order
      ensures r.Ok? ==> forall v :: v in r.value <==> Reachable(adjacency, root, v) && Matches(v, kind)
      ensures r.Ok? ==> Distinct(r.value)
      ensures r.Ok? ==> forall i :: 0 <= i < |vertices| ==> (vertices[i].visited <==> Reachable(adjacency, root, vertices[i]))
      ensures r.Ok? ==> order == BfsOrder(adjacency, root) && Parented(adjacency, order)
    {
      order := [];
      if root == null || kind == None {
        return Err(NullPointer), order;
      }
      if root !in adjacency {
        return Err(IllegalArgument), order;
      }
      ClearFlags(vertices);
      var result;
      result, order := Explore(adjacency, vertices, root, kind.value);
      return Ok(result), order;
    }

    /**
     * The queue loop of traverseGraphBFS, started on a registered root with every
     * flag of `vs` cleared: it visits `order`, which is BfsOrder from the root and
     * holds exactly the vertices reachable from it, root first and none twice, and
     * collects those of type `kind`.
     */
    static method Explore(adj: Adjacency<I, T>, ghost vs: seq<Vertex<I, T>>, root: Vertex<I, T>, kind: T)
      returns (result: seq<Vertex<I, T>>, ghost order: seq<Vertex<I, T>>)
      requires WellFormed(adj) && (forall v :: v in adj ==> v in vs)
      requires root in adj
      requires forall i :: 0 <= i < |vs| ==> !vs[i].visited
      modifies vs
      ensures |order| > 0 && order[0] == root && Distinct(order)
      ensures result == FilterKind(order, Some(kind))
      ensures forall v :: v in order <==> Reachable(adj, root, v)
      ensures forall i :: 0 <= i < |vs| ==> (vs[i].visited <==> vs[i] in order)
      ensures forall i :: 0 <= i < |order| ==> order[i] in adj
      ensures order == BfsOrder(adj, root) && Parented(adj, order)
      ensures forall v :: v in result <==> Reachable(adj, root, v) && Matches(v, Some(kind))
      ensures Distinct(result)
    {
      result := [];
      var queue := [root];
      Flag(root, vs, {});
      order := [root];
      ghost var seen := {root};
      ghost var dq := 0;
      FrontierStart(adj, root, kind);
      while queue != []
        invariant Frontier(adj, root, kind, queue, result, order, seen, dq)
        invariant forall i :: 0 <= i < |vs| ==> (vs[i].visited <==> vs[i] in seen)
        invariant BfsRun(adj, order, dq) == BfsOrder(adj, root)
        decreases adj.Keys - seen, |queue|
      {
        FrontierHead(adj, root, kind, queue, result, order, seen, dq);
        var u := queue[0];
        ghost var queue0, result0, seen0 := queue, result, seen;
        queue := queue[1..];
        if u.kind == kind {
          result := result + [u];
        }
        ghost var added;
        queue, added, seen := VisitEdges(adj, vs, u, adj[u], root, queue, order, seen0);
        FrontierStep(adj, root, kind, queue0, result0, order, seen0, dq, added, seen);
        BfsRunStep(adj, order, dq, added);
        order := order + added;
        dq := dq + 1;
      }
      FrontierDone(adj, root, kind, result, order, seen, dq);
      FilterKindMembers(order, Some(kind));
      FilterKindDistinct(order, Some(kind));
      BfsOrderParented(adj, root);
    }

    /**
     * The loop over `u`'s edges in traverseGraphBFS: each getAdjacentVertex(u)
     * not yet flagged is flagged and queued, in edge order (NewEnds), so afterwards
     * every BFS move out of `u` lands on a flagged vertex.
     */
    static method VisitEdges(ghost adj: Adjacency<I, T>, ghost vs: seq<Vertex<I, T>>, u: Vertex<I, T>, edges: seq<Edge<I, T>>, ghost root: Vertex<I, T>,
                             queue: seq<Vertex<I, T>>, ghost order: seq<Vertex<I, T>>, ghost seen: set<Vertex<I, T>>)
      returns (queue': seq<Vertex<I, T>>, ghost added: seq<Vertex<I, T>>, ghost seen': set<Vertex<I, T>>)
      requires WellFormed(adj) && (forall v :: v in adj ==> v in vs)
      requires u in adj && edges == adj[u] && Reachable(adj, root, u)
      requires Explored(adj, root, order, seen)
      requires forall i :: 0 <= i < |vs| ==> (vs[i].visited <==> vs[i] in seen)
      modifies vs
      ensures queue' == queue + added
      ensures Explored(adj, root, order + added, seen') && seen <= seen'
      ensures seen' == seen ==> added == []
      ensures forall i :: 0 <= i < |vs| ==> (vs[i].visited <==> vs[i] in seen')
      ensures ClosedAt(adj, seen', u)
      ensures added == NewEnds(u, edges, seen)
      ensures forall w :: w in added ==> Step(adj, u, w)
    {
      queue', added, seen' := queue, [], seen;
      for j := 0 to |edges|
        invariant queue' == queue + added
        invariant Explored(adj, root, order + added, seen')
        invariant forall i :: 0 <= i < |vs| ==> (vs[i].visited <==> vs[i] in seen')
        invariant added == NewEnds(u, edges[..j], seen) && seen' == seen + Elements(added)
      {
        assert edges[j] in adj[u];
        ghost var added0, seen0 := added, seen';
        queue', added, seen' := VisitEdge(adj, vs, u, edges[j], root, queue, queue', order, added, seen');
        NewEndsSnoc(u, edges, j, seen, added0, seen0, added, seen');
      }
      assert edges[..|edges|] == edges;
      NewEndsCover(adj, u, edges, seen);
      ClosedAtFromEdges(adj, seen', u);
      NewEndsFacts(adj, u, edges, seen);
      if added != [] {
        assert added[0] in seen' - seen;
      }
    }

    /**
     * One pass of that loop: the other endpoint `w` of `edge`, if unflagged, is
     * flagged and queued; either way `w` ends up flagged.
     */
    static method VisitEdge(ghost adj: Adjacency<I, T>, ghost vs: seq<Vertex<I, T>>, u: Vertex<I, T>, edge: Edge<I, T>, ghost root: Vertex<I, T>,
                            ghost base: seq<Vertex<I, T>>, queue: seq<Vertex<I, T>>, ghost order: seq<Vertex<I, T>>, ghost added: seq<Vertex<I, T>>, ghost seen: set<Vertex<I, T>>)
      returns (queue': seq<Vertex<I, T>>, ghost added': seq<Vertex<I, T>>, ghost seen': set<Vertex<I, T>>)
      requires WellFormed(adj) && (forall v :: v in adj ==> v in vs)
      requires u in adj && edge in adj[u] && Reachable(adj, root, u)
      requires Explored(adj, root, order + added, seen) && queue == base + added
      requires forall i :: 0 <= i < |vs| ==> (vs[i].visited <==> vs[i] in seen)
      modifies vs
      ensures edge.AdjacentVertex(u).Some?
      ensures edge.AdjacentVertex(u).value in seen ==> queue' == queue && added' == added && seen' == seen
      ensures edge.AdjacentVertex(u).value !in seen ==>
        var w := edge.AdjacentVertex(u).value;
        queue' == queue + [w] && added' == added + [w] && seen' == seen + {w}
      ensures queue' == base + added'
      ensures Explored(adj, root, order + added', seen')
      ensures forall i :: 0 <= i < |vs| ==> (vs[i].visited <==> vs[i] in seen')
    {
      var w := edge.AdjacentVertex(u).value;
      assert Step(adj, u, w);
      ghost var n :| 0 <= n < |vs| && vs[n] == w;
      queue', added', seen' := queue, added, seen;
      if !w.visited {
        Flag(w, vs, seen);
        ExploredSnoc(adj, root, order + added, seen, u, w);
        assert order + added + [w] == order + (added + [w]);
        assert base + added + [w] == base + (added + [w]);
        queue' := queue + [w];
        added' := added + [w];
        seen' := seen + {w};
      }
    }

    /** The reset loop at the start of traverseGraphBFS: setVisited(false) on every vertex of `vs`. */
    static method ClearFlags(vs: seq<Vertex<I, T>>)
      modifies vs
      ensures forall i :: 0 <= i < |vs| ==> !vs[i].visited
    {
      for i := 0 to |vs|
        invariant forall j :: 0 <= j < i ==> !vs[j].visited
      {
        vs[i].SetVisited(false);
      }
    }

    /** `setVisited(true)` on `w`, seen as adding `w` to the set the flags of `vs` describe. */
    static method Flag(w: Vertex<I, T>, ghost vs: seq<Vertex<I, T>>, ghost seen: set<Vertex<I, T>>)
      requires forall i :: 0 <= i < |vs| ==> (vs[i].visited <==> vs[i] in seen)
      modifies w
      ensures forall i :: 0 <= i < |vs| ==> (vs[i].visited <==> vs[i] in seen + {w})
    {
      w.SetVisited(true);
    }

    /** The inner loop of getPathToRelevantNeighbor: `path` extended by each entry of `neighbors`. */
    static method AppendEach(path: seq<Vertex<I, T>>, neighbors: seq<Vertex<I, T>>) returns (extended: set<seq<Vertex<I, T>>>)
      ensures extended == Appended(path, neighbors)
    {
      extended := {};
      for j := 0 to |neighbors|
        invariant extended == Appended(path, neighbors[..j])
      {
        AppendedSnoc(path, neighbors, j);
        extended := extended + {path + [neighbors[j]]};
      }
      assert neighbors[..|neighbors|] == neighbors;
    }
  }
}
