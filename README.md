# Labelled multigraph with pattern search

This project models an in-memory labelled multigraph with a path search by type pattern. The original is a generic Java class `Graph<I, T>`:

- `I` is a vertex id and `T` a vertex type.
- `addVertex` and `addEdge` build the graph in place.
- `search(root, pattern)` returns every path whose i-th vertex has the i-th type of the pattern.
- The first type is resolved by a breadth-first scan from `root`. The scan uses a `visited` flag stored on each vertex.
- Every later type extends each partial path by the relevant neighbours of its last vertex.

The model is in Dafny and is verified.

Files and modules:

- `outcomes.dfy` (`Outcomes`): `Option` stands in for a Java `null` argument or a "no match" answer. `Result`/`Failure` represent the exceptions the code throws: `NullPointerException`, `IllegalArgumentException`, and `IndexOutOfBoundsException` from `pattern.get(0)` on an empty pattern.
- `vertex.dfy` (`Vertices`): `Vertex` is a class.
  - `id` and `kind` (the Java field `type`) are constants.
  - `visited` is the one mutable field.
  - Equality is reference identity, as in Java, where `Vertex` does not override `equals`.
- `edge.dfy` (`Edges`): `Edge` is an immutable datatype holding `first` and `second`.
  - `getSecond()` is the destructor `second`.
  - `getAdjacentVertex` is `AdjacentVertex`, which returns `None` for "no match".
  - `NewEdge` is the constructor together with its null check.
- `walks.dfy` (`Walks`): pure views of the adjacency map.
  - `WithEdge` is addEdge's update.
  - `Neighbors` is getNeighbors, which returns `getSecond()`. `RelevantNeighbors` is getRelevantNeighbors.
  - `Reachable` is reachability by BFS moves: a move goes from `u` to `getAdjacentVertex(u)` of an edge in `u`'s list.
  - `IsMatch` is the declarative statement of what a search result is. `ExtendAll` and `MatchSet` are the path sets the search loops build.
  - Lemmas connect the two views.
- `bfs.dfy` (`Traversal`): the loop invariant of the BFS queue loop (`Frontier`) and the lemmas that establish it, keep it and read it off at the end.
  - `NewEnds` is what one edge loop queues, and `BfsRun`/`BfsOrder` is the whole FIFO scan written as a function. `Explore` is proved to visit exactly `BfsOrder`.
- `graph.dfy` (`Graphs`): the class `Graph`.
  - Its fields `vertices: seq<Vertex>` and `adjacency: map<Vertex, seq<Edge>>` are updated in place by `AddVertex` and `AddEdge`.
  - `TraverseGraphBFS` keeps the flag-reset loop, the queue loop and the edge loop. The loops are split into helper methods (`ClearFlags`, `Explore`, `VisitEdges`, `VisitEdge`) that set real `visited` flags.
  - `Search`, `GetPathToRelevantNeighbor`, `GetRelevantNeighbors` and `GetNeighbors` keep their for/while loops. Each is proved against the matching function in `Walks`.
- `fixture.dfy` (`GraphFixture`): the repository's regression scenario. It builds the 8-vertex, 16-edge graph in the test's call order and searches it for `A, B, C` from vertex 1. The result is proved to be exactly `{[4,6,5],[1,2,5],[4,6,8]}`, as id sequences. The test itself asserts only that every result lies in this set.

Two behaviours are kept as the code has them:

- **getNeighbors uses `getSecond()`.** `addEdge` puts each edge into both endpoint lists. From the `second` side of an edge, getNeighbors therefore returns the vertex itself, not the other endpoint (`NeighborsAreSelfOrSecond`, `NeighborsFromSecondSide`). The BFS step uses the identity-aware `getAdjacentVertex`. So the first pattern type is resolved over undirected reachability, and later types only follow edges from their `first` side, plus self-entries. In the test graph, for example, vertex 4's neighbour list is `[5, 6, 7, 4, 4, 4]` (`GraphFixture.TestNeighbors`).
- **Failure modes are the exceptions the code throws.**
  - A null argument to `addVertex` or `addEdge` throws `NullPointerException` (src/main/java/graph/Graph.java:30-32 and 49-51).
  - An unregistered `addEdge` endpoint throws `NullPointerException` when its list is fetched (src/main/java/graph/Graph.java:54-58). If `first` is registered and `second` is not, the edge has already been appended to `first`'s list by then, and `AddEdge` states that partial state.
  - `search` with an empty pattern throws `IndexOutOfBoundsException` from `pattern.get(0)` (src/main/java/graph/Graph.java:76).
  - A null first type throws `NullPointerException`, and an unregistered root throws `IllegalArgumentException`, both from traverseGraphBFS (src/main/java/graph/Graph.java:201-206).
  - A null later type matches nothing, because `type.equals(null)` is false (src/main/java/graph/Graph.java:130).

On a graph satisfying the invariant `Valid`, inputs are not limited by a precondition where the code handles them. Null vertices are `Vertex?` arguments, null ids, types and pattern elements are `None`, and unregistered vertices give the error results above. Every graph the operations build satisfies `Valid`, except the one a caught partial `addEdge` failure leaves behind (see "## Left out").

## Model

| member | source | states |
|---|---|---|
| Vertices.Vertex.constructor | src/main/java/graph/Vertex.java:9-13 | the new vertex holds the given id and type (constants, so getId/getType always return them) and starts unvisited; no null check happens here |
| Vertices.Vertex.SetVisited | src/main/java/graph/Vertex.java:23-29 | afterwards the flag (isVisited) reads `b`; only the `visited` field may change |
| Edges.NewEdge | src/main/java/graph/Edge.java:8-14 | fails with NullPointer exactly when an endpoint is null; otherwise stores both endpoints as `first` and `second` |
| Edges.Edge.AdjacentVertex | src/main/java/graph/Edge.java:20-28 | there is an answer exactly when `v` is an endpoint, and it is an endpoint; for any other vertex the result is "no match", not a failure |
| Edges.AdjacentVertexIsOtherEnd | src/main/java/graph/Edge.java:20-28 | `v` and its answer are the edge's two endpoints as a multiset: `second` for `first`, `first` for a `second` distinct from `first`, and `first` itself on a self-loop |
| Edges.AdjacentVertexTwice | src/main/java/graph/Edge.java:12-28 | from either endpoint, crossing the edge twice comes back to that endpoint |
| Graphs.Graph.constructor | src/main/java/graph/Graph.java:18-21 | a new graph has no vertices and an empty map, and satisfies the invariant `Valid` (keys are exactly the vertices, none repeated, every listed edge incident to its key with both ends registered) |
| Graphs.Graph.AddVertex | src/main/java/graph/Graph.java:29-37 | null id or type: NullPointer and no change; otherwise exactly one fresh vertex (so distinct from every earlier one, even with equal id and type) with the given id and type, unvisited, appended to `vertices` and mapped to an empty list, every other list unchanged, invariant kept |
| Graphs.Graph.AddEdge | src/main/java/graph/Graph.java:48-61 | succeeds exactly when both endpoints are non-null and registered, and then appends the one edge `(first, second)` to `first`'s list and then `second`'s (twice to one list for a self-loop), keeping the invariant; a null or unregistered `first` changes nothing; an unregistered `second` leaves the edge appended at `first`; no vertex is ever added |
| Walks.WithEdge | src/main/java/graph/Graph.java:52-59 | no contract; addEdge's update of the map, given meaning by WithEdgeLists and WithEdgeWellFormed |
| Walks.WithEdgeLists | src/main/java/graph/Graph.java:52-59 | addEdge's update keeps the key set, adds one copy of the edge per endpoint position to each endpoint's list, and leaves every other list unchanged |
| Walks.WithEdgeWellFormed | src/main/java/graph/Graph.java:48-61 | adding an edge between registered vertices keeps every listed edge incident to its key, so getAdjacentVertex at the BFS step never answers "no match" |
| Graphs.Graph.GetNeighbors | src/main/java/graph/Graph.java:141-148 | one entry per incident edge, in list order, each equal to that edge's `second` |
| Walks.Neighbors | src/main/java/graph/Graph.java:141-148 | no contract; getNeighbors as a function, given meaning by the ensures of GetNeighbors and by NeighborsAreSelfOrSecond and NeighborsFromSecondSide |
| Walks.NeighborsAreSelfOrSecond | src/main/java/graph/Graph.java:141-148 | in a well-formed map every getNeighbors entry of `v` is `v` itself or the `second` of an edge whose `first` is `v` |
| Walks.NeighborsFromSecondSide | src/main/java/graph/Graph.java:144-146 | from the `second` side of a non-loop edge getNeighbors returns the vertex itself, while getAdjacentVertex returns the other endpoint |
| Graphs.Graph.GetRelevantNeighbors | src/main/java/graph/Graph.java:126-135 | the getNeighbors entries whose type equals the pattern element, in order, repeats kept |
| Walks.RelevantNeighbors | src/main/java/graph/Graph.java:126-135 | no contract; getRelevantNeighbors as a function, given meaning by RelevantNeighborsMember and RelevantNeighborsRegistered |
| Walks.Matches | src/main/java/graph/Graph.java:130 | no contract; a vertex matches a pattern element exactly when the element is present and equals the vertex's type, so a null element matches nothing (also line 220) |
| Walks.RelevantNeighborsMember | src/main/java/graph/Graph.java:126-135 | `w` is a relevant neighbour exactly when it is a getNeighbors entry of the wanted type |
| Walks.RelevantNeighborsRegistered | src/main/java/graph/Graph.java:126-135 | in a well-formed map every relevant neighbour is registered, so the next getNeighbors call finds a list |
| Walks.FilterKind | src/main/java/graph/Graph.java:129-133 | the filter is no longer than its input; its meaning is given by FilterKindMembers, FilterKindCounts and FilterKindDistinct |
| Walks.FilterKindMembers | src/main/java/graph/Graph.java:129-133 | the filter keeps exactly the entries of the wanted type (both directions) |
| Walks.FilterKindCounts | src/main/java/graph/Graph.java:129-133 | the filter keeps every occurrence of a wanted vertex and drops every occurrence of any other |
| Walks.FilterKindDistinct | src/main/java/graph/Graph.java:220-222 | filtering a list without repeats gives a list without repeats, so the BFS result names each vertex once |
| Graphs.Graph.TraverseGraphBFS | src/main/java/graph/Graph.java:199-238 | null root or type: NullPointer; unregistered root: IllegalArgument; no flag changes on failure. Otherwise the visiting order is exactly `BfsOrder` from the root (the FIFO discovery order over the edge lists): it starts at the root, repeats no vertex, holds exactly the vertices reachable from the root, and every later vertex is one move from an earlier one; the result is its entries of the wanted type, in that order, each once, so membership in the result is exactly "reachable and of the wanted type"; afterwards a vertex's flag is set exactly when it is reachable |
| Graphs.Graph.ClearFlags | src/main/java/graph/Graph.java:208-210 | afterwards no vertex of the list is flagged |
| Graphs.Graph.Explore | src/main/java/graph/Graph.java:212-237 | the queue loop, started from a registered root with every flag cleared, visits exactly `BfsOrder` from the root: the root first, no vertex twice, exactly the reachable vertices, each later one a move from an earlier one; it collects those of the wanted type in visiting order, each once, and leaves each flag set exactly when its vertex was visited |
| Graphs.Graph.VisitEdges | src/main/java/graph/Graph.java:229-235 | the edge loop queues exactly `NewEnds`: the other endpoint of each of `u`'s edges, in edge-list order, skipping those flagged before the loop or queued by an earlier edge; each is one BFS move from `u`; the visiting order stays free of repeats and inside the reachable vertices, with the flags marking exactly its entries; afterwards every BFS move out of `u` lands on a flagged vertex |
| Graphs.Graph.VisitEdge | src/main/java/graph/Graph.java:230-234 | the other endpoint always exists; if unflagged it is flagged and queued, otherwise queue and flags are unchanged |
| Traversal.NewEnds | src/main/java/graph/Graph.java:229-235 | no contract; the vertices one edge loop queues, given meaning by NewEndsFacts, NewEndsCover and NewEndsSnoc |
| Traversal.NewEndsSnoc | src/main/java/graph/Graph.java:229-235 | one more edge queues its other endpoint exactly when that endpoint is not yet flagged |
| Traversal.NewEndsFacts | src/main/java/graph/Graph.java:229-235 | what one edge loop queues has no repeats, was unflagged before the loop, and is each one BFS move from the dequeued vertex |
| Traversal.NewEndsCover | src/main/java/graph/Graph.java:229-235 | after the edge loop the other endpoint of every edge in the list is flagged |
| Traversal.BfsRun | src/main/java/graph/Graph.java:216-236 | no contract; the FIFO scan as a function: dequeue the next vertex, append what its edge loop queues, stop when the queue is empty; given meaning by BfsRunStep, BfsRunParented and the ensures of Explore |
| Traversal.BfsOrder | src/main/java/graph/Graph.java:212-236 | no contract; BfsRun started with only the root queued |
| Traversal.BfsRunGrows | src/main/java/graph/Graph.java:229-235 | a dequeue keeps every queued vertex registered and either queues a new vertex or nothing, which is why the scan ends |
| Traversal.BfsRunStep | src/main/java/graph/Graph.java:216-235 | one dequeue-and-scan leaves the order the scan finishes with unchanged |
| Traversal.ParentedAppend | src/main/java/graph/Graph.java:229-235 | appending vertices one move from a queued vertex keeps every vertex after the root one move from an earlier one |
| Traversal.BfsRunParented | src/main/java/graph/Graph.java:216-236 | the scan only ever appends vertices one move from an already queued one |
| Traversal.BfsOrderParented | src/main/java/graph/Graph.java:212-236 | in the BFS order every vertex after the root is one move from an earlier one |
| Graphs.Graph.Flag | src/main/java/graph/Graph.java:231-233 | `setVisited(true)` on `w` adds exactly `w` to the set of flagged vertices |
| Traversal.FrontierStart | src/main/java/graph/Graph.java:212-214 | with the root queued and flagged, the queue-loop invariant holds |
| Traversal.FrontierHead | src/main/java/graph/Graph.java:216-217 | the dequeued vertex is the next vertex of the visiting order, registered and reachable, so its edge list exists |
| Traversal.FrontierStep | src/main/java/graph/Graph.java:216-235 | one dequeue-and-scan keeps the invariant, and either flags a new vertex or shortens the queue, so the loop ends |
| Traversal.FrontierDone | src/main/java/graph/Graph.java:216-237 | when the queue is empty, the result is the wanted-type filter of the visiting order, and that order holds exactly the reachable vertices |
| Traversal.ExploredSnoc | src/main/java/graph/Graph.java:231-233 | flagging and queuing an unvisited vertex one move from a reachable one keeps the visiting order free of repeats and inside the reachable set |
| Traversal.ClosedAtFromEdges | src/main/java/graph/Graph.java:229-235 | once every edge's other endpoint is flagged, every BFS move out of the vertex lands on a flagged vertex |
| Walks.Step | src/main/java/graph/Graph.java:229-234 | no contract; a BFS move from `u` to the getAdjacentVertex(u) answer of an edge in `u`'s list |
| Walks.Reachable | src/main/java/graph/Graph.java:229-234 | no contract; a walk of BFS moves leads from the root to `v`; given meaning by ClosedContainsReachable and the ensures of Explore |
| Walks.ClosedContainsReachable | src/main/java/graph/Graph.java:216-236 | a vertex set that holds the root and is closed under BFS moves contains every reachable vertex, which is why the finished scan misses none |
| Walks.WalkStaysInside | src/main/java/graph/Graph.java:216-236 | a walk that starts in a set closed under BFS moves stays in it |
| Walks.ReachableIsRegistered | src/main/java/graph/Graph.java:223-226 | in a well-formed map everything reachable from a registered root is registered, so the null-list branch never runs |
| Graphs.Graph.GetPathToRelevantNeighbor | src/main/java/graph/Graph.java:106-120 | the result is every input path extended by every relevant neighbour of its last vertex; a path without one contributes nothing; every result ends at a registered vertex |
| Graphs.Graph.AppendEach | src/main/java/graph/Graph.java:113-117 | the inner loop yields the path extended by each neighbour, one path per neighbour |
| Walks.ExtendAll | src/main/java/graph/Graph.java:106-120 | no contract; the path set getPathToRelevantNeighbor builds, given meaning by ExtendAllIff and ExtendAllAddPath |
| Walks.ExtendAllIff | src/main/java/graph/Graph.java:106-120 | a path is in the extended set exactly when it is an input path plus one relevant neighbour of that path's end |
| Walks.ExtendAllAddPath | src/main/java/graph/Graph.java:109-118 | handling one more input path adds exactly its extensions to the result |
| Walks.ExtendAllEndsInGraph | src/main/java/graph/Graph.java:106-120 | in a well-formed map every extended path is non-empty and ends at a registered vertex |
| Graphs.Graph.SingletonPaths | src/main/java/graph/Graph.java:85-89 | the seed loop yields exactly the one-vertex paths of the BFS result |
| Walks.Seeds | src/main/java/graph/Graph.java:75-89 | no contract; the one-vertex paths of the reachable vertices of the first type, given meaning by SeedsIff |
| Walks.SingletonsOfReachable | src/main/java/graph/Graph.java:75-89 | the one-vertex paths of the BFS result are exactly the reachable vertices of the first type |
| Graphs.Graph.ExtendSeeds | src/main/java/graph/Graph.java:84-95 | starting from the BFS result, one getPathToRelevantNeighbor round per later pattern element yields exactly the path set of the whole pattern |
| Graphs.Graph.Search | src/main/java/graph/Graph.java:69-98 | empty pattern: IndexOutOfBounds; null root or null first type: NullPointer; unregistered root: IllegalArgument; no other failure. On success the graph's vertices and map are unchanged, and a path is in the result exactly when it has the pattern's length, starts at a vertex reachable from the root, has at each position a vertex of the pattern's type there, and moves on through getNeighbors entries |
| Graphs.Graph.SearchTwice | src/main/java/graph/Graph.java:69-98 | searching twice with the same arguments on an unchanged graph gives the same answer, since the flags are reset each time |
| Walks.MatchSet | src/main/java/graph/Graph.java:69-98 | no contract; the seeds extended once per later pattern element, given meaning by MatchSetIff |
| Walks.MatchSetIff | src/main/java/graph/Graph.java:69-98 | the path set built by the seed step and the extension rounds is exactly the set of `IsMatch` paths (both directions) |
| Walks.MatchSetMembers | src/main/java/graph/Graph.java:69-98 | the same, for every path at once |
| Walks.SeedsIff | src/main/java/graph/Graph.java:75-89 | for a one-type pattern the seeds are exactly the matches |
| Walks.ExtendMatchesAt | src/main/java/graph/Graph.java:92-95 | a match of a pattern prefix plus one relevant neighbour of its end is a match of the prefix one longer, and every such match arises this way |
| Walks.MatchSetStep | src/main/java/graph/Graph.java:92-95 | given the claim for the shorter pattern, one extension round yields exactly the matches of the longer pattern |
| GraphFixture.BuildTestVertices | src/test/java/GraphTest.java:14-22 | the eight addVertex calls give eight fresh vertices with ids 1..8 and types A, B, D, A, C, B, E, C, registered in that order with empty lists |
| GraphFixture.AddTestVerticesFirst | src/test/java/GraphTest.java:15-16 | two fresh vertices with ids 1, 2 and types A, B, registered in that order with empty lists |
| GraphFixture.AddTestVerticesSecond | src/test/java/GraphTest.java:17-18 | two more with ids 3, 4 and types D, A |
| GraphFixture.AddTestVerticesThird | src/test/java/GraphTest.java:19-20 | two more with ids 5, 6 and types C, B |
| GraphFixture.AddTestVerticesLast | src/test/java/GraphTest.java:21-22 | the last two with ids 7, 8 and types E, C |
| GraphFixture.AddTestEdgesFirst | src/test/java/GraphTest.java:24-31 | the first eight addEdge calls leave the map that eight WithEdge updates give |
| GraphFixture.AddTestEdgesLast | src/test/java/GraphTest.java:32-39 | the last eight addEdge calls complete the map of all sixteen |
| GraphFixture.TestAdjacencyShape | src/test/java/GraphTest.java:24-39 | after the sixteen addEdge calls, each vertex's edge list is the one written out in `TestShape` |
| GraphFixture.TestNeighbors | src/test/java/GraphTest.java:24-39 | the getNeighbors lists of vertices 1, 2, 4 and 6 in the test graph, self-entries included |
| GraphFixture.TestReachable | src/test/java/GraphTest.java:24-39 | vertex 4 is reachable from vertex 1 (through 2 and 5), so it is a seed for type A |
| GraphFixture.TestMatches | src/test/java/GraphTest.java:41-46 | the matches of A, B, C from vertex 1 are exactly 4-6-5, 1-2-5 and 4-6-8 |
| GraphFixture.OnlyExpected | src/test/java/GraphTest.java:41-46 | every match is one of the three expected paths |
| GraphFixture.ExpectedMatch | src/test/java/GraphTest.java:41-46 | each of the three expected paths is a match |
| GraphFixture.PathIds | src/test/java/GraphTest.java:63-68 | no contract; the ids of one result path, in order |
| GraphFixture.ResultIds | src/test/java/GraphTest.java:61-71 | no contract; getActualResults, the set of id sequences of a search result; given meaning by TestResultIds |
| GraphFixture.TestSearchResult | src/test/java/GraphTest.java:46 | the search result on the test graph is exactly the set of the three paths |
| GraphFixture.TestResultIds | src/test/java/GraphTest.java:61-91 | the id sequences of those three paths (getActualResults) are exactly the expected results |
| GraphFixture.AddTestEdgesAndSearch | src/test/java/GraphTest.java:24-46 | after the sixteen addEdge calls the search returns exactly the paths 4-6-5, 1-2-5 and 4-6-8, and `ids` is their getActualResults set `ResultIds(r.value)`, which equals `{[4,6,5],[1,2,5],[4,6,8]}` |
| GraphFixture.SearchTestGraph | src/test/java/GraphTest.java:14-57 | the whole test scenario's search succeeds, `ids` is `ResultIds` of what it returned (getActualResults(graph.search(...)), line 46), and that set equals the expected set, which is stronger than the subset assertion of lines 55-59 |

## Left out

- traverseGraphDFS (src/main/java/graph/Graph.java:158-188) is not modelled. Its only call is commented out, so it never runs.
- The null check on the BFS result (src/main/java/graph/Graph.java:77-79) is not modelled. traverseGraphBFS never returns null, so the branch is dead.
- The null edge-list branch (src/main/java/graph/Graph.java:224-226) is not modelled as a branch. `Walks.ReachableIsRegistered` shows it cannot be taken in a graph satisfying `Valid`.
- `toString` of `Vertex` and `Edge` is not modelled. It only renders text and has no role in the search.
- A null `patternTypes` list is not modelled, because Dafny sequences cannot be null. Null pattern elements are modelled.
- The copy of the pattern that search makes is not modelled. Dafny sequences are values, so the caller's sequence cannot change anyway.
- Java collections are replaced by mathematical ones: `ArrayList` by `seq`, `HashMap` by `map`, `HashSet` by `set`, and `ArrayDeque` by a `seq` queue. Hashing is left out. Iteration order over a `HashSet` in getPathToRelevantNeighbor is an arbitrary choice (`:|`). The set result does not depend on it.
- Vertex equality is reference equality of `Vertex` objects. `Edge` is a value datatype, so edges with equal endpoints compare equal. This is sound because the code never compares edges: it only appends them and reads their endpoints.
- The getters `getId`, `getType`, `isVisited` and `getSecond` are the fields and destructors they return; they are not separate members.
- Console output in the test (src/test/java/GraphTest.java:49-50) is not modelled. Concurrency is left out too: the graph is single-threaded, and the shared `visited` flags are ordinary sequential state.
- Graphs.Graph.AddEdge: after the partial failure (registered `first`, unregistered `second`), the contract states the new map but does not promise the invariant `Valid`. The edge listed at `first` then names an unregistered vertex.
- A graph left behind by a caught partial `addEdge` failure is outside the model, because every other operation requires `Valid`. The Java graph stays usable in that state. addVertex still works. traverseGraphBFS does not reset the foreign vertex's flag, because the vertex is not in `vertices`, and it takes the null edge-list branch when it dequeues that vertex. A search step from that vertex throws `NullPointerException` in getNeighbors. None of this is modelled.
- Walks.FilterKind: its own contract states only the length bound. Its meaning is stated by the lemmas FilterKindMembers, FilterKindCounts and FilterKindDistinct.
