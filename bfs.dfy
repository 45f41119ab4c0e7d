/**
 * The state traverseGraphBFS keeps between queue iterations, and why its final
 * state is the set of vertices reachable from the root.
 */
module Traversal {
  import opened Outcomes
  import opened Vertices
  import opened Edges
  import opened Walks

  /** The set of entries of `s`. */
  ghost function Elements<X>(s: seq<X>): set<X> {
    set x | x in s
  }

  /**
   * What the BFS keeps of its visiting order: no vertex twice, `seen` its set of
   * entries, every entry registered and reachable from `root`.
   */
  ghost predicate Explored<I, T>(adj: Adjacency<I, T>, root: Vertex<I, T>, order: seq<Vertex<I, T>>, seen: set<Vertex<I, T>>) {
    && Distinct(order)
    && seen == Elements(order)
    && seen <= adj.Keys
    && (forall i :: 0 <= i < |order| ==> order[i] in adj && Reachable(adj, root, order[i]))
  }

  /** Visiting one more unseen vertex, reached by a move from a reachable one, keeps Explored. */
  lemma ExploredSnoc<I, T>(adj: Adjacency<I, T>, root: Vertex<I, T>, order: seq<Vertex<I, T>>, seen: set<Vertex<I, T>>,
                           u: Vertex<I, T>, w: Vertex<I, T>)
    requires Explored(adj, root, order, seen) && w !in seen
    requires Reachable(adj, root, u) && Step(adj, u, w)
    ensures Explored(adj, root, order + [w], seen + {w})
  {
    ReachableStep(adj, root, u, w);
    assert Elements(order + [w]) == Elements(order) + {w};
  }

  /** Closedness of the first `n - 1` entries survives growing the set; with the `n`-th closed in the new set, all `n` are. */
  lemma ClosedPrefixGrows<I, T>(adj: Adjacency<I, T>, s: set<Vertex<I, T>>, s': set<Vertex<I, T>>, order: seq<Vertex<I, T>>, n: nat)
    requires 0 < n <= |order| && s <= s'
    requires forall i :: 0 <= i < n - 1 ==> ClosedAt(adj, s, order[i])
    requires ClosedAt(adj, s', order[n - 1])
    ensures forall i :: 0 <= i < n ==> ClosedAt(adj, s', order[i])
  {
    forall i | 0 <= i < n - 1 ensures ClosedAt(adj, s', order[i]) {
      assert ClosedAt(adj, s, order[i]);
    }
  }

  /** If the other endpoint of every edge listed at `u` is in `s`, `u` is closed in `s`. */
  lemma ClosedAtFromEdges<I, T>(adj: Adjacency<I, T>, s: set<Vertex<I, T>>, u: Vertex<I, T>)
    requires u in adj
    requires forall k :: 0 <= k < |adj[u]| ==> adj[u][k].AdjacentVertex(u).Some? && adj[u][k].AdjacentVertex(u).value in s
    ensures ClosedAt(adj, s, u)
  {
    forall w | Step(adj, u, w) ensures w in s {
      var e :| e in adj[u] && e.AdjacentVertex(u) == Some(w);
      var k :| 0 <= k < |adj[u]| && adj[u][k] == e;
    }
  }

  /** The entries of a concatenation are those of its two parts. */
  lemma ElementsAppend<X>(a: seq<X>, b: seq<X>)
    ensures Elements(a + b) == Elements(a) + Elements(b)
  {
    forall x | x in Elements(a + b) ensures x in Elements(a) + Elements(b) {
      var i :| 0 <= i < |a + b| && (a + b)[i] == x;
      if i >= |a| { assert b[i - |a|] == x; }
    }
  }

  /**
   * What traverseGraphBFS's loop over `edges` queues from `u` when `seen` is
   * flagged at its start: the other endpoint of each edge, in list order, unless
   * it is flagged already or was queued by an earlier edge of the same loop.
   */
  ghost function NewEnds<I, T>(u: Vertex<I, T>, edges: seq<Edge<I, T>>, seen: set<Vertex<I, T>>): seq<Vertex<I, T>>
    decreases |edges|
  {
    if edges == [] then []
    else
      var prev := NewEnds(u, edges[..|edges| - 1], seen);
      var w := edges[|edges| - 1].AdjacentVertex(u);
      if w.Some? && w.value !in seen && w.value !in prev then prev + [w.value] else prev
  }

  /**
   * One more pass of the edge loop: with `prev` queued so far and `s` flagged,
   * the `j`-th edge's other endpoint is queued exactly when it is unflagged.
   */
  lemma NewEndsSnoc<I, T>(u: Vertex<I, T>, edges: seq<Edge<I, T>>, j: nat, seen: set<Vertex<I, T>>,
                          prev: seq<Vertex<I, T>>, s: set<Vertex<I, T>>, next: seq<Vertex<I, T>>, s': set<Vertex<I, T>>)
    requires j < |edges| && prev == NewEnds(u, edges[..j], seen) && s == seen + Elements(prev)
    requires edges[j].AdjacentVertex(u).Some?
    requires var w := edges[j].AdjacentVertex(u).value;
      if w in s then next == prev && s' == s else next == prev + [w] && s' == s + {w}
    ensures next == NewEnds(u, edges[..j + 1], seen) && s' == seen + Elements(next)
  {
    assert edges[..j + 1][..j] == edges[..j];
    ElementsAppend(prev, [edges[j].AdjacentVertex(u).value]);
    assert Elements([edges[j].AdjacentVertex(u).value]) == {edges[j].AdjacentVertex(u).value};
  }

  /** What one edge loop queues are distinct, unflagged before it, and each one BFS move from `u`. */
  lemma {:induction false} NewEndsFacts<I, T>(adj: Adjacency<I, T>, u: Vertex<I, T>, edges: seq<Edge<I, T>>, seen: set<Vertex<I, T>>)
    requires WellFormed(adj) && u in adj
    requires forall i :: 0 <= i < |edges| ==> edges[i] in adj[u]
    ensures Distinct(NewEnds(u, edges, seen))
    ensures forall w :: w in NewEnds(u, edges, seen) ==> w !in seen && w in adj && Step(adj, u, w)
    decreases |edges|
  {
    if edges != [] {
      var pre := edges[..|edges| - 1];
      assert forall i :: 0 <= i < |pre| ==> pre[i] == edges[i];
      NewEndsFacts(adj, u, pre, seen);
      var e := edges[|edges| - 1];
      assert e in adj[u];
      var w := e.AdjacentVertex(u);
      if w.Some? {
        assert Step(adj, u, w.value);
      }
    }
  }

  /**
   * After the edge loop the other endpoint of every edge in `edges` is flagged:
   * it was flagged at the start or the loop queued it.
   */
  lemma {:induction false} NewEndsCover<I, T>(adj: Adjacency<I, T>, u: Vertex<I, T>, edges: seq<Edge<I, T>>, seen: set<Vertex<I, T>>)
    requires WellFormed(adj) && u in adj
    requires forall i :: 0 <= i < |edges| ==> edges[i] in adj[u]
    ensures forall k :: 0 <= k < |edges| ==>
      edges[k].AdjacentVertex(u).Some? && edges[k].AdjacentVertex(u).value in seen + Elements(NewEnds(u, edges, seen))
    decreases |edges|
  {
    if edges != [] {
      var pre := edges[..|edges| - 1];
      assert forall i :: 0 <= i < |pre| ==> pre[i] == edges[i];
      NewEndsCover(adj, u, pre, seen);
      var prev := NewEnds(u, pre, seen);
      var e := edges[|edges| - 1];
      assert e in adj[u];
      ElementsAppend(prev, [e.AdjacentVertex(u).value]);
      forall k | 0 <= k < |edges|
        ensures edges[k].AdjacentVertex(u).Some? && edges[k].AdjacentVertex(u).value in seen + Elements(NewEnds(u, edges, seen))
      {
        if k < |pre| {
          assert edges[k] == pre[k];
        }
      }
    }
  }

  /**
   * The FIFO scan of traverseGraphBFS as a function: `order` lists every vertex
   * queued so far, the first `dq` of them dequeued. Dequeuing the next one appends
   * what the loop over its edge list queues; the scan stops when nothing is left
   * in the queue.
   */
  ghost function BfsRun<I, T>(adj: Adjacency<I, T>, order: seq<Vertex<I, T>>, dq: nat): seq<Vertex<I, T>>
    requires WellFormed(adj) && dq <= |order| && Elements(order) <= adj.Keys
    decreases adj.Keys - Elements(order), |order| - dq
  {
    if dq == |order| then order
    else
      assert order[dq] in Elements(order);
      BfsRunGrows(adj, order, order[dq]);
      BfsRun(adj, order + NewEnds(order[dq], adj[order[dq]], Elements(order)), dq + 1)
  }

  /** One dequeue of BfsRun stays inside the graph, and either queues a new vertex or nothing. */
  lemma BfsRunGrows<I, T>(adj: Adjacency<I, T>, order: seq<Vertex<I, T>>, u: Vertex<I, T>)
    requires WellFormed(adj) && u in adj && Elements(order) <= adj.Keys
    ensures var order' := order + NewEnds(u, adj[u], Elements(order));
      && Elements(order') <= adj.Keys
      && (adj.Keys - Elements(order') < adj.Keys - Elements(order) || order' == order)
  {
    var added := NewEnds(u, adj[u], Elements(order));
    NewEndsFacts(adj, u, adj[u], Elements(order));
    ElementsAppend(order, added);
    if added != [] {
      assert added[0] in adj.Keys - Elements(order);
    } else {
      assert order + added == order;
    }
  }

  /** The visiting order of traverseGraphBFS from `root`: BfsRun started with only the root queued. */
  ghost function BfsOrder<I, T>(adj: Adjacency<I, T>, root: Vertex<I, T>): seq<Vertex<I, T>>
    requires WellFormed(adj) && root in adj
  {
    assert Elements([root]) == {root};
    BfsRun(adj, [root], 0)
  }

  /** Every entry after the first is one BFS move from an entry before it. */
  ghost predicate Parented<I, T>(adj: Adjacency<I, T>, order: seq<Vertex<I, T>>) {
    forall i :: 0 < i < |order| ==> HasParent(adj, order, i)
  }

  /** Entry `i` of `order` is one BFS move from an entry before it. */
  ghost predicate HasParent<I, T>(adj: Adjacency<I, T>, order: seq<Vertex<I, T>>, i: nat)
    requires i < |order|
  {
    exists j :: 0 <= j < i && Step(adj, order[j], order[i])
  }

  /** Appending vertices that are each one move from an entry keeps every entry but the first parented. */
  lemma ParentedAppend<I, T>(adj: Adjacency<I, T>, order: seq<Vertex<I, T>>, p: nat, added: seq<Vertex<I, T>>)
    requires Parented(adj, order) && p < |order|
    requires forall w :: w in added ==> Step(adj, order[p], w)
    ensures Parented(adj, order + added)
  {
    forall i | 0 < i < |order + added| ensures HasParent(adj, order + added, i) {
      if i < |order| {
        assert HasParent(adj, order, i);
        var j :| 0 <= j < i && Step(adj, order[j], order[i]);
        assert (order + added)[j] == order[j];
      } else {
        assert (order + added)[i] in added && (order + added)[p] == order[p];
        assert 0 <= p < i && Step(adj, (order + added)[p], (order + added)[i]);
      }
    }
  }

  /** BfsRun only appends vertices one move from an already queued one. */
  lemma {:induction false} BfsRunParented<I, T>(adj: Adjacency<I, T>, order: seq<Vertex<I, T>>, dq: nat)
    requires WellFormed(adj) && dq <= |order| && Elements(order) <= adj.Keys
    requires Parented(adj, order)
    ensures Parented(adj, BfsRun(adj, order, dq))
    decreases adj.Keys - Elements(order), |order| - dq
  {
    if dq < |order| {
      var u := order[dq];
      assert u in Elements(order);
      var added := NewEnds(u, adj[u], Elements(order));
      NewEndsFacts(adj, u, adj[u], Elements(order));
      ParentedAppend(adj, order, dq, added);
      BfsRunGrows(adj, order, u);
      BfsRunParented(adj, order + added, dq + 1);
    }
  }

  /** In the BFS order from `root` the root comes first and every later vertex is one move from an earlier one. */
  lemma BfsOrderParented<I, T>(adj: Adjacency<I, T>, root: Vertex<I, T>)
    requires WellFormed(adj) && root in adj
    ensures Parented(adj, BfsOrder(adj, root))
  {
    assert Elements([root]) == {root};
    BfsRunParented(adj, [root], 0);
  }

  /** One more dequeue leaves the order BfsRun finishes with unchanged. */
  lemma BfsRunStep<I, T>(adj: Adjacency<I, T>, order: seq<Vertex<I, T>>, dq: nat, added: seq<Vertex<I, T>>)
    requires WellFormed(adj) && dq < |order| && Elements(order) <= adj.Keys
    requires added == NewEnds(order[dq], adj[order[dq]], Elements(order))
    ensures Elements(order + added) <= adj.Keys
    ensures BfsRun(adj, order + added, dq + 1) == BfsRun(adj, order, dq)
  {
    assert order[dq] in Elements(order);
    BfsRunGrows(adj, order, order[dq]);
  }

  /**
   * The queue loop's invariant: `order` lists every vertex ever queued, the first
   * `dq` of them already dequeued and the rest still `queue`d; each dequeued vertex
   * is closed under BFS moves in `seen`, and `result` holds the dequeued vertices
   * of type `kind`, in dequeue order.
   */
  ghost predicate Frontier<I, T>(adj: Adjacency<I, T>, root: Vertex<I, T>, kind: T, queue: seq<Vertex<I, T>>,
                                 result: seq<Vertex<I, T>>, order: seq<Vertex<I, T>>, seen: set<Vertex<I, T>>, dq: nat) {
    && dq <= |order|
    && queue == order[dq..]
    && |order| > 0 && order[0] == root
    && Explored(adj, root, order, seen)
    && (forall i :: 0 <= i < dq ==> ClosedAt(adj, seen, order[i]))
    && result == FilterKind(order[..dq], Some(kind))
  }

  /** Right after the root is queued. */
  lemma FrontierStart<I, T>(adj: Adjacency<I, T>, root: Vertex<I, T>, kind: T)
    requires root in adj
    ensures Frontier(adj, root, kind, [root], [], [root], {root}, 0)
  {
    ReachableRoot(adj, root);
    assert Elements([root]) == {root};
  }

  /** The head of the queue is a registered vertex reachable from the root. */
  lemma FrontierHead<I, T>(adj: Adjacency<I, T>, root: Vertex<I, T>, kind: T, queue: seq<Vertex<I, T>>,
                           result: seq<Vertex<I, T>>, order: seq<Vertex<I, T>>, seen: set<Vertex<I, T>>, dq: nat)
    requires Frontier(adj, root, kind, queue, result, order, seen, dq) && queue != []
    ensures dq < |order| && queue[0] == order[dq]
    ensures queue[0] in adj && Reachable(adj, root, queue[0])
  {
  }

  /**
   * One queue iteration: dequeue `u`, keep it when its type is `kind`, and queue
   * the unseen vertices `added` so that `u` becomes closed in `seen'`. The
   * invariant holds again, and either `seen` grew or the queue shrank.
   */
  lemma FrontierStep<I, T>(adj: Adjacency<I, T>, root: Vertex<I, T>, kind: T, queue: seq<Vertex<I, T>>,
                           result: seq<Vertex<I, T>>, order: seq<Vertex<I, T>>, seen: set<Vertex<I, T>>, dq: nat,
                           added: seq<Vertex<I, T>>, seen': set<Vertex<I, T>>)
    requires Frontier(adj, root, kind, queue, result, order, seen, dq) && queue != []
    requires Explored(adj, root, order + added, seen') && seen <= seen' && (seen' == seen ==> added == [])
    requires ClosedAt(adj, seen', queue[0])
    ensures Frontier(adj, root, kind, queue[1..] + added,
                     result + (if Matches(queue[0], Some(kind)) then [queue[0]] else []), order + added, seen', dq + 1)
    ensures adj.Keys - seen' < adj.Keys - seen || (seen' == seen && |queue[1..] + added| < |queue|)
  {
    var order' := order + added;
    assert order'[..dq + 1] == order[..dq] + [queue[0]];
    assert order'[dq + 1..] == queue[1..] + added;
    ClosedPrefixGrows(adj, seen, seen', order', dq + 1);
    if seen' != seen {
      var w :| w in seen' && w !in seen;
      assert w in adj.Keys - seen;
    }
  }

  /**
   * When the queue is empty every queued vertex is closed, so `order` holds
   * exactly the vertices reachable from the root, and `result` those of them of
   * type `kind`.
   */
  lemma FrontierDone<I, T>(adj: Adjacency<I, T>, root: Vertex<I, T>, kind: T,
                           result: seq<Vertex<I, T>>, order: seq<Vertex<I, T>>, seen: set<Vertex<I, T>>, dq: nat)
    requires Frontier(adj, root, kind, [], result, order, seen, dq)
    ensures result == FilterKind(order, Some(kind))
    ensures forall v :: v in order <==> Reachable(adj, root, v)
  {
    assert order[..dq] == order;
    forall u | u in seen ensures ClosedAt(adj, seen, u) {
      var i :| 0 <= i < |order| && order[i] == u;
    }
    ClosedContainsReachable(adj, seen, root);
    forall v | v in order ensures Reachable(adj, root, v) {
      var i :| 0 <= i < |order| && order[i] == v;
    }
  }
}
