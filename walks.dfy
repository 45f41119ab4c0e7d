/**
 * Pure views of the graph's adjacency map: the two neighbour relations the
 * source uses, reachability, and what a path matching a pattern is.
 */
module Walks {
  import opened Outcomes
  import opened Vertices
  import opened Edges

  /** The adjacency map: each registered vertex to its incident edges, in insertion order. */
  type Adjacency<I, T> = map<Vertex<I, T>, seq<Edge<I, T>>>

  /**
   * What addVertex and addEdge keep true of the map: every edge listed for `v`
   * has `v` as an endpoint, and both of its endpoints are registered.
   */
  ghost predicate WellFormed<I, T>(adj: Adjacency<I, T>) {
    forall v, e :: v in adj && e in adj[v] ==>
      (e.first == v || e.second == v) && e.first in adj && e.second in adj
  }

  /**
   * addEdge's update: `e` appended to the list of its `first`, then to the list
   * of its `second` (so twice to one list for a self-loop).
   */
  function WithEdge<I, T>(adj: Adjacency<I, T>, e: Edge<I, T>): (r: Adjacency<I, T>)
    requires e.first in adj && e.second in adj
  {
    var once := adj[e.first := adj[e.first] + [e]];
    once[e.second := once[e.second] + [e]]
  }

  /**
   * WithEdge registers no vertex and changes only the endpoints' lists, each by
   * one copy of `e` per endpoint position it fills.
   */
  lemma WithEdgeLists<I, T>(adj: Adjacency<I, T>, e: Edge<I, T>, v: Vertex<I, T>)
    requires e.first in adj && e.second in adj
    ensures WithEdge(adj, e).Keys == adj.Keys
    ensures v in adj ==>
      WithEdge(adj, e)[v] == adj[v] + (if v == e.first then [e] else []) + (if v == e.second then [e] else [])
  {
  }

  /** Adding an edge between two registered vertices keeps the map well formed. */
  lemma WithEdgeWellFormed<I, T>(adj: Adjacency<I, T>, e: Edge<I, T>)
    requires WellFormed(adj) && e.first in adj && e.second in adj
    ensures WellFormed(WithEdge(adj, e))
  {
    var r := WithEdge(adj, e);
    forall v: Vertex<I, T>, f: Edge<I, T> | v in r && f in r[v] ensures (f.first == v || f.second == v) && f.first in r && f.second in r {
      WithEdgeLists(adj, e, v);
      if f != e {
        assert f in adj[v];
      }
    }
  }

  /** getNeighbors: `getSecond()` of every incident edge, in list order. */
  function Neighbors<I, T>(adj: Adjacency<I, T>, v: Vertex<I, T>): seq<Vertex<I, T>>
    requires v in adj
  {
    seq(|adj[v]|, i requires 0 <= i < |adj[v]| => adj[v][i].second)
  }

  /** `getType().equals(patternElement)`; a null pattern element equals no type. */
  predicate Matches<I, T(==)>(w: Vertex<I, T>, patternElement: Option<T>) {
    patternElement == Some(w.kind)
  }

  /** The entries of `s` whose type is `patternElement`, in order. */
  function FilterKind<I, T(==)>(s: seq<Vertex<I, T>>, patternElement: Option<T>): (r: seq<Vertex<I, T>>)
    ensures |r| <= |s|
    decreases |s|
  {
    if s == [] then []
    else
      var init, last := s[..|s| - 1], s[|s| - 1];
      assert s == init + [last];
      FilterKind(init, patternElement) + (if Matches(last, patternElement) then [last] else [])
  }

  /** FilterKind keeps exactly the entries of the wanted type. */
  lemma {:induction false} FilterKindMembers<I, T>(s: seq<Vertex<I, T>>, patternElement: Option<T>)
    ensures forall w :: w in FilterKind(s, patternElement) <==> w in s && Matches(w, patternElement)
    decreases |s|
  {
    if s != [] {
      var init, last := s[..|s| - 1], s[|s| - 1];
      assert s == init + [last];
      FilterKindMembers(init, patternElement);
    }
  }

  /** FilterKind of a list without repeats has no repeats. */
  lemma {:induction false} FilterKindDistinct<I, T>(s: seq<Vertex<I, T>>, patternElement: Option<T>)
    requires Distinct(s)
    ensures Distinct(FilterKind(s, patternElement))
    decreases |s|
  {
    if s != [] {
      var init, last := s[..|s| - 1], s[|s| - 1];
      assert s == init + [last];
      assert Distinct(init) by {
        forall i, j | 0 <= i < j < |init| ensures init[i] != init[j] {
          assert init[i] == s[i] && init[j] == s[j];
        }
      }
      FilterKindDistinct(init, patternElement);
      FilterKindMembers(init, patternElement);
      assert last !in init;
    }
  }

  /** FilterKind keeps every occurrence of a wanted vertex and drops every other one. */
  lemma {:induction false} FilterKindCounts<I, T>(s: seq<Vertex<I, T>>, patternElement: Option<T>, w: Vertex<I, T>)
    ensures multiset(FilterKind(s, patternElement))[w] == if Matches(w, patternElement) then multiset(s)[w] else 0
    decreases |s|
  {
    if s != [] {
      var init, last := s[..|s| - 1], s[|s| - 1];
      assert s == init + [last];
      FilterKindCounts(init, patternElement, w);
    }
  }

  /** No entry of `s` occurs twice. */
  predicate Distinct<X(==)>(s: seq<X>) {
    forall i, j :: 0 <= i < j < |s| ==> s[i] != s[j]
  }

  /** getRelevantNeighbors: the neighbours of `v` (as getNeighbors gives them) of the wanted type. */
  function RelevantNeighbors<I, T(==)>(adj: Adjacency<I, T>, v: Vertex<I, T>, patternElement: Option<T>): seq<Vertex<I, T>>
    requires v in adj
  {
    FilterKind(Neighbors(adj, v), patternElement)
  }

  /** The relevant neighbours are the getNeighbors entries of the wanted type. */
  lemma RelevantNeighborsMember<I, T>(adj: Adjacency<I, T>, v: Vertex<I, T>, patternElement: Option<T>, w: Vertex<I, T>)
    requires v in adj
    ensures w in RelevantNeighbors(adj, v, patternElement) <==> w in Neighbors(adj, v) && Matches(w, patternElement)
  {
    FilterKindMembers(Neighbors(adj, v), patternElement);
  }

  /**
   * Each getNeighbors entry is `v` itself (the edge was reached from its `second`
   * side) or the `second` of an edge whose `first` is `v`.
   */
  lemma NeighborsAreSelfOrSecond<I, T>(adj: Adjacency<I, T>, v: Vertex<I, T>)
    requires WellFormed(adj) && v in adj
    ensures |Neighbors(adj, v)| == |adj[v]|
    ensures forall i :: 0 <= i < |adj[v]| ==>
      Neighbors(adj, v)[i] == v || (adj[v][i].first == v && Neighbors(adj, v)[i] == adj[v][i].second)
  {
    forall i | 0 <= i < |adj[v]|
      ensures Neighbors(adj, v)[i] == v || (adj[v][i].first == v && Neighbors(adj, v)[i] == adj[v][i].second)
    {
      assert adj[v][i] in adj[v];
    }
  }

  /**
   * The asymmetry between the two neighbour relations: from the `second` side of
   * an edge that is not a self-loop, getNeighbors yields the vertex itself while
   * getAdjacentVertex yields the true other endpoint.
   */
  lemma NeighborsFromSecondSide<I, T>(adj: Adjacency<I, T>, v: Vertex<I, T>, i: nat)
    requires v in adj && i < |adj[v]|
    requires adj[v][i].second == v && adj[v][i].first != v
    ensures Neighbors(adj, v)[i] == v
    ensures adj[v][i].AdjacentVertex(v) == Some(adj[v][i].first)
    ensures Neighbors(adj, v)[i] != adj[v][i].first
  {
  }

  /** In a well-formed map, every relevant neighbour of a registered vertex is registered. */
  lemma RelevantNeighborsRegistered<I, T>(adj: Adjacency<I, T>, v: Vertex<I, T>, patternElement: Option<T>)
    requires WellFormed(adj) && v in adj
    ensures forall w :: w in RelevantNeighbors(adj, v, patternElement) ==> w in adj
  {
    forall w | w in RelevantNeighbors(adj, v, patternElement) ensures w in adj {
      RelevantNeighborsMember(adj, v, patternElement, w);
      var i :| 0 <= i < |Neighbors(adj, v)| && Neighbors(adj, v)[i] == w;
      assert adj[v][i] in adj[v];
    }
  }

  /** One BFS move: `w` is `getAdjacentVertex(u)` for some edge in `u`'s list. */
  ghost predicate Step<I, T>(adj: Adjacency<I, T>, u: Vertex<I, T>, older w: Vertex<I, T>) {
    u in adj && w in adj && exists e :: e in adj[u] && e.AdjacentVertex(u) == Some(w)
  }

  /** `p` runs through registered vertices, consecutive ones a BFS move apart. */
  ghost predicate IsWalk<I, T>(adj: Adjacency<I, T>, older p: seq<Vertex<I, T>>) {
    && (forall i :: 0 <= i < |p| ==> p[i] in adj)
    && (forall i :: 0 <= i < |p| - 1 ==> Step(adj, p[i], p[i + 1]))
  }

  /** `v` can be reached from `root` (root included) by BFS moves. */
  ghost predicate Reachable<I, T>(adj: Adjacency<I, T>, root: Vertex<I, T>, v: Vertex<I, T>) {
    exists p :: IsWalk(adj, p) && |p| > 0 && p[0] == root && p[|p| - 1] == v
  }

  /** Every BFS move out of `u` lands in `s`. */
  ghost predicate ClosedAt<I, T>(adj: Adjacency<I, T>, s: set<Vertex<I, T>>, u: Vertex<I, T>) {
    forall w :: Step(adj, u, w) ==> w in s
  }

  lemma ReachableRoot<I, T>(adj: Adjacency<I, T>, root: Vertex<I, T>)
    requires root in adj
    ensures Reachable(adj, root, root)
  {
    assert IsWalk(adj, [root]);
  }

  lemma ReachableStep<I, T>(adj: Adjacency<I, T>, root: Vertex<I, T>, v: Vertex<I, T>, w: Vertex<I, T>)
    requires Reachable(adj, root, v) && Step(adj, v, w)
    ensures Reachable(adj, root, w)
  {
    var p :| IsWalk(adj, p) && |p| > 0 && p[0] == root && p[|p| - 1] == v;
    var q := p + [w];
    forall i | 0 <= i < |q| - 1 ensures Step(adj, q[i], q[i + 1]) {
      if i < |p| - 1 {
        assert q[i] == p[i] && q[i + 1] == p[i + 1];
      } else {
        assert q[i] == v && q[i + 1] == w;
      }
    }
    assert IsWalk(adj, q);
  }

  /** In a well-formed map, everything reachable from a registered root is registered. */
  lemma ReachableIsRegistered<I, T>(adj: Adjacency<I, T>, root: Vertex<I, T>, v: Vertex<I, T>)
    requires WellFormed(adj) && root in adj && Reachable(adj, root, v)
    ensures v in adj
  {
    var p :| IsWalk(adj, p) && |p| > 0 && p[0] == root && p[|p| - 1] == v;
    if |p| > 1 {
      assert Step(adj, p[|p| - 2], p[|p| - 1]);
      var e :| e in adj[p[|p| - 2]] && e.AdjacentVertex(p[|p| - 2]) == Some(v);
    }
  }

  /** A walk that starts in a set closed under BFS moves never leaves it. */
  lemma {:induction false} WalkStaysInside<I, T>(adj: Adjacency<I, T>, s: set<Vertex<I, T>>, p: seq<Vertex<I, T>>, n: nat)
    requires IsWalk(adj, p) && 0 < n <= |p| && p[0] in s
    requires forall u :: u in s ==> ClosedAt(adj, s, u)
    ensures p[n - 1] in s
  {
    if n > 1 {
      WalkStaysInside(adj, s, p, n - 1);
      assert Step(adj, p[n - 2], p[n - 1]);
    }
  }

  /** A set containing the root and closed under BFS moves contains every reachable vertex. */
  lemma ClosedContainsReachable<I, T>(adj: Adjacency<I, T>, s: set<Vertex<I, T>>, root: Vertex<I, T>)
    requires root in s
    requires forall u :: u in s ==> ClosedAt(adj, s, u)
    ensures forall v :: Reachable(adj, root, v) ==> v in s
  {
    forall v | Reachable(adj, root, v) ensures v in s {
      var p :| IsWalk(adj, p) && |p| > 0 && p[0] == root && p[|p| - 1] == v;
      WalkStaysInside(adj, s, p, |p|);
    }
  }

  /**
   * The paths search returns for `pattern`: as long as the pattern, starting at
   * a vertex reachable from `root`, each vertex of the type the pattern names at
   * its position, and each later vertex a getNeighbors entry of the one before.
   */
  ghost predicate IsMatch<I, T>(adj: Adjacency<I, T>, root: Vertex<I, T>, pattern: seq<Option<T>>, q: seq<Vertex<I, T>>) {
    && |q| == |pattern| > 0
    && Reachable(adj, root, q[0])
    && (forall i :: 0 <= i < |q| ==> Matches(q[i], pattern[i]))
    && (forall i :: 0 <= i < |q| - 1 ==> q[i] in adj && q[i + 1] in Neighbors(adj, q[i]))
  }

  /** Every path of `paths` is non-empty and ends at a registered vertex. */
  ghost predicate PathsEndInGraph<I, T>(adj: Adjacency<I, T>, paths: set<seq<Vertex<I, T>>>) {
    forall p :: p in paths ==> |p| > 0 && p[|p| - 1] in adj
  }

  /** `path` with each entry of `ws` appended, one path per entry. */
  ghost function Appended<I, T>(path: seq<Vertex<I, T>>, ws: seq<Vertex<I, T>>): set<seq<Vertex<I, T>>> {
    set w | w in ws :: path + [w]
  }

  /**
   * getPathToRelevantNeighbor as a set: every path of `paths` extended by every
   * relevant neighbour of its last vertex.
   */
  ghost function ExtendAll<I, T>(adj: Adjacency<I, T>, paths: set<seq<Vertex<I, T>>>, patternElement: Option<T>): set<seq<Vertex<I, T>>> {
    set p, w | p in paths && |p| > 0 && p[|p| - 1] in adj && w in RelevantNeighbors(adj, p[|p| - 1], patternElement) :: p + [w]
  }

  /** One getPathToRelevantNeighbor step: `q` is a path of `paths` plus one relevant neighbour of its end. */
  ghost predicate Extends<I, T>(adj: Adjacency<I, T>, paths: set<seq<Vertex<I, T>>>, patternElement: Option<T>, q: seq<Vertex<I, T>>) {
    && |q| >= 2
    && q[..|q| - 1] in paths
    && q[|q| - 2] in adj
    && q[|q| - 1] in RelevantNeighbors(adj, q[|q| - 2], patternElement)
  }

  lemma AppendedSnoc<I, T>(path: seq<Vertex<I, T>>, ws: seq<Vertex<I, T>>, j: nat)
    requires j < |ws|
    ensures Appended(path, ws[..j + 1]) == Appended(path, ws[..j]) + {path + [ws[j]]}
  {
    assert ws[..j + 1] == ws[..j] + [ws[j]];
  }

  /** Handling one more initial path adds exactly that path's extensions. */
  lemma ExtendAllAddPath<I, T>(adj: Adjacency<I, T>, done: set<seq<Vertex<I, T>>>, path: seq<Vertex<I, T>>, patternElement: Option<T>)
    requires |path| > 0 && path[|path| - 1] in adj
    ensures ExtendAll(adj, done + {path}, patternElement) ==
      ExtendAll(adj, done, patternElement) + Appended(path, RelevantNeighbors(adj, path[|path| - 1], patternElement))
  {
    var lhs := ExtendAll(adj, done + {path}, patternElement);
    var rhs := ExtendAll(adj, done, patternElement) + Appended(path, RelevantNeighbors(adj, path[|path| - 1], patternElement));
    forall q | q in lhs ensures q in rhs {
      ExtendAllAddPathAt(adj, done, path, patternElement, q);
    }
    forall q | q in rhs ensures q in lhs {
      if q in Appended(path, RelevantNeighbors(adj, path[|path| - 1], patternElement)) {
        var w :| w in RelevantNeighbors(adj, path[|path| - 1], patternElement) && q == path + [w];
        assert path in done + {path};
      } else {
        var p, w :| p in done && |p| > 0 && p[|p| - 1] in adj
          && w in RelevantNeighbors(adj, p[|p| - 1], patternElement) && q == p + [w];
        assert p in done + {path};
      }
    }
  }

  lemma ExtendAllAddPathAt<I, T>(adj: Adjacency<I, T>, done: set<seq<Vertex<I, T>>>, path: seq<Vertex<I, T>>,
                                 patternElement: Option<T>, q: seq<Vertex<I, T>>)
    requires q in ExtendAll(adj, done + {path}, patternElement)
    ensures q in ExtendAll(adj, done, patternElement) || q in Appended(path, RelevantNeighbors(adj, path[|path| - 1], patternElement))
  {
    var p, w :| p in done + {path} && |p| > 0 && p[|p| - 1] in adj
      && w in RelevantNeighbors(adj, p[|p| - 1], patternElement) && q == p + [w];
    if p == path {
      assert q in Appended(path, RelevantNeighbors(adj, path[|path| - 1], patternElement));
    } else {
      assert p in done;
      ExtendsInExtendAll(adj, done, patternElement, q) by {
        assert q[..|q| - 1] == p && q[|q| - 2] == p[|p| - 1];
      }
    }
  }

  /** Membership in ExtendAll, stated without the comprehension. */
  lemma ExtendAllIff<I, T>(adj: Adjacency<I, T>, paths: set<seq<Vertex<I, T>>>, patternElement: Option<T>, q: seq<Vertex<I, T>>)
    ensures q in ExtendAll(adj, paths, patternElement) <==> Extends(adj, paths, patternElement, q)
  {
    if q in ExtendAll(adj, paths, patternElement) {
      ExtendAllOnlyExtends(adj, paths, patternElement, q);
    }
    if Extends(adj, paths, patternElement, q) {
      ExtendsInExtendAll(adj, paths, patternElement, q);
    }
  }

  lemma ExtendAllOnlyExtends<I, T>(adj: Adjacency<I, T>, paths: set<seq<Vertex<I, T>>>, patternElement: Option<T>, q: seq<Vertex<I, T>>)
    requires q in ExtendAll(adj, paths, patternElement)
    ensures Extends(adj, paths, patternElement, q)
  {
    var p, w :| p in paths && |p| > 0 && p[|p| - 1] in adj
      && w in RelevantNeighbors(adj, p[|p| - 1], patternElement) && q == p + [w];
    assert q[..|q| - 1] == p && q[|q| - 2] == p[|p| - 1] && q[|q| - 1] == w;
  }

  lemma ExtendsInExtendAll<I, T>(adj: Adjacency<I, T>, paths: set<seq<Vertex<I, T>>>, patternElement: Option<T>, q: seq<Vertex<I, T>>)
    requires Extends(adj, paths, patternElement, q)
    ensures q in ExtendAll(adj, paths, patternElement)
  {
    var p, w := q[..|q| - 1], q[|q| - 1];
    assert q == p + [w] && p[|p| - 1] == q[|q| - 2];
  }

  /** In a well-formed map every extended path is non-empty and ends at a registered vertex. */
  lemma ExtendAllEndsInGraph<I, T>(adj: Adjacency<I, T>, paths: set<seq<Vertex<I, T>>>, patternElement: Option<T>)
    requires WellFormed(adj)
    ensures PathsEndInGraph(adj, ExtendAll(adj, paths, patternElement))
  {
    forall q | q in ExtendAll(adj, paths, patternElement) ensures |q| > 0 && q[|q| - 1] in adj {
      var p, w :| p in paths && |p| > 0 && p[|p| - 1] in adj
        && w in RelevantNeighbors(adj, p[|p| - 1], patternElement) && q == p + [w];
      RelevantNeighborsRegistered(adj, p[|p| - 1], patternElement);
    }
  }

  /** The singleton paths search starts from: registered vertices reachable from `root` of the first type. */
  ghost function Seeds<I, T>(adj: Adjacency<I, T>, root: Vertex<I, T>, first: Option<T>): set<seq<Vertex<I, T>>> {
    set v | v in adj && Reachable(adj, root, v) && Matches(v, first) :: [v]
  }

  /** Every seed is a registered vertex. */
  lemma SeedsEndInGraph<I, T>(adj: Adjacency<I, T>, root: Vertex<I, T>, first: Option<T>)
    ensures PathsEndInGraph(adj, Seeds(adj, root, first))
  {
    forall q | q in Seeds(adj, root, first) ensures |q| > 0 && q[|q| - 1] in adj {
      var v :| v in adj && Reachable(adj, root, v) && Matches(v, first) && q == [v];
    }
  }

  /** The singleton paths of the entries of `s`. */
  ghost function Singletons<I, T>(s: seq<Vertex<I, T>>): set<seq<Vertex<I, T>>> {
    set v | v in s :: [v]
  }

  lemma SingletonsSnoc<I, T>(s: seq<Vertex<I, T>>, i: nat)
    requires i < |s|
    ensures Singletons(s[..i + 1]) == Singletons(s[..i]) + {[s[i]]}
  {
    assert s[..i + 1] == s[..i] + [s[i]];
  }

  /** The BFS result, as singleton paths, is the seed set. */
  lemma SingletonsOfReachable<I, T>(adj: Adjacency<I, T>, root: Vertex<I, T>, first: Option<T>, s: seq<Vertex<I, T>>)
    requires forall v :: v in s <==> Reachable(adj, root, v) && Matches(v, first)
    ensures Singletons(s) == Seeds(adj, root, first)
  {
    forall q | q in Seeds(adj, root, first) ensures q in Singletons(s) {
      var v :| v in adj && Reachable(adj, root, v) && Matches(v, first) && q == [v];
    }
    forall q | q in Singletons(s) ensures q in Seeds(adj, root, first) {
      var v :| v in s && q == [v];
      var p :| IsWalk(adj, p) && |p| > 0 && p[0] == root && p[|p| - 1] == v;
    }
  }

  /**
   * What search builds: the seeds for the first pattern element, then one
   * ExtendAll step per later element.
   */
  ghost function MatchSet<I, T>(adj: Adjacency<I, T>, root: Vertex<I, T>, pattern: seq<Option<T>>): set<seq<Vertex<I, T>>>
    requires |pattern| > 0
    decreases |pattern|
  {
    if |pattern| == 1 then Seeds(adj, root, pattern[0])
    else ExtendAll(adj, MatchSet(adj, root, pattern[..|pattern| - 1]), pattern[|pattern| - 1])
  }

  /** The paths search builds are exactly the matches of the pattern. */
  lemma {:induction false} MatchSetIff<I, T>(adj: Adjacency<I, T>, root: Vertex<I, T>, pattern: seq<Option<T>>, q: seq<Vertex<I, T>>)
    requires |pattern| > 0
    ensures q in MatchSet(adj, root, pattern) <==> IsMatch(adj, root, pattern, q)
    decreases |pattern|
  {
    if |pattern| == 1 {
      SeedsIff(adj, root, pattern, q);
    } else {
      var k := |pattern| - 1;
      var shorter := pattern[..k];
      assert MatchSet(adj, root, pattern) == ExtendAll(adj, MatchSet(adj, root, shorter), pattern[k]);
      ExtendAllIff(adj, MatchSet(adj, root, shorter), pattern[k], q);
      if |q| >= 2 {
        MatchSetIff(adj, root, shorter, q[..|q| - 1]);
      }
      MatchSetStep(adj, root, pattern, q);
    }
  }

  /** MatchSetIff for every path at once. */
  lemma MatchSetMembers<I, T>(adj: Adjacency<I, T>, root: Vertex<I, T>, pattern: seq<Option<T>>)
    requires |pattern| > 0
    ensures forall q :: q in MatchSet(adj, root, pattern) <==> IsMatch(adj, root, pattern, q)
  {
    forall q ensures q in MatchSet(adj, root, pattern) <==> IsMatch(adj, root, pattern, q) {
      MatchSetIff(adj, root, pattern, q);
    }
  }

  /** The one-element case of MatchSetIff. */
  lemma SeedsIff<I, T>(adj: Adjacency<I, T>, root: Vertex<I, T>, pattern: seq<Option<T>>, q: seq<Vertex<I, T>>)
    requires |pattern| == 1
    ensures q in Seeds(adj, root, pattern[0]) <==> IsMatch(adj, root, pattern, q)
  {
    if q in Seeds(adj, root, pattern[0]) {
      var v :| v in adj && Reachable(adj, root, v) && Matches(v, pattern[0]) && q == [v];
    }
    if IsMatch(adj, root, pattern, q) {
      var p :| IsWalk(adj, p) && |p| > 0 && p[0] == root && p[|p| - 1] == q[0];
      assert q == [q[0]];
    }
  }

  /** The inductive step of MatchSetIff, given the claim for the shorter pattern. */
  lemma MatchSetStep<I, T>(adj: Adjacency<I, T>, root: Vertex<I, T>, pattern: seq<Option<T>>, q: seq<Vertex<I, T>>)
    requires |pattern| >= 2
    requires |q| >= 2 ==> (q[..|q| - 1] in MatchSet(adj, root, pattern[..|pattern| - 1])
      <==> IsMatch(adj, root, pattern[..|pattern| - 1], q[..|q| - 1]))
    ensures Extends(adj, MatchSet(adj, root, pattern[..|pattern| - 1]), pattern[|pattern| - 1], q)
      <==> IsMatch(adj, root, pattern, q)
  {
    var k := |pattern| - 1;
    if |q| == k + 1 {
      assert pattern[..k + 1] == pattern;
      assert q[..|q| - 1] == q[..k] && |q| - 2 == k - 1;
      ExtendMatchesAt(adj, root, pattern, k, q);
    } else {
      assert !IsMatch(adj, root, pattern, q);
      if |q| >= 2 {
        assert !IsMatch(adj, root, pattern[..k], q[..|q| - 1]);
      }
    }
  }

  /** Extending a match of a pattern prefix by one relevant neighbour gives a match of the longer prefix, and only so. */
  lemma ExtendMatchesAt<I, T>(adj: Adjacency<I, T>, root: Vertex<I, T>, pattern: seq<Option<T>>, k: nat, q: seq<Vertex<I, T>>)
    requires 1 <= k < |pattern| && |q| == k + 1
    ensures IsMatch(adj, root, pattern[..k + 1], q) <==>
      IsMatch(adj, root, pattern[..k], q[..k]) && q[k - 1] in adj
        && q[k] in RelevantNeighbors(adj, q[k - 1], pattern[k])
  {
    var longer, shorter, pre := pattern[..k + 1], pattern[..k], q[..k];
    if q[k - 1] in adj {
      RelevantNeighborsMember(adj, q[k - 1], pattern[k], q[k]);
    }
    if IsMatch(adj, root, longer, q) {
      forall i | 0 <= i < |pre| ensures Matches(pre[i], shorter[i]) {
        assert pre[i] == q[i] && shorter[i] == longer[i];
      }
      forall i | 0 <= i < |pre| - 1 ensures pre[i] in adj && pre[i + 1] in Neighbors(adj, pre[i]) {
        assert pre[i] == q[i] && pre[i + 1] == q[i + 1];
      }
      assert Matches(q[k], pattern[k]) by { assert longer[k] == pattern[k]; }
      assert q[k - 1] in adj && q[k] in Neighbors(adj, q[k - 1]);
    }
    if IsMatch(adj, root, shorter, pre) && q[k - 1] in adj && q[k] in RelevantNeighbors(adj, q[k - 1], pattern[k]) {
      forall i | 0 <= i < |q| ensures Matches(q[i], longer[i]) {
        if i < k {
          assert pre[i] == q[i] && shorter[i] == longer[i];
        } else {
          assert longer[i] == pattern[k];
        }
      }
      forall i | 0 <= i < |q| - 1 ensures q[i] in adj && q[i + 1] in Neighbors(adj, q[i]) {
        if i < k - 1 {
          assert pre[i] == q[i] && pre[i + 1] == q[i + 1];
        }
      }
      assert q[0] == pre[0];
    }
  }
}
