/** A graph node: an immutable id and type, plus the mutable `visited` scratch flag used by BFS. */
module Vertices {

  class Vertex<I, T> {
    /** The caller-supplied identifier (getId); never reassigned. */
    const id: I
    /** The type used for pattern matching (getType); never reassigned. */
    const kind: T
    /** Traversal scratch state (isVisited / setVisited). */
    var visited: bool

    /** Stores the arguments as given and starts unvisited; no null checks happen here. */
    constructor (id: I, kind: T)
      ensures this.id == id && this.kind == kind
      ensures !visited
    {
      this.id := id;
      this.kind := kind;
      visited := false;
    }

    /** setVisited: afterwards the flag reads `b`; id and kind are constants and cannot change. */
    method SetVisited(b: bool)
      modifies this`visited
      ensures visited == b
    {
      visited := b;
    }
  }
}
