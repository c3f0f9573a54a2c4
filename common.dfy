/** Shared value types of the crawler and of the distance-matrix engine. */
module Common {

  datatype Option<T> = None | Some(value: T)

  datatype Result<T, E> = Success(value: T) | Failure(error: E)

  /** No element occurs twice (a JavaScript `Set` kept as its insertion-ordered sequence). */
  predicate NoDup<T(==)>(s: seq<T>) {
    forall i, j | 0 <= i < j < |s| :: s[i] != s[j]
  }

  /** The elements of a sequence, as a set. */
  function Elems<T>(s: seq<T>): set<T> {
    set x | x in s
  }

  /** A page of the crawled graph: its URL and its 1-based label (`label` in the source), a decimal string. */
  datatype Node = Node(id: string, nodeLabel: string)

  /** A directed link between two pages, numbered from 1 in the order the links were collected. */
  datatype Edge = Edge(index: nat, from: string, to: string)

  /** A cell of the distance matrix: a non-zero path length reported by the shortest-path library, or JavaScript's `Infinity`. */
  datatype Dist = Fin(length: nat) | Inf
}
