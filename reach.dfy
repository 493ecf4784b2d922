/**
 * Reachability over a finite set of coordinates. The chunk check's recursive
 * `ChunkIndexList`, the flood fill of `PathConnectivityCheck` and the search
 * of `ShortestPath` all compute, in some visiting order, the set of cells
 * reachable from a start through an adjacency; only that set is observed.
 */
module Reach {
  import opened Square

  /** Adjacency: the cells one step away from a cell. */
  type Adjacency = map<Coord, set<Coord>>

  /** `s` together with every cell of `within` one step away from it. */
  function Step(adj: Adjacency, within: set<Coord>, s: set<Coord>): (t: set<Coord>)
    ensures s <= t
    ensures forall b :: b in t <==> b in s || exists a :: a in s && a in adj && b in adj[a] && b in within
  {
    s + (set a, b | a in s && a in adj && b in adj[a] && b in within :: b)
  }

  /** No step leaves `s` (inside `within`). */
  ghost predicate Closed(adj: Adjacency, within: set<Coord>, s: set<Coord>) {
    forall a, b :: a in s && a in adj && b in adj[a] && b in within ==> b in s
  }

  lemma ProperSubsetShrinks(within: set<Coord>, s: set<Coord>, t: set<Coord>)
    requires s <= t <= within && s != t
    ensures |within - t| < |within - s|
  {
    var x :| x in t && x !in s;
    assert within - s == (within - t) + (t - s);
    assert (within - t) !! (t - s);
    assert x in t - s;
  }

  /** The cells of `within` reachable from `s`. */
  function Closure(adj: Adjacency, within: set<Coord>, s: set<Coord>): set<Coord>
    requires s <= within
    decreases |within - s|
  {
    var t := Step(adj, within, s);
    if t == s then s
    else
      ProperSubsetShrinks(within, s, t);
      Closure(adj, within, t)
  }

  lemma {:induction false} ClosureBounds(adj: Adjacency, within: set<Coord>, s: set<Coord>)
    requires s <= within
    ensures s <= Closure(adj, within, s) <= within
    ensures Closed(adj, within, Closure(adj, within, s))
    decreases |within - s|
  {
    var t := Step(adj, within, s);
    if t != s {
      ProperSubsetShrinks(within, s, t);
      ClosureBounds(adj, within, t);
    }
  }

  /** The closure is the least closed superset of the start. */
  lemma {:induction false} ClosureLeast(adj: Adjacency, within: set<Coord>, s: set<Coord>, bound: set<Coord>)
    requires s <= within && s <= bound && Closed(adj, within, bound)
    ensures Closure(adj, within, s) <= bound
    decreases |within - s|
  {
    var t := Step(adj, within, s);
    if t != s {
      ProperSubsetShrinks(within, s, t);
      ClosureLeast(adj, within, t, bound);
    }
  }

  /** Steps taken inside `within` can be reversed. */
  ghost predicate Symmetric(adj: Adjacency, within: set<Coord>) {
    forall a, b :: a in within && b in within && a in adj && b in adj[a] ==> b in adj && a in adj[b]
  }

  lemma BackStep(adj: Adjacency, within: set<Coord>, s: set<Coord>, x: Coord, y: Coord)
    requires Symmetric(adj, within) && Closed(adj, within, s)
    requires x in within && y in within && x in adj && y in adj[x]
    ensures y in s ==> x in s
  {
  }

  /** Everything is reachable from `a`. */
  ghost predicate ReachesAll(adj: Adjacency, within: set<Coord>, a: Coord)
    requires a in within
  {
    Closure(adj, within, {a}) == within
  }

  /** Under a symmetric adjacency, reaching everything does not depend on the start. */
  lemma StartIndependent(adj: Adjacency, within: set<Coord>, a: Coord, b: Coord)
    requires Symmetric(adj, within) && a in within && b in within
    requires ReachesAll(adj, within, a)
    ensures ReachesAll(adj, within, b)
  {
    var fromB := Closure(adj, within, {b});
    ClosureBounds(adj, within, {b});
    var rest := within - fromB;
    assert Closed(adj, within, rest) by {
      forall x, y | x in rest && x in adj && y in adj[x] && y in within ensures y in rest {
        BackStep(adj, within, fromB, x, y);
      }
    }
    if a in rest {
      ClosureLeast(adj, within, {a}, rest);
      assert false;
    }
    ClosureLeast(adj, within, {a}, fromB);
  }
}
