/**
 * Orthogonal connectivity of the path cells: the property the connectivity
 * check establishes for every committed wall, and the facts that make it an
 * invariant of wall generation — it depends only on the layout, it holds
 * for the empty grid, and the flood fill's starting cell does not matter.
 */
module Connectivity {
  import opened Lists
  import opened Square
  import opened Reach
  import opened Bookkeeping
  import opened Checks

  /** Every path cell reaches every other one through orthogonal path steps. */
  ghost predicate Connected(b: Board) {
    forall a :: a in b.paths ==> ReachesAll(OrthAdj(b.cells), Elems(b.paths), a)
  }

  /** The orthogonal list of a cell of a well-formed grid holds exactly its in-grid orthogonal neighbours. */
  lemma OrthFacts(width: int, height: int, cells: map<Coord, Square>, k: Coord)
    requires CellsShaped(width, height, cells) && k in cells
    ensures forall n :: n in cells[k].orthogonal <==> InGrid(n, width, height) && Orthogonal(n, k)
    ensures forall n :: InGrid(n, width, height) <==> n in cells
  {
    assert Layout(k, cells[k].neighbours, cells[k].orthogonal, cells[k].diagonal, width, height);
  }

  /** Orthogonal adjacency is symmetric on a well-formed grid. */
  lemma OrthSymmetric(width: int, height: int, cells: map<Coord, Square>, within: set<Coord>)
    requires CellsShaped(width, height, cells)
    ensures Symmetric(OrthAdj(cells), within)
  {
    var adj := OrthAdj(cells);
    forall a, b | a in within && b in within && a in adj && b in adj[a] ensures b in adj && a in adj[b] {
      OrthFacts(width, height, cells, a);
      OrthFacts(width, height, cells, b);
    }
  }

  /** A wall that passes the battery leaves the path cells connected. */
  lemma PassKeepsConnected(b: Board, c: Coord)
    requires CellsShaped(b.width, b.height, b.cells) && c in b.cells && Battery(b, c) == AllHold
    ensures Connected(b)
  {
    PassConnected(b, c);
    var adj, within := OrthAdj(b.cells), Elems(b.paths);
    OrthSymmetric(b.width, b.height, b.cells, within);
    forall a | a in b.paths ensures ReachesAll(adj, within, a) {
      StartIndependent(adj, within, b.paths[0], a);
    }
  }

  /** On a well-formed grid the orthogonal lists are fixed by the bounds. */
  lemma OrthAdjFixed(width: int, height: int, c1: map<Coord, Square>, c2: map<Coord, Square>)
    requires CellsShaped(width, height, c1) && CellsShaped(width, height, c2)
    ensures OrthAdj(c1) == OrthAdj(c2)
  {
    var a1, a2 := OrthAdj(c1), OrthAdj(c2);
    forall k | k in a1 ensures a1[k] == a2[k] {
      OrthElems(width, height, c1, c2, k);
    }
  }

  lemma OrthElems(width: int, height: int, c1: map<Coord, Square>, c2: map<Coord, Square>, k: Coord)
    requires CellsShaped(width, height, c1) && CellsShaped(width, height, c2) && k in c1
    ensures Elems(c1[k].orthogonal) == Elems(c2[k].orthogonal)
  {
    OrthFacts(width, height, c1, k);
    OrthFacts(width, height, c2, k);
  }

  /** The path cells are the non-wall cells, so boards with one layout have one path set. */
  lemma PathsFixed(b1: Board, b2: Board)
    requires SameLayout(b1, b2)
    ensures Elems(b1.paths) == Elems(b2.paths)
  {
  }

  /** Connectivity is a property of the layout alone. */
  lemma ConnectedLayout(b1: Board, b2: Board)
    requires SameLayout(b1, b2) && Connected(b1)
    ensures Connected(b2)
  {
    OrthAdjFixed(b1.width, b1.height, b1.cells, b2.cells);
    PathsFixed(b1, b2);
    forall a | a in b2.paths ensures ReachesAll(OrthAdj(b2.cells), Elems(b2.paths), a) {
      assert a in b1.paths;
    }
  }

  /** A set closed under orthogonal steps that holds the corner (0, 0) holds the whole grid. */
  lemma {:induction false} FullGridReach(width: int, height: int, cells: map<Coord, Square>, s: set<Coord>, x: int, y: int)
    requires CellsShaped(width, height, cells)
    requires Coord(0, 0) in s && Closed(OrthAdj(cells), cells.Keys, s)
    requires 0 <= x < width && 0 <= y < height
    ensures Coord(x, y) in s
    decreases x + y
  {
    if x > 0 || y > 0 {
      var prev := if x > 0 then Coord(x - 1, y) else Coord(x, y - 1);
      FullGridReach(width, height, cells, s, prev.x, prev.y);
      OrthFacts(width, height, cells, prev);
      assert Coord(x, y) in OrthAdj(cells)[prev];
    }
  }

  /** On the empty grid the flood fill from the corner (0, 0) reaches every cell. */
  lemma CornerReachesAll(width: int, height: int, cells: map<Coord, Square>)
    requires CellsShaped(width, height, cells) && width > 0 && height > 0
    ensures Coord(0, 0) in cells.Keys && ReachesAll(OrthAdj(cells), cells.Keys, Coord(0, 0))
  {
    var adj := OrthAdj(cells);
    ClosureBounds(adj, cells.Keys, {Coord(0, 0)});
    var cl := Closure(adj, cells.Keys, {Coord(0, 0)});
    forall k | k in cells ensures k in cl {
      FullGridReach(width, height, cells, cl, k.x, k.y);
    }
  }

  /** The empty grid, all of whose cells are paths, is connected. */
  lemma EmptyConnected(b: Board)
    requires CellsShaped(b.width, b.height, b.cells) && Elems(b.paths) == b.cells.Keys
    ensures Connected(b)
  {
    if b.paths != [] {
      assert b.paths[0] in b.cells;
      CornerReachesAll(b.width, b.height, b.cells);
      var adj := OrthAdj(b.cells);
      OrthSymmetric(b.width, b.height, b.cells, b.cells.Keys);
      forall a | a in b.paths ensures ReachesAll(adj, Elems(b.paths), a) {
        StartIndependent(adj, b.cells.Keys, Coord(0, 0), a);
      }
    }
  }
}
