/**
 * The verdict of the wall battery depends on the layout alone: the cell
 * types, the wall list, the chunk counter and the limits. The order in which
 * the live lists happen to hold their elements, the failed-check tags and
 * `validLocations` play no part. This is what lets a retried cell be judged
 * against the layout in force when `ValidateLocations` started, although the
 * earlier retries have reshuffled the lists since.
 */
module Verdicts {
  import opened Lists
  import opened Square
  import opened Reach
  import opened Bookkeeping
  import opened Checks
  import opened Connectivity

  /** A cell of either board holds the same neighbours, in some order, as the other. */
  ghost predicate SameLists(s1: Square, s2: Square) {
    && Elems(s1.neighbours) == Elems(s2.neighbours) && |s1.neighbours| == |s2.neighbours|
    && Elems(s1.orthogonal) == Elems(s2.orthogonal) && |s1.orthogonal| == |s2.orthogonal|
    && Elems(s1.diagonal) == Elems(s2.diagonal) && |s1.diagonal| == |s2.diagonal|
    && Elems(s1.wallNeighbours) == Elems(s2.wallNeighbours) && |s1.wallNeighbours| == |s2.wallNeighbours|
    && Elems(s1.pathNeighbours) == Elems(s2.pathNeighbours) && |s1.pathNeighbours| == |s2.pathNeighbours|
    && s1.kind == s2.kind && s1.coord == s2.coord
  }

  lemma SetsAndLengths(s1: seq<Coord>, s2: seq<Coord>)
    requires NoDups(s1) && NoDups(s2) && forall x :: x in s1 <==> x in s2
    ensures Elems(s1) == Elems(s2) && |s1| == |s2|
  {
    NoDupsCard(s1);
    NoDupsCard(s2);
    assert Elems(s1) == (set x | x in s1);
    assert Elems(s2) == (set x | x in s2);
  }

  lemma CellLists(b1: Board, b2: Board, k: Coord)
    requires SameLayout(b1, b2) && k in b1.cells
    ensures SameLists(b1.cells[k], b2.cells[k])
  {
    var s1, s2 := b1.cells[k], b2.cells[k];
    assert Layout(k, s1.neighbours, s1.orthogonal, s1.diagonal, b1.width, b1.height);
    assert Layout(k, s2.neighbours, s2.orthogonal, s2.diagonal, b2.width, b2.height);
    assert CellMatch(b1.cells, k) && CellMatch(b2.cells, k);
    SetsAndLengths(s1.neighbours, s2.neighbours);
    SetsAndLengths(s1.orthogonal, s2.orthogonal);
    SetsAndLengths(s1.diagonal, s2.diagonal);
    SetsAndLengths(s1.wallNeighbours, s2.wallNeighbours);
    SetsAndLengths(s1.pathNeighbours, s2.pathNeighbours);
  }

  lemma AllCellLists(b1: Board, b2: Board)
    requires SameLayout(b1, b2)
    ensures b1.cells.Keys == b2.cells.Keys
    ensures forall k :: k in b1.cells ==> SameLists(b1.cells[k], b2.cells[k])
  {
    forall k | k in b1.cells ensures SameLists(b1.cells[k], b2.cells[k]) {
      CellLists(b1, b2, k);
    }
  }

  /** What the checks read of a board, up to the order of the lists. */
  ghost predicate Alike(b1: Board, b2: Board) {
    && b1.cells.Keys == b2.cells.Keys
    && (forall k :: k in b1.cells ==> SameLists(b1.cells[k], b2.cells[k]))
    && Elems(b1.paths) == Elems(b2.paths) && b1.walls == b2.walls && b1.chunks == b2.chunks
    && b1.maxWallNeighbours == b2.maxWallNeighbours && b1.maxChunks == b2.maxChunks
  }

  lemma LayoutAlike(b1: Board, b2: Board)
    requires SameLayout(b1, b2)
    ensures Alike(b1, b2) && CellsShaped(b1.width, b1.height, b1.cells)
  {
    AllCellLists(b1, b2);
    PathsFixed(b1, b2);
  }

  lemma ChunkLayout(b1: Board, b2: Board, c: Coord)
    requires Alike(b1, b2) && c in b1.cells
    ensures Chunk(b1, c) == Chunk(b2, c)
  {
    assert WallAdj(b1.cells) == WallAdj(b2.cells);
  }

  lemma CheckLayout0(b1: Board, b2: Board, c: Coord)
    requires Alike(b1, b2) && c in b1.cells
    ensures Checks.ChunkDistanceCheck(b1, c) == Checks.ChunkDistanceCheck(b2, c)
  {
    ChunkLayout(b1, b2, c);
  }

  lemma CheckLayout1(b1: Board, b2: Board, c: Coord)
    requires Alike(b1, b2) && c in b1.cells
    ensures Checks.ChunkBoundaryDistance(b1, c) == Checks.ChunkBoundaryDistance(b2, c)
  {
  }

  lemma CheckLayout3(b1: Board, b2: Board, c: Coord)
    requires Alike(b1, b2) && c in b1.cells
    ensures Checks.DiagonalToWallCheck(b1, c) == Checks.DiagonalToWallCheck(b2, c)
  {
    forall d | d in b1.cells
      ensures CommonOrthogonalWallNeighbour(b1, c, d) == CommonOrthogonalWallNeighbour(b2, c, d)
    {
    }
  }

  lemma CheckLayout4(b1: Board, b2: Board, c: Coord)
    requires Alike(b1, b2) && c in b1.cells
    ensures Checks.CShapeCheck(b1, c) == Checks.CShapeCheck(b2, c)
  {
  }

  lemma CheckLayout5(b1: Board, b2: Board)
    requires Alike(b1, b2) && CellsShaped(b1.width, b1.height, b1.cells)
    ensures Checks.PathConnectivityCheck(b1) == Checks.PathConnectivityCheck(b2)
  {
    if |b1.paths| > 0 {
      assert b1.paths[0] in Elems(b2.paths);
    }
    if |b2.paths| > 0 {
      assert b2.paths[0] in Elems(b1.paths);
    }
    if |b1.paths| > 0 && |b2.paths| > 0 {
      assert OrthAdj(b1.cells) == OrthAdj(b2.cells);
      var adj, within := OrthAdj(b1.cells), Elems(b1.paths);
      OrthSymmetric(b1.width, b1.height, b1.cells, within);
      if Flood(b1) == within {
        StartIndependent(adj, within, b1.paths[0], b2.paths[0]);
      }
      if Flood(b2) == within {
        StartIndependent(adj, within, b2.paths[0], b1.paths[0]);
      }
    }
  }

  lemma CheckLayout6(b1: Board, b2: Board, c: Coord)
    requires Alike(b1, b2) && c in b1.cells
    ensures Checks.MaxNeighbourCheck(b1, c) == Checks.MaxNeighbourCheck(b2, c)
  {
  }

  lemma CheckLayout7(b1: Board, b2: Board, c: Coord)
    requires Alike(b1, b2) && c in b1.cells
    ensures Checks.LargeCShapeCheck(b1, c) == Checks.LargeCShapeCheck(b2, c)
  {
  }

  lemma CheckLayout8(b1: Board, b2: Board, c: Coord)
    requires Alike(b1, b2) && c in b1.cells
    ensures Checks.DiagonalGapCheck(b1, c) == Checks.DiagonalGapCheck(b2, c)
  {
  }

  /** Each of the nine checks gives the same outcome on boards that look alike. */
  lemma RunCheckLayout(b1: Board, b2: Board, c: Coord, k: nat)
    requires Alike(b1, b2) && CellsShaped(b1.width, b1.height, b1.cells) && c in b1.cells && k < 9
    ensures RunCheck(b1, c, k) == RunCheck(b2, c, k)
  {
    if k == 0 { CheckLayout0(b1, b2, c); }
    else if k == 1 { CheckLayout1(b1, b2, c); }
    else if k == 2 { }
    else if k == 3 { CheckLayout3(b1, b2, c); }
    else if k == 4 { CheckLayout4(b1, b2, c); }
    else if k == 5 { CheckLayout5(b1, b2); }
    else if k == 6 { CheckLayout6(b1, b2, c); }
    else if k == 7 { CheckLayout7(b1, b2, c); }
    else { CheckLayout8(b1, b2, c); }
  }

  lemma {:induction false} BatteryFromLayout(b1: Board, b2: Board, c: Coord, k: nat)
    requires Alike(b1, b2) && CellsShaped(b1.width, b1.height, b1.cells) && c in b1.cells && k <= 9
    ensures BatteryFrom(b1, c, k) == BatteryFrom(b2, c, k)
    decreases 9 - k
  {
    if k < 9 {
      RunCheckLayout(b1, b2, c, k);
      BatteryFromLayout(b1, b2, c, k + 1);
    }
  }

  /** The battery's verdict is a function of the layout. */
  lemma BatteryLayout(b1: Board, b2: Board, c: Coord)
    requires SameLayout(b1, b2) && c in b1.cells
    ensures Battery(b1, c) == Battery(b2, c)
  {
    LayoutAlike(b1, b2);
    BatteryFromLayout(b1, b2, c, 0);
  }

  lemma AddWallKinds(b1: Board, b2: Board, c: Coord)
    requires KindsAgree(b1.cells, b2.cells) && c in b1.cells
    ensures KindsAgree(Bookkeeping.AddWall(b1, c).cells, Bookkeeping.AddWall(b2, c).cells)
  {
  }

  /** The chunk counter moves by what the cell's own wall list says, and that list has one length on both boards. */
  lemma AddWallCounts(b1: Board, b2: Board, c: Coord)
    requires c in b1.cells && c in b2.cells && b1.chunks == b2.chunks
    requires c !in b1.cells[c].neighbours && c !in b2.cells[c].neighbours
    requires |b1.cells[c].wallNeighbours| == |b2.cells[c].wallNeighbours|
    ensures Bookkeeping.AddWall(b1, c).chunks == Bookkeeping.AddWall(b2, c).chunks
  {
    var a1, a2 := AddWallCells(b1.cells, c), AddWallCells(b2.cells, c);
    assert a1[c].wallNeighbours == b1.cells[c].wallNeighbours;
    assert a2[c].wallNeighbours == b2.cells[c].wallNeighbours;
  }

  lemma AddWallInvs(b1: Board, b2: Board, c: Coord)
    requires SameLayout(b1, b2) && Open(b1, c)
    ensures Inv(Bookkeeping.AddWall(b1, c)) && Inv(Bookkeeping.AddWall(b2, c))
  {
    AddWallInv(b1, c);
    AddWallInv(b2, c);
  }

  /** Adding the same wall to boards with one layout gives boards with one layout. */
  lemma AddWallLayout(b1: Board, b2: Board, c: Coord)
    requires SameLayout(b1, b2) && Open(b1, c)
    ensures SameLayout(Bookkeeping.AddWall(b1, c), Bookkeeping.AddWall(b2, c))
  {
    AddWallKinds(b1, b2, c);
    CellLists(b1, b2, c);
    NeighbourFacts(b1.width, b1.height, b1.cells, c);
    NeighbourFacts(b2.width, b2.height, b2.cells, c);
    AddWallCounts(b1, b2, c);
    AddWallInvs(b1, b2, c);
  }

  /** One layout is an equivalence: it can be chained. */
  lemma SameLayoutTrans(b1: Board, b2: Board, b3: Board)
    requires SameLayout(b1, b2) && SameLayout(b2, b3)
    ensures SameLayout(b1, b3)
  {
  }
}
