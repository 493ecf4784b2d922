/**
 * The checks `PassedWallDuringChecks` and `PassedTankDuringChecks` run on a
 * freshly placed wall or tank, as read-only functions of the board state.
 * The LINQ `Intersect`, `Except` and `Contains` over neighbour lists are read as
 * set operations; the recursive `ChunkIndexList` and `PathConnective` walks are
 * represented by the set of cells they visit, a `Reach.Closure`.
 */
module Checks {
  import opened Lists
  import opened Square
  import opened Reach
  import opened Bookkeeping

  /** The set of elements of a list. */
  function Elems(s: seq<Coord>): (r: set<Coord>)
    ensures forall x :: x in r <==> x in s
  {
    set x | x in s
  }

  /** Steps through live wall-neighbour lists (`ChunkIndexList`). */
  function WallAdj(cells: map<Coord, Square>): (adj: Adjacency)
    ensures adj.Keys == cells.Keys
    ensures forall k :: k in adj ==> adj[k] == Elems(cells[k].wallNeighbours)
  {
    map k | k in cells :: Elems(cells[k].wallNeighbours)
  }

  /** Steps to orthogonal neighbours (`PathConnective`). */
  function OrthAdj(cells: map<Coord, Square>): (adj: Adjacency)
    ensures adj.Keys == cells.Keys
    ensures forall k :: k in adj ==> adj[k] == Elems(cells[k].orthogonal)
  {
    map k | k in cells :: Elems(cells[k].orthogonal)
  }

  // ---------------------------------------------------------------------
  // The nine wall checks, in battery order. `c` is the wall just added.

  /** The wall chunk `c` belongs to: the walls reachable through wall neighbours. */
  function Chunk(b: Board, c: Coord): set<Coord>
    requires c in b.cells
  {
    Closure(WallAdj(b.cells), b.cells.Keys, {c})
  }

  /** 0. No path neighbour of `c` touches a wall outside `c`'s chunk. */
  predicate ChunkDistanceCheck(b: Board, c: Coord)
    requires c in b.cells
  {
    var chunk := Chunk(b, c);
    forall n :: n in b.cells[c].pathNeighbours && n in b.cells ==> Elems(b.cells[n].wallNeighbours) <= chunk
  }

  /** 1. No orthogonal path neighbour is a corner, or an edge cell when `c` is not one. */
  predicate ChunkBoundaryDistance(b: Board, c: Coord)
    requires c in b.cells
  {
    var sq := b.cells[c];
    forall n :: n in sq.orthogonal && n in b.cells && b.cells[n].kind == Path ==>
      !(IsEdge(b.cells[n]) && !IsEdge(sq)) && !IsCorner(b.cells[n])
  }

  /** 2. An isolated wall may not push the counter above `maxChunks`. */
  predicate MaxChunkCheck(b: Board, c: Coord)
    requires c in b.cells
  {
    !(|b.cells[c].wallNeighbours| == 0 && b.chunks > b.maxChunks)
  }

  /** The two cells share an orthogonal neighbour that is a wall. */
  predicate CommonOrthogonalWallNeighbour(b: Board, w1: Coord, w2: Coord)
    requires w1 in b.cells && w2 in b.cells
  {
    exists e :: e in b.cells[w1].orthogonal && e in b.cells[w2].orthogonal && e in b.cells && b.cells[e].kind == Wall
  }

  /** 3. Every diagonal wall neighbour is joined to `c` through an orthogonal wall. */
  predicate DiagonalToWallCheck(b: Board, c: Coord)
    requires c in b.cells
  {
    var sq := b.cells[c];
    forall d :: d in sq.diagonal && d in sq.wallNeighbours && d in b.cells ==> CommonOrthogonalWallNeighbour(b, c, d)
  }

  /** 4. No orthogonal path neighbour has a wall on its far side. */
  predicate CShapeCheck(b: Board, c: Coord)
    requires c in b.cells
  {
    var sq := b.cells[c];
    forall n :: n in sq.pathNeighbours && n in sq.orthogonal ==> Opposite(sq, n) !in b.walls
  }

  /** The result of one check: it holds, it fails, or it throws. */
  datatype Outcome = Holds | Fails | Throws

  /** The path cells reached by the flood fill from the first listed one. */
  function Flood(b: Board): set<Coord>
    requires |b.paths| > 0
  {
    Closure(OrthAdj(b.cells), Elems(b.paths), {b.paths[0]})
  }

  /**
   * 5. The flood fill from `pathCoordList[0]` over orthogonal neighbours
   * reaches every path cell; indexing an empty list throws.
   */
  function PathConnectivityCheck(b: Board): Outcome {
    if |b.paths| == 0 then Throws
    else if Flood(b) == Elems(b.paths) then Holds
    else Fails
  }

  /** 6. No neighbour of `c` has more wall neighbours (off-grid ones included) than allowed. */
  predicate MaxNeighbourCheck(b: Board, c: Coord)
    requires c in b.cells
  {
    !exists n :: n in b.cells[c].neighbours && n in b.cells && HasMaxedWallNeighbours(b.cells[n], b.maxWallNeighbours)
  }

  /**
   * 7. For an orthogonal path neighbour `n` and a diagonal wall neighbour `k`
   * of `n` that is not orthogonal to `c`, no path cell is both orthogonal to
   * `k` and diagonal to `c`.
   */
  predicate LargeCShapeCheck(b: Board, c: Coord)
    requires c in b.cells
  {
    var sq := b.cells[c];
    forall n, k ::
      n in sq.pathNeighbours && n in sq.orthogonal && n in b.cells &&
      k in b.cells[n].diagonal && k in b.cells[n].wallNeighbours && k in b.cells ==>
        !(k !in sq.orthogonal && exists p :: p in b.paths && p in b.cells[k].orthogonal && p in sq.diagonal)
  }

  /**
   * 8. A diagonal path neighbour that shares exactly three path neighbours with
   * `c` must not have a wall on its far side.
   */
  predicate DiagonalGapCheck(b: Board, c: Coord)
    requires c in b.cells
  {
    var sq := b.cells[c];
    forall d :: d in sq.pathNeighbours && d in sq.diagonal && d in b.cells ==>
      !(|Elems(b.cells[d].pathNeighbours) * Elems(sq.pathNeighbours)| == 3 && Opposite(sq, d) in b.walls)
  }

  function FromBool(ok: bool): Outcome {
    if ok then Holds else Fails
  }

  /** `CheckMethodArray[k](newWall)`. */
  function RunCheck(b: Board, c: Coord, k: nat): Outcome
    requires c in b.cells && k < 9
  {
    if k == 0 then FromBool(ChunkDistanceCheck(b, c))
    else if k == 1 then FromBool(ChunkBoundaryDistance(b, c))
    else if k == 2 then FromBool(MaxChunkCheck(b, c))
    else if k == 3 then FromBool(DiagonalToWallCheck(b, c))
    else if k == 4 then FromBool(CShapeCheck(b, c))
    else if k == 5 then PathConnectivityCheck(b)
    else if k == 6 then FromBool(MaxNeighbourCheck(b, c))
    else if k == 7 then FromBool(LargeCShapeCheck(b, c))
    else FromBool(DiagonalGapCheck(b, c))
  }

  /** The verdict of the battery: all checks hold, the first failure, or an exception. */
  datatype Verdict = AllHold | FailsAt(index: nat) | Crash

  /** The battery run from index `k` on. */
  function BatteryFrom(b: Board, c: Coord, k: nat): Verdict
    requires c in b.cells && k <= 9
    decreases 9 - k
  {
    if k == 9 then AllHold
    else match RunCheck(b, c, k)
      case Holds => BatteryFrom(b, c, k + 1)
      case Fails => FailsAt(k)
      case Throws => Crash
  }

  function Battery(b: Board, c: Coord): Verdict
    requires c in b.cells
  {
    BatteryFrom(b, c, 0)
  }

  /** The checks before `k` all hold. */
  predicate HoldBelow(b: Board, c: Coord, k: nat)
    requires c in b.cells && k <= 9
  {
    forall j :: 0 <= j < k ==> RunCheck(b, c, j) == Holds
  }

  lemma {:induction false} BatteryFromMeaning(b: Board, c: Coord, k: nat)
    requires c in b.cells && k <= 9 && HoldBelow(b, c, k)
    ensures BatteryFrom(b, c, k) == AllHold <==> HoldBelow(b, c, 9)
    ensures forall i :: BatteryFrom(b, c, k) == FailsAt(i) <==>
      k <= i < 9 && HoldBelow(b, c, i) && RunCheck(b, c, i) == Fails
    ensures BatteryFrom(b, c, k) == Crash <==>
      exists i :: k <= i < 9 && HoldBelow(b, c, i) && RunCheck(b, c, i) == Throws
    decreases 9 - k
  {
    if k < 9 && RunCheck(b, c, k) == Holds {
      assert HoldBelow(b, c, k + 1);
      BatteryFromMeaning(b, c, k + 1);
    }
  }

  /**
   * The battery stops at the first check that does not hold, in array order:
   * it passes iff all nine hold, and it fails at `k` iff check `k` fails and
   * every earlier one holds.
   */
  lemma BatteryMeaning(b: Board, c: Coord)
    requires c in b.cells
    ensures Battery(b, c) == AllHold <==> HoldBelow(b, c, 9)
    ensures forall k :: Battery(b, c) == FailsAt(k) <==> k < 9 && HoldBelow(b, c, k) && RunCheck(b, c, k) == Fails
    ensures Battery(b, c) == Crash <==> exists k :: k < 9 && HoldBelow(b, c, k) && RunCheck(b, c, k) == Throws
  {
    BatteryFromMeaning(b, c, 0);
  }

  /** The battery stops at the first check that does not hold: a failure there, or the exception. */
  lemma BatteryStopsAt(b: Board, c: Coord, k: nat)
    requires c in b.cells && k < 9 && HoldBelow(b, c, k) && RunCheck(b, c, k) != Holds
    ensures Battery(b, c) == if RunCheck(b, c, k) == Fails then FailsAt(k) else Crash
  {
    BatteryMeaning(b, c);
  }

  /** All nine checks hold: the battery passes. */
  lemma BatteryPasses(b: Board, c: Coord)
    requires c in b.cells && HoldBelow(b, c, 9)
    ensures Battery(b, c) == AllHold
  {
    BatteryMeaning(b, c);
  }

  /** Only the connectivity check can throw, and only on an empty path list. */
  lemma CrashMeansNoPaths(b: Board, c: Coord)
    requires c in b.cells && Battery(b, c) == Crash
    ensures b.paths == []
  {
    BatteryMeaning(b, c);
    var k :| k < 9 && HoldBelow(b, c, k) && RunCheck(b, c, k) == Throws;
    assert k == 5;
  }

  /** A wall that passes leaves all path cells reachable from the first one. */
  lemma PassConnected(b: Board, c: Coord)
    requires c in b.cells && Battery(b, c) == AllHold
    ensures |b.paths| > 0 && Flood(b) == Elems(b.paths)
  {
    BatteryMeaning(b, c);
    assert RunCheck(b, c, 5) == Holds;
  }

  /** An isolated wall that passes leaves the chunk counter within `maxChunks`. */
  lemma PassChunkBound(b: Board, c: Coord)
    requires c in b.cells && Battery(b, c) == AllHold && |b.cells[c].wallNeighbours| == 0
    ensures b.chunks <= b.maxChunks
  {
    BatteryMeaning(b, c);
    assert RunCheck(b, c, 2) == Holds;
  }

  /** A wall that passes leaves no neighbour over the wall-neighbour limit. */
  lemma PassNeighbourLimit(b: Board, c: Coord, n: Coord)
    requires c in b.cells && Battery(b, c) == AllHold
    requires n in b.cells[c].neighbours && n in b.cells
    ensures !HasMaxedWallNeighbours(b.cells[n], b.maxWallNeighbours)
  {
    BatteryMeaning(b, c);
    assert RunCheck(b, c, 6) == Holds;
  }

  // ---------------------------------------------------------------------
  // The tank checks.

  /** Squared Euclidean distance. */
  function Dist2(a: Coord, b: Coord): nat {
    (a.x - b.x) * (a.x - b.x) + (a.y - b.y) * (a.y - b.y)
  }

  /** `TankProxCheck`: farther than 2.5 from every other tank, that is d² ≥ 7. */
  predicate TankProxCheck(b: Board, c: Coord) {
    forall t :: t in b.tanks && t != c ==> Dist2(c, t) >= 7
  }

  /** `PlayerProxCheck`: the player itself, or farther than 7 from it, that is d² > 49. */
  predicate PlayerProxCheck(b: Board, c: Coord)
    requires c in b.cells
  {
    b.cells[c].kind == Player || Dist2(c, b.player) > 49
  }

  /** `CheckMethodArray[k](newTankSquare)` for the tank battery. */
  predicate RunTankCheck(b: Board, c: Coord, k: nat)
    requires c in b.cells && k < 2
  {
    if k == 0 then TankProxCheck(b, c) else PlayerProxCheck(b, c)
  }
}
