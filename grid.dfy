/**
 * The `MapGrid` class itself: the grid of squares and the coordinate lists
 * as fields that its methods update in place. Each method is proved against
 * the function on `Board` that describes its effect (module `Bookkeeping`) or
 * against the step lemmas of module `Generation`.
 */
module Grid {
  import opened Lists
  import opened Square
  import opened Bookkeeping
  import opened Checks
  import opened Connectivity
  import opened Verdicts
  import opened Generation
  import opened Compression
  import opened Pathfinding

  // ---------------------------------------------------------------------
  // The grid `EmptyGrid` builds.

  /** Row `y`, left to right. */
  function Row(width: nat, y: int): (r: seq<Coord>)
    ensures |r| == width && forall x :: 0 <= x < width ==> r[x] == Coord(x, y)
  {
    seq(width, x => Coord(x, y))
  }

  /** The order in which `EmptyGrid` lists the cells: the rows top to bottom, each left to right. */
  function RowMajor(width: nat, height: nat): (r: seq<Coord>)
    ensures |r| == width * height
  {
    if height == 0 then [] else RowMajor(width, height - 1) + Row(width, height - 1)
  }

  /** A path square as `EmptyGrid` creates it. */
  function FreshSquare(c: Coord, width: int, height: int): Square {
    var nbrs := Neighbours(c, width, height);
    Square(Path, c, nbrs, Orthogonals(c, width, height), Diagonals(c, width, height), [], nbrs, NoneFailed)
  }

  function FreshCells(width: nat, height: nat): map<Coord, Square> {
    map c | c in AllCoords(width, height) :: FreshSquare(c, width, height)
  }

  /** Position `i` of `pathCoordList` after `EmptyGrid` is the cell with index `i`. */
  lemma {:induction false} RowMajorIndex(width: nat, height: nat)
    requires width > 0
    ensures forall i :: 0 <= i < width * height ==> RowMajor(width, height)[i] == IndexToVector2(width, i)
  {
    if height > 0 {
      RowMajorIndex(width, height - 1);
      var r := RowMajor(width, height);
      var lower := width * (height - 1);
      assert width * height == lower + width;
      forall i | lower <= i < width * height ensures r[i] == IndexToVector2(width, i) {
        var x := i - lower;
        assert r[i] == Row(width, height - 1)[x];
        DivUnique(i, width, height - 1, x);
      }
    }
  }

  /** `EmptyGrid` lists every cell of the grid once. */
  lemma RowMajorCells(width: nat, height: nat)
    ensures NoDups(RowMajor(width, height))
    ensures Elems(RowMajor(width, height)) == AllCoords(width, height)
  {
    var r := RowMajor(width, height);
    if width == 0 || height == 0 {
      assert |r| == 0;
    } else {
      RowMajorIndex(width, height);
      forall i, j | 0 <= i < j < |r| ensures r[i] != r[j] {
        DecodeInjective(width, i, j);
      }
      forall c | c in r ensures InGrid(c, width, height) {
        var i :| 0 <= i < |r| && r[i] == c;
        DecodeInGrid(width, height, i);
      }
      forall c | InGrid(c, width, height) ensures c in r {
        IndexInRange(width, height, c);
        CoordRoundTrip(width, c);
        assert r[Vector2ToIndex(width, c)] == c;
      }
    }
  }

  /** The state `EmptyGrid` leaves, lists not yet started by the generation phases. */
  function EmptyBoard(width: nat, height: nat, maxWallNeighbours: int, maxChunks: int): Board {
    var paths := RowMajor(width, height);
    Board(width, height, maxWallNeighbours, maxChunks, FreshCells(width, height), [], paths, [], [], paths, 0, Coord(0, 0))
  }

  /** The empty grid is consistent, every cell a path cell and untagged. */
  lemma FreshShaped(width: nat, height: nat)
    ensures CellsShaped(width, height, FreshCells(width, height))
  {
    var cells := FreshCells(width, height);
    forall k | k in cells
      ensures cells[k].coord == k && Layout(k, cells[k].neighbours, cells[k].orthogonal, cells[k].diagonal, width, height)
    {
      ShapedGeometry(cells[k], width, height);
    }
  }

  lemma FreshNeighbours(width: nat, height: nat)
    ensures NeighboursMatch(FreshCells(width, height))
  {
    var cells := FreshCells(width, height);
    FreshShaped(width, height);
    forall k | k in cells ensures CellMatch(cells, k) {
      NeighbourFacts(width, height, cells, k);
    }
  }

  lemma EmptyBoardPristine(width: nat, height: nat, maxWallNeighbours: int, maxChunks: int)
    ensures Pristine(EmptyBoard(width, height, maxWallNeighbours, maxChunks))
    ensures Elems(EmptyBoard(width, height, maxWallNeighbours, maxChunks).paths) == AllCoords(width, height)
  {
    RowMajorCells(width, height);
    FreshShaped(width, height);
    FreshNeighbours(width, height);
  }

  /** In a consistent grid every path neighbour is a cell, as the search needs. */
  lemma InvClosed(b: Board)
    requires Inv(b)
    ensures Closed(b.cells)
  {
    forall k, n | k in b.cells && n in b.cells[k].pathNeighbours ensures n in b.cells {
      assert CellMatch(b.cells, k);
    }
  }

  /** The neighbour list of `c` indexes the grid: distinct cells other than `c`. */
  predicate NeighboursInGrid(cells: map<Coord, Square>, c: Coord) {
    && c in cells && NoDups(cells[c].neighbours)
    && forall n :: n in cells[c].neighbours ==> n in cells && n != c
  }

  lemma ShapedNeighbours(width: int, height: int, cells: map<Coord, Square>, c: Coord)
    requires CellsShaped(width, height, cells) && c in cells
    ensures NeighboursInGrid(cells, c)
  {
    NeighbourFacts(width, height, cells, c);
  }

  /**
   * The `foreach` over `neighbour_coords` in `AddWall` (`add`) and `RemoveWall`:
   * retypes `c` and moves it between the wall and path neighbours of each neighbour.
   */
  method MoveBetweenNeighbourLists(cells: map<Coord, Square>, c: Coord, add: bool)
    returns (grid: map<Coord, Square>)
    requires NeighboursInGrid(cells, c)
    ensures grid == if add then AddWallCells(cells, c) else RemoveWallCells(cells, c)
  {
    var kind := if add then Wall else Path;
    var nbrs := cells[c].neighbours;
    grid := cells[c := cells[c].(kind := kind)];
    for i := 0 to |nbrs|
      invariant grid.Keys == cells.Keys
      invariant forall k :: k in grid ==>
        grid[k] == Rekind(if k in nbrs[..i] then WallNeighbourUpdate(cells, c, k, add) else cells[k], k == c, kind)
    {
      var n := nbrs[i];
      assert nbrs[..i + 1] == nbrs[..i] + [n];
      grid := grid[n := if add then WithWallNeighbour(grid[n], c) else WithoutWallNeighbour(grid[n], c)];
    }
    assert nbrs[..|nbrs|] == nbrs;
    WallCellsExt(cells, grid, c, add);
  }

  lemma WallCellsExt(cells: map<Coord, Square>, grid: map<Coord, Square>, c: Coord, add: bool)
    requires c in cells && grid.Keys == cells.Keys
    requires forall k :: k in grid ==> grid[k] == Rekind(WallNeighbourUpdate(cells, c, k, add), k == c, if add then Wall else Path)
    ensures grid == if add then AddWallCells(cells, c) else RemoveWallCells(cells, c)
  {
  }

  // ---------------------------------------------------------------------
  // The class.

  class MapGrid {
    const width: int
    const height: int
    const maxWallNeighbours: int
    const maxChunks: int

    var cells: map<Coord, Square>   // grid
    var walls: seq<Coord>           // wallCoordList
    var paths: seq<Coord>           // pathCoordList
    var tanks: seq<Coord>           // tankCoordList
    var valid: seq<Coord>           // validLocations
    var validTanks: seq<Coord>      // validTankLocations
    var chunks: int                 // currentChunks
    var player: Coord               // playerRunTimeCoord
    var obstacles: seq<Coord>       // obstacleCoordList

    /** The fields the generator works on, as one value. */
    function State(): Board
      reads this
    {
      Board(width, height, maxWallNeighbours, maxChunks, cells, walls, paths, tanks, valid, validTanks, chunks, player)
    }

    /**
     * The first half of the generating constructors: store the parameters and
     * build the empty grid. `Generate` is the second half.
     */
    constructor Empty(width: int, height: int, maxWallNeighbours: int, maxChunks: int)
      requires width >= 0 && height >= 0
      ensures State() == EmptyBoard(width, height, maxWallNeighbours, maxChunks) && obstacles == []
      ensures Pristine(State())
    {
      this.width := width;
      this.height := height;
      this.maxWallNeighbours := maxWallNeighbours;
      this.maxChunks := maxChunks;
      walls, tanks, valid, chunks, player, obstacles := [], [], [], 0, Coord(0, 0), [];
      new;
      EmptyGrid();
      EmptyBoardPristine(width, height, maxWallNeighbours, maxChunks);
    }

    /**
     * The `CompressedMapGrid` constructor: an empty grid, then every wall of
     * the array added in order, then every tank. The limits keep their field
     * initialisers (8 wall neighbours, 5 chunks), which this constructor does
     * not overwrite. The rebuilt grid is consistent, its wall and tank lists
     * are the arrays decoded in order, and the first tank is the player.
     */
    constructor FromCompressed(m: CompressedMap)
      requires Replayable(m)
      ensures width == m.width && height == m.height && maxWallNeighbours == 8 && maxChunks == 5
      ensures Inv(State()) && PlayerFirst(State())
      ensures walls == Decode(m.width, m.wallArray) && tanks == Decode(m.width, m.tankArray)
      ensures obstacles == []
    {
      width := m.width;
      height := m.height;
      maxWallNeighbours := 8;
      maxChunks := 5;
      walls, tanks, valid, chunks, player, obstacles := [], [], [], 0, Coord(0, 0), [];
      new;
      EmptyGrid();
      EmptyBoardPristine(width, height, 8, 5);
      StartWallPhase();
      ReplayWalls(m);
      StartTankReplay();
      ReplayTanks(m);
    }

    /** `tankCoordList` and `validTankLocations` start afresh before the tanks are replayed. */
    method StartTankReplay()
      requires Inv(State()) && tanks == []
      modifies this
      ensures Inv(State()) && tanks == [] && validTanks == paths
      ensures walls == old(walls) && obstacles == old(obstacles)
    {
      ghost var b := State();
      tanks := [];
      validTanks := paths;
      assert State() == b.(validTanks := b.paths);
    }

    /** The `foreach` over `wallArray` in the `CompressedMapGrid` constructor. */
    method ReplayWalls(m: CompressedMap)
      requires Replayable(m) && width == m.width && height == m.height
      requires Inv(State()) && walls == [] && tanks == []
      modifies this
      ensures Inv(State()) && walls == Decode(m.width, m.wallArray) && tanks == []
      ensures obstacles == old(obstacles)
    {
      for i := 0 to |m.wallArray|
        invariant Inv(State()) && tanks == [] && walls == Decode(width, m.wallArray[..i])
        invariant obstacles == old(obstacles)
      {
        ReplayWallStep(State(), m.wallArray, i);
        var c := IndexToVector2(width, m.wallArray[i]);
        ShapedNeighbours(width, height, cells, c);
        AddWall(c);
      }
      assert m.wallArray[..|m.wallArray|] == m.wallArray;
    }

    /** The `foreach` over `tankArray` in the `CompressedMapGrid` constructor. */
    method ReplayTanks(m: CompressedMap)
      requires Replayable(m) && width == m.width && height == m.height
      requires Inv(State()) && walls == Decode(m.width, m.wallArray) && tanks == []
      modifies this
      ensures Inv(State()) && PlayerFirst(State())
      ensures walls == old(walls) && tanks == Decode(m.width, m.tankArray)
      ensures obstacles == old(obstacles)
    {
      TanksReplayedStart(State(), m);
      for i := 0 to |m.tankArray|
        invariant TanksReplayed(State(), m, i)
        invariant obstacles == old(obstacles)
      {
        ReplayTankStep(State(), m, i);
        AddTank(IndexToVector2(width, m.tankArray[i]));
      }
      TanksReplayedDone(State(), m);
    }

    /** `EmptyGrid`: a fresh path square for every cell, listed row by row. */
    method EmptyGrid()
      requires width >= 0 && height >= 0
      modifies this
      ensures cells == FreshCells(width, height) && paths == RowMajor(width, height) && validTanks == paths
      ensures walls == old(walls) && tanks == old(tanks) && valid == old(valid)
      ensures chunks == old(chunks) && player == old(player) && obstacles == old(obstacles)
    {
      var list: seq<Coord> := [];
      var grid: map<Coord, Square> := map[];
      for y := 0 to height
        invariant unchanged(this)
        invariant list == RowMajor(width, y)
        invariant forall k :: k in grid <==> k in list
        invariant forall k :: k in grid ==> grid[k] == FreshSquare(k, width, height)
      {
        for x := 0 to width
          invariant unchanged(this)
          invariant list == RowMajor(width, y) + Row(width, y)[..x]
          invariant forall k :: k in grid <==> k in list
          invariant forall k :: k in grid ==> grid[k] == FreshSquare(k, width, height)
        {
          var coord := Coord(x, y);
          assert Row(width, y)[..x + 1] == Row(width, y)[..x] + [coord];
          list := list + [coord];
          var square := NewSquare(Path, coord, height, width);
          grid := grid[coord := square];
        }
        assert Row(width, y)[..width] == Row(width, y);
      }
      RowMajorCells(width, height);
      assert grid == FreshCells(width, height);
      cells, paths, validTanks := grid, list, list;
    }

    /** `AddWall`: `c` becomes a wall, its neighbours move it from their path to their wall neighbours. */
    method AddWall(c: Coord)
      requires NeighboursInGrid(cells, c)
      modifies this
      ensures State() == Bookkeeping.AddWall(old(State()), c) && obstacles == old(obstacles)
    {
      var grid := MoveBetweenNeighbourLists(cells, c, true);
      walls := walls + [c];
      paths := RemoveFirst(paths, c);
      cells := grid;
      if |cells[c].wallNeighbours| == 0 {
        chunks := chunks + 1;
      }
      valid := RemoveFirst(valid, c);
    }

    /** `RemoveWall`: the reverse of `AddWall`; `c` goes back to the end of the path and valid lists. */
    method RemoveWall(c: Coord)
      requires NeighboursInGrid(cells, c)
      modifies this
      ensures State() == Bookkeeping.RemoveWall(old(State()), c) && obstacles == old(obstacles)
    {
      var grid := MoveBetweenNeighbourLists(cells, c, false);
      walls := RemoveFirst(walls, c);
      paths := paths + [c];
      cells := grid;
      if |cells[c].wallNeighbours| == 0 {
        chunks := chunks - 1;
      }
      valid := valid + [c];
    }

    /** `AddTank`: the first tank is the player and sets `playerRunTimeCoord`, later ones are enemies. */
    method AddTank(c: Coord)
      requires c in cells
      modifies this
      ensures State() == Bookkeeping.AddTank(old(State()), c) && obstacles == old(obstacles)
    {
      tanks := tanks + [c];
      if |tanks| == 1 {
        cells := cells[c := cells[c].(kind := Player)];
        player := c;
      } else {
        cells := cells[c := cells[c].(kind := Tank)];
      }
      validTanks := RemoveFirst(validTanks, c);
    }

    /** `RemoveTank`: `c` is a path cell again and a tank candidate at the end of the list. */
    method RemoveTank(c: Coord)
      requires c in cells
      modifies this
      ensures State() == Bookkeeping.RemoveTank(old(State()), c) && obstacles == old(obstacles)
    {
      tanks := RemoveFirst(tanks, c);
      cells := cells[c := cells[c].(kind := Path)];
      validTanks := validTanks + [c];
    }
    // -------------------------------------------------------------------
    // The wall phase.

    /**
     * `PassedWallDuringChecks`: runs the nine checks in array order on the
     * wall just added at `c`. The first that fails undoes the wall, drops `c`
     * from `validLocations` and tags it with that check; if all hold the wall
     * stays. The connectivity check throws on an empty path list, which ends
     * generation (`crashed`).
     */
    method PassedWallDuringChecks(c: Coord) returns (passed: bool, crashed: bool)
      requires NeighboursInGrid(cells, c)
      modifies this
      ensures var v := Battery(old(State()), c);
        && (passed <==> v == AllHold) && (crashed <==> v == Crash)
        && (v.FailsAt? ==> v.index < 9 && State() == Reject(old(State()), c, v.index))
        && (!v.FailsAt? ==> State() == old(State()))
      ensures crashed ==> paths == []
      ensures obstacles == old(obstacles)
    {
      for k := 0 to 9
        invariant unchanged(this)
        invariant HoldBelow(State(), c, k)
      {
        var outcome := RunCheck(State(), c, k);
        if outcome != Holds {
          BatteryStopsAt(State(), c, k);
          if outcome == Throws {
            CrashMeansNoPaths(State(), c);
            return false, true;
          }
          RejectWall(c, k);
          return false, false;
        }
      }
      BatteryPasses(State(), c);
      return true, false;
    }

    /** What `PassedWallDuringChecks` does once check `k` has failed on the wall at `c`. */
    method RejectWall(c: Coord, k: nat)
      requires NeighboursInGrid(cells, c) && k < 9
      modifies this
      ensures State() == Reject(old(State()), c, k) && obstacles == old(obstacles)
    {
      RemoveWall(c);
      valid := RemoveFirst(valid, c);
      cells := cells[c := cells[c].(failed := CheckAt(k))];
    }

    /** The body of the `foreach` in `ValidateLocations`, for the cell `loc`. */
    method Revalidate(loc: Coord) returns (crashed: bool)
      requires NeighboursInGrid(cells, loc)
      modifies this
      ensures crashed ==> paths == []
      ensures crashed <==> old(cells)[loc].failed != NoneFailed && Battery(Bookkeeping.AddWall(old(State()), loc), loc) == Crash
      ensures !crashed ==> State() == Revalidated(old(State()), loc)
      ensures obstacles == old(obstacles)
    {
      crashed := false;
      if cells[loc].failed != NoneFailed {
        AddWall(loc);
        var passed;
        passed, crashed := PassedWallDuringChecks(loc);
        if passed {
          cells := cells[loc := cells[loc].(failed := NoneFailed)];
          RemoveWall(loc);
        }
      }
    }

    /**
     * `ValidateLocations`: after a wall at `c` is accepted, every path
     * neighbour of `c` that carries a failed-check tag is judged again; the
     * layout is unchanged and each tag becomes the verdict of the grid as it
     * stood, through `Retried`.
     */
    method ValidateLocations(c: Coord) returns (crashed: bool)
      requires GenInv(State()) && c in cells
      modifies this
      ensures crashed ==> paths == []
      ensures !crashed ==> GenInv(State()) && SameLayout(old(State()), State())
      ensures !crashed ==> forall k :: k in old(cells) ==> cells[k].failed == Retried(old(State()), c, k)
      ensures obstacles == old(obstacles)
    {
      ghost var b0 := State();
      var list := cells[c].pathNeighbours;
      RetryingStart(b0, c);
      crashed := false;
      for i := 0 to |list|
        invariant Retrying(b0, c, list, i, State())
        invariant obstacles == old(obstacles)
      {
        var loc := list[i];
        RetryingNext(b0, c, list, i, State());
        ShapedNeighbours(width, height, cells, loc);
        ghost var cur := State();
        crashed := Revalidate(loc);
        if crashed {
          return;
        }
        RetryingStep(b0, c, list, i, cur);
      }
      RetryingDone(b0, c, list, State());
    }

    /**
     * The first half of the local `GenerateWall`: the candidate `l` is added
     * as a wall and judged; `PassedWallDuringChecks` undoes and tags it if a
     * check fails.
     */
    method TryWall(l: Coord) returns (passed: bool, crashed: bool)
      requires GenInv(State()) && l in valid
      modifies this
      ensures crashed ==> paths == []
      ensures var v := Battery(Bookkeeping.AddWall(old(State()), l), l);
        && (passed <==> v == AllHold) && (crashed <==> v == Crash)
        && (passed ==> State() == Bookkeeping.AddWall(old(State()), l))
        && (v.FailsAt? ==> v.index < 9 && State() == Reject(Bookkeeping.AddWall(old(State()), l), l, v.index))
      ensures obstacles == old(obstacles)
    {
      WallCandidate(State(), l);
      ShapedNeighbours(width, height, cells, l);
      AddWall(l);
      ShapedNeighbours(width, height, cells, l);
      passed, crashed := PassedWallDuringChecks(l);
    }

    /**
     * The local `GenerateWall`: a random candidate from `locs` is added as a
     * wall; if the checks reject it, it is dropped from `locs` and another is
     * tried while any are left. Either one candidate that passes the checks
     * is committed, or every candidate was rejected and the layout is as
     * before, with all of them gone from `validLocations`.
     */
    method GenerateWall(locs: seq<Coord>) returns (crashed: bool)
      requires GenInv(State()) && |locs| > 0 && NoDups(locs)
      requires forall l :: l in locs ==> l in valid
      modifies this
      ensures crashed ==> paths == []
      ensures !crashed ==> WallPlaced(old(State()), locs, State())
      ensures obstacles == old(obstacles)
      decreases |locs|
    {
      ghost var b0 := State();
      var i :| 0 <= i < |locs|;
      var l := locs[i];
      var passed;
      passed, crashed := TryWall(l);
      if crashed {
        return;
      }
      if !passed {
        ghost var k := Battery(Bookkeeping.AddWall(b0, l), l).index;
        RejectStep(b0, locs, l, k);
        var rest := RemoveFirst(locs, l);
        if |rest| != 0 {
          crashed := GenerateWall(rest);
          if !crashed {
            RejectThen(b0, locs, l, k, State());
          }
        }
        return;
      }
      CommitSpec(b0, l);
      crashed := ValidateLocations(l);
      if !crashed {
        CommitThen(b0, locs, l, State());
      }
    }

    /** The start of `GenerateWalls`: no walls yet, every path cell valid. */
    method StartWallPhase()
      requires Pristine(State())
      modifies this
      ensures GenInv(State()) && walls == []
      ensures obstacles == old(obstacles)
    {
      ghost var b := State();
      PristineGenInv(b);
      walls := [];
      valid := paths;
      assert State() == b.(valid := b.paths);
    }

    /**
     * `GenerateWalls`: every path cell starts valid, and walls are generated
     * until `desiredWalls` is reached or no valid location is left. The
     * invariant of the wall phase holds at the end; the wall count stops at
     * `desiredWalls` and falls short only when no valid location remains.
     * (`PassedWallEndChecks` always holds, so the restart through
     * `ResetWalls` never happens.)
     */
    method GenerateWalls(desiredWalls: int) returns (crashed: bool)
      requires Pristine(State())
      modifies this
      ensures crashed ==> paths == []
      ensures !crashed ==> GenInv(State())
      ensures !crashed ==> |walls| <= desiredWalls || walls == []
      ensures !crashed ==> |walls| >= desiredWalls || valid == []
      ensures obstacles == old(obstacles)
    {
      StartWallPhase();
      crashed := false;
      while |walls| < desiredWalls && |valid| != 0
        invariant GenInv(State()) && (|walls| <= desiredWalls || walls == [])
        invariant obstacles == old(obstacles)
        decreases desiredWalls - |walls|, |valid|
      {
        assert ValidMatch(cells, valid);
        ghost var b0 := State();
        crashed := GenerateWall(valid);
        if crashed {
          return;
        }
        WallProgress(b0, State());
      }
    }

    // -------------------------------------------------------------------
    // The tank phase.

    /**
     * `PassedTankDuringChecks`: the two proximity checks, in order, on the
     * tank just placed at `c`. The first that fails removes the tank again and
     * drops `c` from `validTankLocations`.
     */
    method PassedTankDuringChecks(c: Coord) returns (passed: bool)
      requires c in cells
      modifies this
      ensures passed <==> TankProxCheck(old(State()), c) && PlayerProxCheck(old(State()), c)
      ensures passed ==> State() == old(State())
      ensures !passed ==> State() == TankRejected(old(State()), c)
      ensures obstacles == old(obstacles)
    {
      for k := 0 to 2
        invariant unchanged(this)
        invariant forall j :: 0 <= j < k ==> RunTankCheck(State(), c, j)
      {
        if !RunTankCheck(State(), c, k) {
          RemoveTank(c);
          validTanks := RemoveFirst(validTanks, c);
          return false;
        }
      }
      assert RunTankCheck(State(), c, 0) && RunTankCheck(State(), c, 1);
      return true;
    }

    /** The first half of the local `GenerateTank`: the candidate `l` is placed as a tank and judged. */
    method TryTank(l: Coord) returns (passed: bool)
      requires TankInv(State()) && l in validTanks
      modifies this
      ensures var a := Bookkeeping.AddTank(old(State()), l);
        && (passed <==> TankProxCheck(a, l) && PlayerProxCheck(a, l))
        && (passed ==> State() == a)
        && (!passed ==> State() == TankRejected(a, l))
      ensures obstacles == old(obstacles)
    {
      assert l in cells;
      AddTank(l);
      passed := PassedTankDuringChecks(l);
    }

    /**
     * The local `GenerateTank`: a random candidate from `locs` is placed as a
     * tank; if a proximity check rejects it, it is dropped from `locs` and
     * another is tried while any are left.
     */
    method GenerateTank(locs: seq<Coord>)
      requires TankInv(State()) && |locs| > 0 && NoDups(locs)
      requires forall l :: l in locs ==> l in validTanks
      modifies this
      ensures TankPlaced(old(State()), locs, State())
      ensures obstacles == old(obstacles)
      decreases |locs|
    {
      ghost var b0 := State();
      var i :| 0 <= i < |locs|;
      var l := locs[i];
      var passed := TryTank(l);
      if !passed {
        TankRejectStep(b0, locs, l);
        var rest := RemoveFirst(locs, l);
        if |rest| != 0 {
          GenerateTank(rest);
          TankRejectThen(b0, locs, l, TankRejected(Bookkeeping.AddTank(b0, l), l), State());
        }
        return;
      }
      TankCommitThen(b0, locs, l);
    }

    /** The start of `GenerateTanks`: no tanks yet, every path cell a candidate. */
    method StartTankPhase()
      requires MapInv(State()) && tanks == []
      modifies this
      ensures TankInv(State()) && tanks == [] && walls == old(walls) && valid == old(valid)
      ensures obstacles == old(obstacles)
    {
      ghost var b := State();
      TankPhaseStart(b);
      tanks := [];
      validTanks := paths;
      assert State() == b.(validTanks := b.paths);
    }

    /**
     * `GenerateTanks`: every path cell starts as a candidate, and tanks are
     * generated until `desiredTanks` is reached or no candidate is left. The
     * tank-phase invariant holds at the end: the first tank is the player, no
     * two tanks are within 2.5 of each other and no enemy is within 7 of the
     * player. (`PassedTankEndChecks` always holds, so the restart never
     * happens.)
     */
    method GenerateTanks(desiredTanks: int)
      requires MapInv(State()) && tanks == []
      modifies this
      ensures TankInv(State()) && walls == old(walls) && valid == old(valid)
      ensures |tanks| <= desiredTanks || tanks == []
      ensures |tanks| >= desiredTanks || validTanks == []
      ensures obstacles == old(obstacles)
    {
      StartTankPhase();
      while |tanks| < desiredTanks && |validTanks| != 0
        invariant TankInv(State()) && walls == old(walls) && valid == old(valid)
        invariant |tanks| <= desiredTanks || tanks == []
        invariant obstacles == old(obstacles)
        decreases desiredTanks - |tanks|, |validTanks|
      {
        assert NoDups(validTanks);
        ghost var b0 := State();
        GenerateTank(validTanks);
        TankProgress(b0, State());
      }
    }

    /**
     * The second half of the rated and survival constructors: the walls, then
     * the tanks, then an empty obstacle list. On success the grid is
     * consistent, its path cells connected, its chunk count bounded, its
     * first tank the player and its tanks spaced; each count stops at what
     * was asked for and falls short only when no candidate was left.
     */
    method Generate(desiredWalls: int, desiredTanks: int) returns (crashed: bool)
      requires Pristine(State())
      modifies this
      ensures crashed ==> paths == []
      ensures !crashed ==> TankInv(State()) && obstacles == []
      ensures !crashed ==> (|walls| <= desiredWalls || walls == []) && (|walls| >= desiredWalls || valid == [])
      ensures !crashed ==> (|tanks| <= desiredTanks || tanks == []) && (|tanks| >= desiredTanks || validTanks == [])
    {
      crashed := GenerateWalls(desiredWalls);
      if crashed {
        return;
      }
      GenerateTanks(desiredTanks);
      obstacles := [];
    }

    // -------------------------------------------------------------------
    // Compression and the runtime queries.

    /**
     * `GetCompressedMap`: the wall and tank lists as cell indices. It can be
     * replayed, and it decodes to the very lists it came from.
     */
    method GetCompressedMap() returns (m: CompressedMap)
      requires Inv(State())
      ensures Replayable(m) && m.width == width && m.height == height
      ensures Decode(m.width, m.wallArray) == walls && Decode(m.width, m.tankArray) == tanks
    {
      m := Compression.GetCompressedMap(State());
      CompressedRoundTrip(State());
    }

    /** `UpdatePlayerPosition`: the runtime player coordinate moves; nothing else changes. */
    method UpdatePlayerPosition(c: Coord)
      modifies this
      ensures State() == old(State()).(player := c) && obstacles == old(obstacles)
    {
      player := c;
    }

    /** `AddTankObstatcle`: one more occurrence of `c` among the obstacles. */
    method AddTankObstacle(c: Coord)
      modifies this
      ensures State() == old(State()) && obstacles == old(obstacles) + [c]
    {
      obstacles := obstacles + [c];
    }

    /** `RemoveTankObstacle`: one occurrence of `c`, if any, leaves the obstacles. */
    method RemoveTankObstacle(c: Coord)
      modifies this
      ensures State() == old(State())
      ensures multiset(obstacles) == multiset(old(obstacles)) - multiset{c}
    {
      RemoveFirstMultiset(obstacles, c);
      obstacles := RemoveFirst(obstacles, c);
    }

    /**
     * `GetPathTo`: the shortest walk from `start` towards `goal` that avoids
     * the static obstacles and the cells `temp` (the paths other tanks have
     * claimed). It reaches `goal` whenever that can be done, with no walk
     * shorter; otherwise it ends at a reachable cell closest to `goal`.
     */
    method GetPathTo(start: Coord, goal: Coord, temp: seq<Coord>) returns (path: seq<Coord>)
      requires Inv(State()) && start in cells
      ensures var obs := Elems(obstacles) + Elems(temp);
        && IsWalk(cells, obs, start, path) && Shortest(cells, obs, start, path)
        && (Reachable(cells, obs, start, goal) ==> Last(start, path) == goal)
        && (!Reachable(cells, obs, start, goal) ==>
              forall v :: Reachable(cells, obs, start, v) ==> Dist2(Last(start, path), goal) <= Dist2(v, goal))
    {
      InvClosed(State());
      path := ShortestPath(cells, Elems(obstacles) + Elems(temp), start, goal);
    }

    /**
     * The destination `GetPath` aims at: the player, or a random path cell
     * that is not an obstacle. With no such cell the random index into the
     * empty list throws (`crashed`).
     */
    method ChooseGoal(toPlayer: bool) returns (goal: Coord, crashed: bool)
      ensures crashed <==> !toPlayer && forall p :: p in paths ==> p in obstacles
      ensures !crashed && toPlayer ==> goal == player
      ensures !crashed && !toPlayer ==> goal in paths && goal !in obstacles
    {
      if toPlayer {
        return player, false;
      }
      var obs := obstacles;
      var free := Filter(paths, p => p !in obs);
      if |free| == 0 {
        assert forall p :: p in paths ==> p in obs by {
          forall p | p in paths ensures p in obs {
            assert p !in free;
          }
        }
        return Coord(0, 0), true;
      }
      var i :| 0 <= i < |free|;
      assert free[i] in free;
      return free[i], false;
    }

    /** `GetPath`: a shortest walk towards the destination `ChooseGoal` picks. */
    method GetPath(start: Coord, toPlayer: bool, temp: seq<Coord>) returns (path: seq<Coord>, goal: Coord, crashed: bool)
      requires Inv(State()) && start in cells
      ensures crashed <==> !toPlayer && forall p :: p in paths ==> p in obstacles
      ensures !crashed && toPlayer ==> goal == player
      ensures !crashed && !toPlayer ==> goal in paths && goal !in obstacles
      ensures !crashed ==> var obs := Elems(obstacles) + Elems(temp);
        && IsWalk(cells, obs, start, path) && Shortest(cells, obs, start, path)
        && (Reachable(cells, obs, start, goal) ==> Last(start, path) == goal)
        && (!Reachable(cells, obs, start, goal) ==>
              forall v :: Reachable(cells, obs, start, v) ==> Dist2(Last(start, path), goal) <= Dist2(v, goal))
    {
      goal, crashed := ChooseGoal(toPlayer);
      if crashed {
        return [], goal, true;
      }
      path := GetPathTo(start, goal, temp);
    }
  }
}
