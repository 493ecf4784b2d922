/**
 * The state of a `MapGrid` as one value, the invariant that its bookkeeping
 * keeps, and the effect of the four primitive updates `AddWall`, `RemoveWall`,
 * `AddTank` and `RemoveTank` as functions on that value.
 */
module Bookkeeping {
  import opened Lists
  import opened Square

  datatype Board = Board(
    width: int,
    height: int,
    maxWallNeighbours: int,
    maxChunks: int,
    cells: map<Coord, Square>,   // grid[x][y]
    walls: seq<Coord>,           // wallCoordList
    paths: seq<Coord>,           // pathCoordList
    tanks: seq<Coord>,           // tankCoordList
    valid: seq<Coord>,           // validLocations
    validTanks: seq<Coord>,      // validTankLocations
    chunks: int,                 // currentChunks
    player: Coord)               // playerRunTimeCoord

  /** The grids hold the same cells with the same types. */
  predicate KindsAgree(c1: map<Coord, Square>, c2: map<Coord, Square>) {
    c1.Keys == c2.Keys && forall k :: k in c1 ==> c1[k].kind == c2[k].kind
  }

  /** `c2` is `c1` with the type of `c` (only) set to `kind`. */
  predicate Retyped(c1: map<Coord, Square>, c2: map<Coord, Square>, c: Coord, kind: Kind) {
    && c1.Keys == c2.Keys && c in c2 && c2[c].kind == kind
    && forall k :: k in c1 && k != c ==> c1[k].kind == c2[k].kind
  }

  // ---------------------------------------------------------------------
  // The invariant, one conjunct per piece of bookkeeping.

  /** Every cell of the grid is present, at its own coordinate, with bounds-derived lists. */
  ghost predicate CellsShaped(width: int, height: int, cells: map<Coord, Square>) {
    && width >= 0 && height >= 0
    && cells.Keys == AllCoords(width, height)
    && forall k :: k in cells ==>
         cells[k].coord == k && Layout(k, cells[k].neighbours, cells[k].orthogonal, cells[k].diagonal, width, height)
  }

  /** `wallCoordList` and `pathCoordList` partition the grid according to the cell types. */
  ghost predicate ListsMatch(cells: map<Coord, Square>, walls: seq<Coord>, paths: seq<Coord>) {
    && NoDups(walls) && NoDups(paths)
    && (forall k :: k in walls ==> k in cells)
    && (forall k :: k in paths ==> k in cells)
    && (forall k :: k in cells ==> (k in walls <==> cells[k].kind == Wall))
    && (forall k :: k in cells ==> (k in paths <==> cells[k].kind != Wall))
  }

  /** The live neighbour lists of one cell agree with the neighbours' types. */
  ghost predicate CellMatch(cells: map<Coord, Square>, k: Coord)
    requires k in cells
  {
    var sq := cells[k];
    && NoDups(sq.wallNeighbours) && NoDups(sq.pathNeighbours)
    && (forall n :: n in sq.wallNeighbours <==> n in sq.neighbours && n in cells && cells[n].kind == Wall)
    && (forall n :: n in sq.pathNeighbours <==> n in sq.neighbours && n in cells && cells[n].kind != Wall)
  }

  ghost predicate NeighboursMatch(cells: map<Coord, Square>) {
    forall k :: k in cells ==> CellMatch(cells, k)
  }

  /** `tankCoordList` lists the tank cells, the player first. */
  ghost predicate TanksMatch(cells: map<Coord, Square>, tanks: seq<Coord>) {
    && NoDups(tanks)
    && (forall t :: t in tanks ==> t in cells)
    && (forall k :: k in cells ==> (k in tanks <==> cells[k].kind in {Tank, Player}))
    && (|tanks| > 0 ==> cells[tanks[0]].kind == Player)
    && (forall i :: 0 < i < |tanks| ==> cells[tanks[i]].kind == Tank)
  }

  /** `validLocations` holds distinct cells that are not walls. */
  ghost predicate ValidMatch(cells: map<Coord, Square>, valid: seq<Coord>) {
    && NoDups(valid)
    && forall v :: v in valid ==> v in cells && cells[v].kind != Wall
  }

  /** During generation the player coordinate is the first tank's. */
  predicate PlayerFirst(b: Board) {
    |b.tanks| > 0 ==> b.player == b.tanks[0]
  }

  ghost predicate Inv(b: Board) {
    && CellsShaped(b.width, b.height, b.cells)
    && ListsMatch(b.cells, b.walls, b.paths)
    && NeighboursMatch(b.cells)
    && TanksMatch(b.cells, b.tanks)
    && ValidMatch(b.cells, b.valid)
  }

  // ---------------------------------------------------------------------
  // The four primitive updates.

  function WithWallNeighbour(sq: Square, c: Coord): Square {
    sq.(wallNeighbours := sq.wallNeighbours + [c], pathNeighbours := RemoveFirst(sq.pathNeighbours, c))
  }

  function WithoutWallNeighbour(sq: Square, c: Coord): Square {
    sq.(wallNeighbours := RemoveFirst(sq.wallNeighbours, c), pathNeighbours := sq.pathNeighbours + [c])
  }

  /** The cells after `AddWall(c)`: `c` becomes a wall and its neighbours list it as one. */
  function AddWallCells(cells: map<Coord, Square>, c: Coord): (r: map<Coord, Square>)
    requires c in cells
    ensures r.Keys == cells.Keys
    ensures forall k :: k in r ==> r[k].kind == if k == c then Wall else cells[k].kind
    ensures forall k :: k in r ==> SameFrame(r[k], cells[k])
    ensures forall k :: k in r ==> r[k] == Rekind(WallNeighbourUpdate(cells, c, k, true), k == c, Wall)
  {
    map k | k in cells :: Rekind(WallNeighbourUpdate(cells, c, k, true), k == c, Wall)
  }

  /** The cells after `RemoveWall(c)`. */
  function RemoveWallCells(cells: map<Coord, Square>, c: Coord): (r: map<Coord, Square>)
    requires c in cells
    ensures r.Keys == cells.Keys
    ensures forall k :: k in r ==> r[k].kind == if k == c then Path else cells[k].kind
    ensures forall k :: k in r ==> SameFrame(r[k], cells[k])
    ensures forall k :: k in r ==> r[k] == Rekind(WallNeighbourUpdate(cells, c, k, false), k == c, Path)
  {
    map k | k in cells :: Rekind(WallNeighbourUpdate(cells, c, k, false), k == c, Path)
  }

  /** Cell `k` once `c` has been added to (or removed from) its wall neighbours, if it is one. */
  function WallNeighbourUpdate(cells: map<Coord, Square>, c: Coord, k: Coord, add: bool): Square
    requires c in cells && k in cells
  {
    if k !in cells[c].neighbours then cells[k]
    else if add then WithWallNeighbour(cells[k], c)
    else WithoutWallNeighbour(cells[k], c)
  }

  /** Everything but the type and the live neighbour lists agrees. */
  predicate SameFrame(s1: Square, s2: Square) {
    && s1.coord == s2.coord && s1.neighbours == s2.neighbours
    && s1.orthogonal == s2.orthogonal && s1.diagonal == s2.diagonal && s1.failed == s2.failed
  }

  function Rekind(sq: Square, change: bool, kind: Kind): Square {
    if change then sq.(kind := kind) else sq
  }

  function AddWall(b: Board, c: Coord): Board
    requires c in b.cells
  {
    var cells := AddWallCells(b.cells, c);
    b.(walls := b.walls + [c],
       paths := RemoveFirst(b.paths, c),
       cells := cells,
       chunks := if |cells[c].wallNeighbours| == 0 then b.chunks + 1 else b.chunks,
       valid := RemoveFirst(b.valid, c))
  }

  function RemoveWall(b: Board, c: Coord): Board
    requires c in b.cells
  {
    var cells := RemoveWallCells(b.cells, c);
    b.(walls := RemoveFirst(b.walls, c),
       paths := b.paths + [c],
       cells := cells,
       chunks := if |cells[c].wallNeighbours| == 0 then b.chunks - 1 else b.chunks,
       valid := b.valid + [c])
  }

  /** The cells with the type of `c` (only) set to `kind`. */
  function Retype(cells: map<Coord, Square>, c: Coord, kind: Kind): (r: map<Coord, Square>)
    requires c in cells
    ensures r.Keys == cells.Keys && r[c].kind == kind && SameFrame(r[c], cells[c])
    ensures r[c].wallNeighbours == cells[c].wallNeighbours && r[c].pathNeighbours == cells[c].pathNeighbours
    ensures forall k :: k in cells && k != c ==> r[k] == cells[k]
  {
    cells[c := cells[c].(kind := kind)]
  }

  /** The type `AddTank` gives a cell when the tank list has grown to `count`. */
  function TankKind(count: int): Kind {
    if count == 1 then Player else Tank
  }

  function AddTank(b: Board, c: Coord): Board
    requires c in b.cells
  {
    var tanks := b.tanks + [c];
    b.(tanks := tanks,
       cells := Retype(b.cells, c, TankKind(|tanks|)),
       player := if TankKind(|tanks|) == Player then c else b.player,
       validTanks := RemoveFirst(b.validTanks, c))
  }

  function RemoveTank(b: Board, c: Coord): Board
    requires c in b.cells
  {
    b.(tanks := RemoveFirst(b.tanks, c),
       cells := Retype(b.cells, c, Path),
       validTanks := b.validTanks + [c])
  }

  /** A cell may take a new wall: it is an open path cell. */
  predicate Open(b: Board, c: Coord) {
    c in b.cells && b.cells[c].kind == Path
  }

  // ---------------------------------------------------------------------
  // Lemmas: the updates keep the invariant.

  lemma NeighbourFacts(width: int, height: int, cells: map<Coord, Square>, k: Coord)
    requires CellsShaped(width, height, cells) && k in cells
    ensures InGrid(k, width, height)
    ensures forall n :: n in cells[k].neighbours ==> n in cells && n != k
    ensures forall n :: n in cells ==> (n in cells[k].neighbours <==> k in cells[n].neighbours)
    ensures forall n :: n in cells[k].orthogonal ==> n in cells && n in cells[k].neighbours
    ensures forall n :: n in cells[k].diagonal ==> n in cells && n in cells[k].neighbours
  {
    forall n | n in cells ensures n in cells[k].neighbours <==> k in cells[n].neighbours {
      assert Layout(n, cells[n].neighbours, cells[n].orthogonal, cells[n].diagonal, width, height);
    }
  }

  /** The geometric fields do not change under a wall update. */
  lemma WallCellsShaped(width: int, height: int, cells: map<Coord, Square>, c: Coord, add: bool)
    requires CellsShaped(width, height, cells) && c in cells
    ensures CellsShaped(width, height, if add then AddWallCells(cells, c) else RemoveWallCells(cells, c))
  {
  }

  lemma AddWallCellOk(cells: map<Coord, Square>, c: Coord, k: Coord)
    requires c in cells && cells[c].kind == Path && k in cells && CellMatch(cells, k)
    requires c !in cells[c].neighbours
    requires c in cells[k].neighbours <==> k in cells[c].neighbours
    ensures CellMatch(AddWallCells(cells, c), k)
  {
    var sq := cells[k];
    if k in cells[c].neighbours {
      assert c !in sq.wallNeighbours;
      AppendNoDups(sq.wallNeighbours, c);
      RemoveFirstMembers(sq.pathNeighbours, c);
    }
  }

  lemma RemoveWallCellOk(cells: map<Coord, Square>, c: Coord, k: Coord)
    requires c in cells && cells[c].kind == Wall && k in cells && CellMatch(cells, k)
    requires c !in cells[c].neighbours
    requires c in cells[k].neighbours <==> k in cells[c].neighbours
    ensures CellMatch(RemoveWallCells(cells, c), k)
  {
    var sq := cells[k];
    if k in cells[c].neighbours {
      assert c !in sq.pathNeighbours;
      AppendNoDups(sq.pathNeighbours, c);
      RemoveFirstMembers(sq.wallNeighbours, c);
    }
  }

  lemma WallNeighboursMatch(width: int, height: int, cells: map<Coord, Square>, c: Coord, add: bool)
    requires CellsShaped(width, height, cells) && NeighboursMatch(cells) && c in cells
    requires cells[c].kind == if add then Path else Wall
    ensures NeighboursMatch(if add then AddWallCells(cells, c) else RemoveWallCells(cells, c))
  {
    NeighbourFacts(width, height, cells, c);
    forall k | k in cells
      ensures CellMatch(if add then AddWallCells(cells, c) else RemoveWallCells(cells, c), k)
    {
      assert CellMatch(cells, k);
      if add { AddWallCellOk(cells, c, k); } else { RemoveWallCellOk(cells, c, k); }
    }
  }

  lemma AddWallLists(cells: map<Coord, Square>, walls: seq<Coord>, paths: seq<Coord>, c: Coord)
    requires ListsMatch(cells, walls, paths) && c in cells && cells[c].kind == Path
    ensures ListsMatch(AddWallCells(cells, c), walls + [c], RemoveFirst(paths, c))
  {
    AppendNoDups(walls, c);
    RemoveFirstMembers(paths, c);
  }

  lemma RemoveWallLists(cells: map<Coord, Square>, walls: seq<Coord>, paths: seq<Coord>, c: Coord)
    requires ListsMatch(cells, walls, paths) && c in cells && cells[c].kind == Wall
    ensures ListsMatch(RemoveWallCells(cells, c), RemoveFirst(walls, c), paths + [c])
  {
    AppendNoDups(paths, c);
    RemoveFirstMembers(walls, c);
  }

  /** Changing only the type of a non-tank cell to a non-tank type keeps the tank list. */
  lemma RekindTanks(cells: map<Coord, Square>, cells': map<Coord, Square>, tanks: seq<Coord>, c: Coord)
    requires TanksMatch(cells, tanks) && c in cells && cells[c].kind in {Path, Wall}
    requires cells'.Keys == cells.Keys
    requires forall k :: k in cells && k != c ==> cells'[k].kind == cells[k].kind
    requires cells'[c].kind in {Path, Wall}
    ensures TanksMatch(cells', tanks)
  {
    assert c !in tanks;
  }

  lemma AddWallInv(b: Board, c: Coord)
    requires Inv(b) && Open(b, c)
    ensures Inv(AddWall(b, c))
    ensures Retyped(b.cells, AddWall(b, c).cells, c, Wall)
    ensures AddWall(b, c).walls == b.walls + [c]
    ensures AddWall(b, c).chunks == if |b.cells[c].wallNeighbours| == 0 then b.chunks + 1 else b.chunks
  {
    var cells := AddWallCells(b.cells, c);
    NeighbourFacts(b.width, b.height, b.cells, c);
    assert cells[c].wallNeighbours == b.cells[c].wallNeighbours;
    WallCellsShaped(b.width, b.height, b.cells, c, true);
    WallNeighboursMatch(b.width, b.height, b.cells, c, true);
    AddWallLists(b.cells, b.walls, b.paths, c);
    RekindTanks(b.cells, cells, b.tanks, c);
    RemoveFirstMembers(b.valid, c);
  }

  /** `AddWall` counts a new chunk exactly when the wall has no wall neighbour. */
  lemma AddWallChunks(b: Board, c: Coord)
    requires Inv(b) && Open(b, c)
    ensures AddWall(b, c).chunks == if |b.cells[c].wallNeighbours| == 0 then b.chunks + 1 else b.chunks
  {
    NeighbourFacts(b.width, b.height, b.cells, c);
  }

  lemma RemoveWallInv(b: Board, c: Coord)
    requires Inv(b) && c in b.cells && b.cells[c].kind == Wall
    ensures Inv(RemoveWall(b, c))
    ensures Retyped(b.cells, RemoveWall(b, c).cells, c, Path)
    ensures RemoveWall(b, c).paths == b.paths + [c]
    ensures RemoveWall(b, c).chunks == if |b.cells[c].wallNeighbours| == 0 then b.chunks - 1 else b.chunks
  {
    var cells := RemoveWallCells(b.cells, c);
    NeighbourFacts(b.width, b.height, b.cells, c);
    assert cells[c].wallNeighbours == b.cells[c].wallNeighbours;
    WallCellsShaped(b.width, b.height, b.cells, c, false);
    WallNeighboursMatch(b.width, b.height, b.cells, c, false);
    RemoveWallLists(b.cells, b.walls, b.paths, c);
    RekindTanks(b.cells, cells, b.tanks, c);
    assert c !in b.valid;
    AppendNoDups(b.valid, c);
  }

  /** The neighbour lists do not look at tanks: retyping a non-wall cell to a non-wall type keeps them. */
  lemma RetypeNeighboursMatch(cells: map<Coord, Square>, c: Coord, kind: Kind)
    requires NeighboursMatch(cells) && c in cells && cells[c].kind != Wall && kind != Wall
    ensures NeighboursMatch(Retype(cells, c, kind))
  {
    var cells' := Retype(cells, c, kind);
    forall k | k in cells' ensures CellMatch(cells', k) {
      assert CellMatch(cells, k);
    }
  }

  /** Retyping a non-wall cell to another non-wall type keeps every conjunct but the tank list. */
  lemma RetypeKeeps(b: Board, c: Coord, kind: Kind)
    requires Inv(b) && c in b.cells && b.cells[c].kind != Wall && kind != Wall
    ensures var cells := Retype(b.cells, c, kind);
      && CellsShaped(b.width, b.height, cells) && ListsMatch(cells, b.walls, b.paths)
      && NeighboursMatch(cells) && ValidMatch(cells, b.valid)
  {
    RetypeShaped(b.width, b.height, b.cells, c, kind);
    RetypeLists(b.cells, b.walls, b.paths, b.valid, c, kind);
    RetypeNeighboursMatch(b.cells, c, kind);
  }

  lemma RetypeShaped(width: int, height: int, cells: map<Coord, Square>, c: Coord, kind: Kind)
    requires CellsShaped(width, height, cells) && c in cells
    ensures CellsShaped(width, height, Retype(cells, c, kind))
  {
  }

  lemma RetypeLists(cells: map<Coord, Square>, walls: seq<Coord>, paths: seq<Coord>, valid: seq<Coord>, c: Coord, kind: Kind)
    requires ListsMatch(cells, walls, paths) && ValidMatch(cells, valid)
    requires c in cells && cells[c].kind != Wall && kind != Wall
    ensures ListsMatch(Retype(cells, c, kind), walls, paths) && ValidMatch(Retype(cells, c, kind), valid)
  {
  }

  lemma AddTankTanks(cells: map<Coord, Square>, tanks: seq<Coord>, c: Coord)
    requires TanksMatch(cells, tanks) && c in cells && cells[c].kind == Path
    ensures var t := TankKind(|tanks| + 1);
      TanksMatch(Retype(cells, c, t), tanks + [c])
  {
    var cells' := Retype(cells, c, TankKind(|tanks| + 1));
    var tanks' := tanks + [c];
    assert c !in tanks;
    AppendNoDups(tanks, c);
    forall i | 0 < i < |tanks'| ensures cells'[tanks'[i]].kind == Tank {
      if i < |tanks| {
        assert tanks'[i] == tanks[i];
      }
    }
  }

  /** The invariant does not look at `validTankLocations`. */
  lemma InvIgnoresValidTanks(b: Board, v: seq<Coord>)
    requires Inv(b)
    ensures Inv(b.(validTanks := v))
  {
  }

  lemma AddTankInv(b: Board, c: Coord)
    requires Inv(b) && Open(b, c)
    ensures Inv(AddTank(b, c))
    ensures AddTank(b, c).tanks == b.tanks + [c]
    ensures Retyped(b.cells, AddTank(b, c).cells, c, TankKind(|b.tanks| + 1))
    ensures AddTank(b, c).player == if b.tanks == [] then c else b.player
  {
    RetypeKeeps(b, c, TankKind(|b.tanks| + 1));
    AddTankTanks(b.cells, b.tanks, c);
  }

  lemma RemoveTankTanks(cells: map<Coord, Square>, tanks: seq<Coord>, c: Coord)
    requires TanksMatch(cells, tanks) && |tanks| > 0 && c == tanks[|tanks| - 1]
    ensures TanksMatch(Retype(cells, c, Path), tanks[..|tanks| - 1])
  {
    var pre := tanks[..|tanks| - 1];
    RemoveLast(tanks);
    var cells' := Retype(cells, c, Path);
    forall k | k in cells' ensures k in pre <==> cells'[k].kind in {Tank, Player} {
      if k != c {
        assert k in pre <==> k in tanks;
      }
    }
    forall i | 0 < i < |pre| ensures cells'[pre[i]].kind == Tank {
      assert pre[i] == tanks[i];
    }
    if |pre| > 0 {
      assert pre[0] == tanks[0];
    }
  }

  /** `RemoveTank` undoing the most recent `AddTank`. */
  lemma RemoveTankInv(b: Board, c: Coord)
    requires Inv(b) && |b.tanks| > 0 && c == b.tanks[|b.tanks| - 1]
    ensures Inv(RemoveTank(b, c))
    ensures RemoveTank(b, c).tanks == b.tanks[..|b.tanks| - 1]
    ensures Retyped(b.cells, RemoveTank(b, c).cells, c, Path)
  {
    RemoveLast(b.tanks);
    RemoveTankTanks(b.cells, b.tanks, c);
    RetypeKeeps(b, c, Path);
  }

  // ---------------------------------------------------------------------
  // Lemmas: a rejected wall leaves the layout as it was.

  /** Two states with the same layout: same parameters, types, wall list and chunk count. */
  ghost predicate SameLayout(b1: Board, b2: Board) {
    && Inv(b1) && Inv(b2)
    && b1.width == b2.width && b1.height == b2.height
    && b1.maxWallNeighbours == b2.maxWallNeighbours && b1.maxChunks == b2.maxChunks
    && KindsAgree(b1.cells, b2.cells)
    && b1.walls == b2.walls && b1.tanks == b2.tanks && b1.player == b2.player
    && b1.chunks == b2.chunks
  }

  /** Undoing a wall at the cell level: every cell gets its type and wall list back, its path list as a multiset. */
  lemma WallCellsRoundTrip(cells: map<Coord, Square>, c: Coord)
    requires c in cells && cells[c].kind == Path && c !in cells[c].neighbours
    requires forall k :: k in cells && k in cells[c].neighbours ==>
      c !in cells[k].wallNeighbours && c in cells[k].pathNeighbours
    ensures var r := RemoveWallCells(AddWallCells(cells, c), c);
      && KindsAgree(cells, r)
      && forall k :: k in cells ==>
           && SameFrame(r[k], cells[k]) && r[k].wallNeighbours == cells[k].wallNeighbours
           && multiset(r[k].pathNeighbours) == multiset(cells[k].pathNeighbours)
  {
    var a := AddWallCells(cells, c);
    var r := RemoveWallCells(a, c);
    forall k | k in cells
      ensures r[k].wallNeighbours == cells[k].wallNeighbours
      ensures multiset(r[k].pathNeighbours) == multiset(cells[k].pathNeighbours)
    {
      if k in cells[c].neighbours {
        AppendThenRemove(cells[k].wallNeighbours, c);
        RemoveFirstMultiset(cells[k].pathNeighbours, c);
      }
    }
  }

  /** The wall list, the chunk counter and the types come back after `RemoveWall` undoes `AddWall`. */
  lemma AddThenRemoveWallLayout(b: Board, c: Coord)
    requires Inv(b) && Open(b, c)
    ensures SameLayout(b, RemoveWall(AddWall(b, c), c))
  {
    AddThenRemoveWallInv(b, c);
    AddThenRemoveWallCounts(b, c);
    AddThenRemoveWallCells(b, c);
  }

  lemma AddThenRemoveWallInv(b: Board, c: Coord)
    requires Inv(b) && Open(b, c)
    ensures Inv(RemoveWall(AddWall(b, c), c))
  {
    AddWallInv(b, c);
    RemoveWallInv(AddWall(b, c), c);
  }

  lemma AddThenRemoveWallCounts(b: Board, c: Coord)
    requires Inv(b) && Open(b, c)
    ensures RemoveWall(AddWall(b, c), c).chunks == b.chunks
    ensures RemoveWall(AddWall(b, c), c).walls == b.walls
  {
    NeighbourFacts(b.width, b.height, b.cells, c);
    assert AddWall(b, c).cells[c].wallNeighbours == b.cells[c].wallNeighbours;
    assert c !in b.walls;
    AppendThenRemove(b.walls, c);
  }

  /** The live neighbour lists come back: the wall lists exactly, the path lists as multisets. */
  lemma AddThenRemoveWallCells(b: Board, c: Coord)
    requires Inv(b) && Open(b, c)
    ensures var r := RemoveWall(AddWall(b, c), c).cells;
      && KindsAgree(b.cells, r)
      && forall k :: k in b.cells ==>
           && SameFrame(r[k], b.cells[k]) && r[k].wallNeighbours == b.cells[k].wallNeighbours
           && multiset(r[k].pathNeighbours) == multiset(b.cells[k].pathNeighbours)
  {
    NeighbourFacts(b.width, b.height, b.cells, c);
    forall k | k in b.cells && k in b.cells[c].neighbours
      ensures c !in b.cells[k].wallNeighbours && c in b.cells[k].pathNeighbours
    {
      assert CellMatch(b.cells, k);
    }
    WallCellsRoundTrip(b.cells, c);
  }

  /**
   * `RemoveWall` after `AddWall` restores the layout and every live neighbour
   * list as a multiset; `pathCoordList` comes back as a multiset and
   * `validLocations` has the cell moved to its end.
   */
  lemma AddThenRemoveWall(b: Board, c: Coord)
    requires Inv(b) && Open(b, c)
    ensures var r := RemoveWall(AddWall(b, c), c);
      && SameLayout(b, r)
      && multiset(r.paths) == multiset(b.paths)
      && r.valid == RemoveFirst(b.valid, c) + [c]
      && forall k :: k in b.cells ==>
           && SameFrame(r.cells[k], b.cells[k]) && r.cells[k].wallNeighbours == b.cells[k].wallNeighbours
           && multiset(r.cells[k].pathNeighbours) == multiset(b.cells[k].pathNeighbours)
  {
    AddThenRemoveWallLayout(b, c);
    AddThenRemoveWallCells(b, c);
    AddThenRemoveWallLists(b, c);
  }

  lemma AddThenRemoveWallLists(b: Board, c: Coord)
    requires Inv(b) && Open(b, c)
    ensures multiset(RemoveWall(AddWall(b, c), c).paths) == multiset(b.paths)
    ensures RemoveWall(AddWall(b, c), c).valid == RemoveFirst(b.valid, c) + [c]
  {
    RemoveFirstMultiset(b.paths, c);
  }
}
