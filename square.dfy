/**
 * One cell of the level map (`MapGridSquare`): its coordinate, its type, the
 * neighbour coordinates computed once from the grid bounds, the live lists of
 * wall and path neighbours that the grid keeps in sync, and the tag naming the
 * check that last rejected a wall here.
 */
module Square {
  import opened Lists

  /** An integer grid coordinate (column `x`, row `y`); stands for `Vector2`. */
  datatype Coord = Coord(x: int, y: int)

  /** `Type`: what occupies a cell. */
  datatype Kind = Path | Wall | Tank | Player

  /** `FailedCheck`: the nine wall checks in battery order, then `none`. */
  datatype FailedCheck =
    | ChunkDistanceCheck
    | ChunkBoundaryDistance
    | MaxChunkCheck
    | DiagonalToWallCheck
    | CShapeCheck
    | PathConnectivityCheck
    | MaxNeighbourCheck
    | LargeCShapeCheck
    | DiagonalGapCheck
    | NoneFailed

  /** The cast `(FailedCheck)k` for a battery index `k`. */
  function CheckAt(k: nat): (f: FailedCheck)
    requires k < 9
    ensures f != NoneFailed
  {
    [ChunkDistanceCheck, ChunkBoundaryDistance, MaxChunkCheck, DiagonalToWallCheck,
     CShapeCheck, PathConnectivityCheck, MaxNeighbourCheck, LargeCShapeCheck,
     DiagonalGapCheck][k]
  }

  datatype Square = Square(
    kind: Kind,
    coord: Coord,
    neighbours: seq<Coord>,
    orthogonal: seq<Coord>,
    diagonal: seq<Coord>,
    wallNeighbours: seq<Coord>,
    pathNeighbours: seq<Coord>,
    failed: FailedCheck)

  // The constructor's offset tables, scanned in this order.
  const Cols: seq<int> := [-1, 0, 1, -1, 0, 1, -1, 0, 1]
  const Rows: seq<int> := [-1, -1, -1, 0, 0, 0, 1, 1, 1]

  predicate InGrid(c: Coord, width: int, height: int) {
    0 <= c.x < width && 0 <= c.y < height
  }

  /** The set of all coordinates of a `width` by `height` grid. */
  function AllCoords(width: nat, height: nat): (s: set<Coord>)
    ensures forall c :: c in s <==> InGrid(c, width, height)
  {
    set x, y | 0 <= x < width && 0 <= y < height :: Coord(x, y)
  }

  function Candidate(c: Coord, i: nat): Coord
    requires i < 9
  {
    Coord(c.x + Cols[i], c.y + Rows[i])
  }

  /** The constructor's test for offset `i`: inside the grid and not the cell itself. */
  predicate Keeps(c: Coord, width: int, height: int, i: nat)
    requires i < 9
  {
    InGrid(Candidate(c, i), width, height) && Candidate(c, i) != c
  }

  /** Which of the three lists an offset is appended to. */
  datatype Selection = AllNeighbours | DiagonalOnly | OrthogonalOnly

  predicate Selected(sel: Selection, i: nat) {
    match sel
    case AllNeighbours => true
    case DiagonalOnly => i % 2 == 0
    case OrthogonalOnly => i % 2 == 1
  }

  /** The list built by the first `n` rounds of the constructor's loop. */
  function Scan(c: Coord, width: int, height: int, sel: Selection, n: nat): seq<Coord>
    requires n <= 9
  {
    if n == 0 then []
    else Scan(c, width, height, sel, n - 1)
         + (if Keeps(c, width, height, n - 1) && Selected(sel, n - 1)
            then [Candidate(c, n - 1)] else [])
  }

  function Neighbours(c: Coord, width: int, height: int): seq<Coord> {
    Scan(c, width, height, AllNeighbours, 9)
  }

  function Orthogonals(c: Coord, width: int, height: int): seq<Coord> {
    Scan(c, width, height, OrthogonalOnly, 9)
  }

  function Diagonals(c: Coord, width: int, height: int): seq<Coord> {
    Scan(c, width, height, DiagonalOnly, 9)
  }

  /** The constructor `MapGridSquare(type, coord, height, width)`. */
  method NewSquare(kind: Kind, coord: Coord, height: int, width: int) returns (sq: Square)
    ensures sq.kind == kind && sq.coord == coord && sq.failed == NoneFailed
    ensures sq.neighbours == Neighbours(coord, width, height)
    ensures sq.orthogonal == Orthogonals(coord, width, height)
    ensures sq.diagonal == Diagonals(coord, width, height)
    ensures sq.wallNeighbours == [] && sq.pathNeighbours == sq.neighbours
  {
    var nbrs: seq<Coord>, diag: seq<Coord>, orth: seq<Coord> := [], [], [];
    var col, row := coord.x, coord.y;
    for i := 0 to |Rows|
      invariant nbrs == Scan(coord, width, height, AllNeighbours, i)
      invariant diag == Scan(coord, width, height, DiagonalOnly, i)
      invariant orth == Scan(coord, width, height, OrthogonalOnly, i)
    {
      var newRow, newCol := row + Rows[i], col + Cols[i];
      if newRow >= 0 && newRow < height && newCol >= 0 && newCol < width && !(newRow == row && newCol == col) {
        var neighbourCoord := Coord(newCol, newRow);
        nbrs := nbrs + [neighbourCoord];
        if i % 2 == 0 {
          diag := diag + [neighbourCoord];
        } else {
          orth := orth + [neighbourCoord];
        }
      }
    }
    sq := Square(kind, coord, nbrs, orth, diag, [], nbrs, NoneFailed);
  }

  /** A square as the grid builds it: bounds-derived lists for its own coordinate. */
  predicate Shaped(sq: Square, width: int, height: int) {
    && sq.neighbours == Neighbours(sq.coord, width, height)
    && sq.orthogonal == Orthogonals(sq.coord, width, height)
    && sq.diagonal == Diagonals(sq.coord, width, height)
  }

  predicate CornerCell(c: Coord, width: int, height: int) {
    (c.x == 0 || c.x == width - 1) && (c.y == 0 || c.y == height - 1)
  }

  /**
   * What the bounds-derived lists of a square mean: exactly the in-grid cells of
   * its 3-by-3 window, split by axis, each listed once; an edge square is one on
   * the border, and on a grid at least two by two a corner square is one of the
   * four corners.
   */
  ghost predicate Geometry(sq: Square, width: int, height: int) {
    Layout(sq.coord, sq.neighbours, sq.orthogonal, sq.diagonal, width, height)
  }

  /** `Geometry` on the four fields it is about. */
  ghost predicate Layout(c: Coord, nbrs: seq<Coord>, orth: seq<Coord>, diag: seq<Coord>, width: int, height: int) {
    && InGrid(c, width, height)
    && NoDups(nbrs) && NoDups(orth) && NoDups(diag)
    && (forall n :: n in nbrs <==> InGrid(n, width, height) && Near(n, c))
    && (forall n :: n in orth <==> InGrid(n, width, height) && Orthogonal(n, c))
    && (forall n :: n in diag <==> InGrid(n, width, height) && Diagonal(n, c))
    && |nbrs| == |orth| + |diag|
    && |orth| <= 4 && |diag| <= 4
    && (|nbrs| < 8 <==> OnBorder(c, width, height))
    && (width >= 2 && height >= 2 ==> (|diag| == 1 <==> CornerCell(c, width, height)))
  }

  /** Every square the constructor builds inside the grid has that geometry. */
  lemma ShapedGeometry(sq: Square, width: int, height: int)
    requires Shaped(sq, width, height) && InGrid(sq.coord, width, height)
    ensures Geometry(sq, width, height)
  {
    NeighbourMembers(sq.coord, width, height);
    NeighbourCounts(sq.coord, width, height);
    EdgeIffBorder(sq.coord, width, height);
    if width >= 2 && height >= 2 {
      CornerIffCorner(sq.coord, width, height);
    }
  }

  /** Off-grid neighbour positions count as walls. */
  predicate HasMaxedWallNeighbours(sq: Square, maxValue: int) {
    |sq.wallNeighbours| + (8 - |sq.neighbours|) > maxValue
  }

  predicate IsCorner(sq: Square) {
    |sq.diagonal| == 1
  }

  predicate IsEdge(sq: Square) {
    |sq.neighbours| < 8
  }

  /** The cell on the far side of `c1` from this square. */
  function Opposite(sq: Square, c1: Coord): (r: Coord)
    ensures r.x + sq.coord.x == 2 * c1.x && r.y + sq.coord.y == 2 * c1.y
  {
    Coord(2 * c1.x - sq.coord.x, 2 * c1.y - sq.coord.y)
  }

  // ---------------------------------------------------------------------
  // Facts about the offset tables and the scan.

  lemma OffsetFacts(i: nat)
    requires i < 9
    ensures -1 <= Cols[i] <= 1 && -1 <= Rows[i] <= 1
    ensures i == 3 * (Rows[i] + 1) + (Cols[i] + 1)
    ensures i % 2 == 1 <==> (Cols[i] == 0) != (Rows[i] == 0)
  {
    if i == 0 {} else if i == 1 {} else if i == 2 {} else if i == 3 {} else if i == 4 {}
    else if i == 5 {} else if i == 6 {} else if i == 7 {} else {}
  }

  function Manhattan(a: Coord, b: Coord): nat {
    (if a.x < b.x then b.x - a.x else a.x - b.x) + (if a.y < b.y then b.y - a.y else a.y - b.y)
  }

  /** Chebyshev closeness, the constructor's neighbour window. */
  predicate Near(a: Coord, b: Coord) {
    -1 <= a.x - b.x <= 1 && -1 <= a.y - b.y <= 1 && a != b
  }

  predicate Orthogonal(a: Coord, b: Coord) {
    Near(a, b) && (a.x == b.x || a.y == b.y)
  }

  predicate Diagonal(a: Coord, b: Coord) {
    Near(a, b) && a.x != b.x && a.y != b.y
  }

  predicate SelectedCoord(sel: Selection, c: Coord, n: Coord) {
    match sel
    case AllNeighbours => Near(n, c)
    case DiagonalOnly => Diagonal(n, c)
    case OrthogonalOnly => Orthogonal(n, c)
  }

  /** The offset index that produces a coordinate of the 3-by-3 window. */
  lemma CandidateIndex(c: Coord, n: Coord) returns (i: nat)
    requires -1 <= n.x - c.x <= 1 && -1 <= n.y - c.y <= 1
    ensures i < 9 && Candidate(c, i) == n
  {
    i := 3 * (n.y - c.y + 1) + (n.x - c.x + 1);
    OffsetFacts(i);
  }

  lemma {:induction false} ScanMembers(c: Coord, width: int, height: int, sel: Selection, n: nat, m: Coord)
    requires n <= 9
    ensures m in Scan(c, width, height, sel, n) <==>
            exists i :: 0 <= i < n && Keeps(c, width, height, i) && Selected(sel, i) && Candidate(c, i) == m
  {
    if n > 0 {
      ScanMembers(c, width, height, sel, n - 1, m);
    }
  }

  /** Distinct offsets give distinct cells. */
  lemma CandidateInjective(c: Coord, i: nat, j: nat)
    requires i < 9 && j < 9 && Candidate(c, i) == Candidate(c, j)
    ensures i == j
  {
    OffsetFacts(i);
    OffsetFacts(j);
  }

  lemma {:induction false} ScanNoDups(c: Coord, width: int, height: int, sel: Selection, n: nat)
    requires n <= 9
    ensures NoDups(Scan(c, width, height, sel, n))
  {
    if n > 0 {
      var s := Scan(c, width, height, sel, n - 1);
      ScanNoDups(c, width, height, sel, n - 1);
      if Keeps(c, width, height, n - 1) && Selected(sel, n - 1) {
        var m := Candidate(c, n - 1);
        if m in s {
          ScanMembers(c, width, height, sel, n - 1, m);
          var i :| 0 <= i < n - 1 && Candidate(c, i) == m;
          CandidateInjective(c, i, n - 1);
        }
        AppendNoDups(s, m);
      }
    }
  }

  /** Every kept offset lies in the window and selection matches the geometry. */
  lemma SelectionMeaning(c: Coord, width: int, height: int, sel: Selection, i: nat)
    requires i < 9 && Keeps(c, width, height, i)
    ensures Selected(sel, i) <==> SelectedCoord(sel, c, Candidate(c, i))
  {
    OffsetFacts(i);
  }

  /** Membership in a scan of all nine offsets, in geometric terms. */
  lemma ScanGeometry(c: Coord, width: int, height: int, sel: Selection, m: Coord)
    ensures m in Scan(c, width, height, sel, 9) <==>
            InGrid(m, width, height) && SelectedCoord(sel, c, m)
  {
    ScanMembers(c, width, height, sel, 9, m);
    if m in Scan(c, width, height, sel, 9) {
      var i :| 0 <= i < 9 && Keeps(c, width, height, i) && Selected(sel, i) && Candidate(c, i) == m;
      OffsetFacts(i);
      SelectionMeaning(c, width, height, sel, i);
    } else if InGrid(m, width, height) && SelectedCoord(sel, c, m) {
      var i := CandidateIndex(c, m);
      SelectionMeaning(c, width, height, sel, i);
      assert Keeps(c, width, height, i) && Selected(sel, i);
      assert false;
    }
  }

  /** A neighbour is an in-grid cell of the 3-by-3 window other than the cell. */
  lemma NeighbourMembers(c: Coord, width: int, height: int)
    ensures forall m :: m in Neighbours(c, width, height) <==> InGrid(m, width, height) && Near(m, c)
    ensures forall m :: m in Orthogonals(c, width, height) <==> InGrid(m, width, height) && Orthogonal(m, c)
    ensures forall m :: m in Diagonals(c, width, height) <==> InGrid(m, width, height) && Diagonal(m, c)
  {
    forall m ensures m in Neighbours(c, width, height) <==> InGrid(m, width, height) && Near(m, c) {
      ScanGeometry(c, width, height, AllNeighbours, m);
    }
    forall m ensures m in Orthogonals(c, width, height) <==> InGrid(m, width, height) && Orthogonal(m, c) {
      ScanGeometry(c, width, height, OrthogonalOnly, m);
    }
    forall m ensures m in Diagonals(c, width, height) <==> InGrid(m, width, height) && Diagonal(m, c) {
      ScanGeometry(c, width, height, DiagonalOnly, m);
    }
  }

  /** An orthogonal neighbour differs in exactly one axis by one; a diagonal one in both. */
  lemma NeighbourClasses(c: Coord, width: int, height: int, m: Coord)
    ensures m in Orthogonals(c, width, height) <==> InGrid(m, width, height) && Manhattan(m, c) == 1
    ensures m in Diagonals(c, width, height) <==>
            InGrid(m, width, height) && (m.x - c.x == 1 || c.x - m.x == 1) && (m.y - c.y == 1 || c.y - m.y == 1)
    ensures m in Neighbours(c, width, height) <==>
            m in Orthogonals(c, width, height) || m in Diagonals(c, width, height)
    ensures !(m in Orthogonals(c, width, height) && m in Diagonals(c, width, height))
  {
    NeighbourMembers(c, width, height);
  }

  /** The neighbour relation is symmetric, and so are its two classes. */
  lemma NeighbourSymmetric(a: Coord, b: Coord, width: int, height: int)
    requires InGrid(a, width, height) && InGrid(b, width, height)
    ensures b in Neighbours(a, width, height) <==> a in Neighbours(b, width, height)
    ensures b in Orthogonals(a, width, height) <==> a in Orthogonals(b, width, height)
    ensures b in Diagonals(a, width, height) <==> a in Diagonals(b, width, height)
  {
    NeighbourMembers(a, width, height);
    NeighbourMembers(b, width, height);
  }

  function Pick(c: Coord, width: int, height: int, sel: Selection, i: nat): seq<Coord>
    requires i < 9
  {
    if Keeps(c, width, height, i) && Selected(sel, i) then [Candidate(c, i)] else []
  }

  /** The nine rounds of the scan written out. */
  lemma ScanNine(c: Coord, width: int, height: int, sel: Selection)
    ensures Scan(c, width, height, sel, 9) ==
      Pick(c, width, height, sel, 0) + Pick(c, width, height, sel, 1) + Pick(c, width, height, sel, 2)
      + Pick(c, width, height, sel, 3) + Pick(c, width, height, sel, 4) + Pick(c, width, height, sel, 5)
      + Pick(c, width, height, sel, 6) + Pick(c, width, height, sel, 7) + Pick(c, width, height, sel, 8)
  {
    assert Scan(c, width, height, sel, 1) == Pick(c, width, height, sel, 0);
    assert Scan(c, width, height, sel, 2) == Scan(c, width, height, sel, 1) + Pick(c, width, height, sel, 1);
    assert Scan(c, width, height, sel, 3) == Scan(c, width, height, sel, 2) + Pick(c, width, height, sel, 2);
    assert Scan(c, width, height, sel, 4) == Scan(c, width, height, sel, 3) + Pick(c, width, height, sel, 3);
    assert Scan(c, width, height, sel, 5) == Scan(c, width, height, sel, 4) + Pick(c, width, height, sel, 4);
    assert Scan(c, width, height, sel, 6) == Scan(c, width, height, sel, 5) + Pick(c, width, height, sel, 5);
    assert Scan(c, width, height, sel, 7) == Scan(c, width, height, sel, 6) + Pick(c, width, height, sel, 6);
    assert Scan(c, width, height, sel, 8) == Scan(c, width, height, sel, 7) + Pick(c, width, height, sel, 7);
  }

  /** How many of the nine offsets a scan keeps. */
  lemma ScanLength(c: Coord, width: int, height: int, sel: Selection)
    ensures |Scan(c, width, height, sel, 9)| ==
      |Pick(c, width, height, sel, 0)| + |Pick(c, width, height, sel, 1)| + |Pick(c, width, height, sel, 2)|
      + |Pick(c, width, height, sel, 3)| + |Pick(c, width, height, sel, 5)|
      + |Pick(c, width, height, sel, 6)| + |Pick(c, width, height, sel, 7)| + |Pick(c, width, height, sel, 8)|
  {
    ScanNine(c, width, height, sel);
    assert !Keeps(c, width, height, 4);
  }

  /** The neighbours split into the orthogonal and the diagonal ones, at most four of each. */
  lemma NeighbourCounts(c: Coord, width: int, height: int)
    ensures |Neighbours(c, width, height)| == |Orthogonals(c, width, height)| + |Diagonals(c, width, height)|
    ensures |Orthogonals(c, width, height)| <= 4 && |Diagonals(c, width, height)| <= 4
    ensures NoDups(Neighbours(c, width, height)) && NoDups(Orthogonals(c, width, height))
    ensures NoDups(Diagonals(c, width, height))
  {
    ScanLength(c, width, height, AllNeighbours);
    ScanLength(c, width, height, OrthogonalOnly);
    ScanLength(c, width, height, DiagonalOnly);
    ScanNoDups(c, width, height, AllNeighbours, 9);
    ScanNoDups(c, width, height, OrthogonalOnly, 9);
    ScanNoDups(c, width, height, DiagonalOnly, 9);
  }

  predicate OnBorder(c: Coord, width: int, height: int) {
    c.x == 0 || c.x == width - 1 || c.y == 0 || c.y == height - 1
  }

  /** A cell has fewer than eight neighbours exactly when it lies on the border. */
  lemma EdgeIffBorder(c: Coord, width: int, height: int)
    requires InGrid(c, width, height)
    ensures |Neighbours(c, width, height)| < 8 <==> OnBorder(c, width, height)
  {
    ScanLength(c, width, height, AllNeighbours);
    forall i: nat | i < 9 ensures Cols[i] == i % 3 - 1 && Rows[i] == i / 3 - 1 {
      OffsetFacts(i);
    }
  }

  /** On a grid at least two by two, one diagonal neighbour means one of the four corners. */
  lemma CornerIffCorner(c: Coord, width: int, height: int)
    requires InGrid(c, width, height) && width >= 2 && height >= 2
    ensures |Diagonals(c, width, height)| == 1 <==>
            (c.x == 0 || c.x == width - 1) && (c.y == 0 || c.y == height - 1)
  {
    ScanLength(c, width, height, DiagonalOnly);
    forall i: nat | i < 9 ensures Cols[i] == i % 3 - 1 && Rows[i] == i / 3 - 1 {
      OffsetFacts(i);
    }
  }

  function OffGridAt(c: Coord, width: int, height: int, i: nat): nat
    requires i < 9
  {
    if InGrid(Candidate(c, i), width, height) then 0 else 1
  }

  /** How many of the eight window positions around `c` fall off the grid. */
  function OffGrid(c: Coord, width: int, height: int): nat {
    OffGridAt(c, width, height, 0) + OffGridAt(c, width, height, 1) + OffGridAt(c, width, height, 2)
    + OffGridAt(c, width, height, 3) + OffGridAt(c, width, height, 5) + OffGridAt(c, width, height, 6)
    + OffGridAt(c, width, height, 7) + OffGridAt(c, width, height, 8)
  }

  /** `8 - neighbours` is the number of window positions that fall off the grid. */
  lemma OffGridCount(c: Coord, width: int, height: int)
    ensures |Neighbours(c, width, height)| + OffGrid(c, width, height) == 8
  {
    ScanLength(c, width, height, AllNeighbours);
    PickOrOff(c, width, height, 0);
    PickOrOff(c, width, height, 1);
    PickOrOff(c, width, height, 2);
    PickOrOff(c, width, height, 3);
    PickOrOff(c, width, height, 5);
    PickOrOff(c, width, height, 6);
    PickOrOff(c, width, height, 7);
    PickOrOff(c, width, height, 8);
  }

  /** A window position other than the centre is either a neighbour or off the grid. */
  lemma PickOrOff(c: Coord, width: int, height: int, i: nat)
    requires i < 9 && i != 4
    ensures |Pick(c, width, height, AllNeighbours, i)| + OffGridAt(c, width, height, i) == 1
  {
    OffsetFacts(i);
  }
}
