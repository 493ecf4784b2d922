/**
 * Linear cell indices (`IndexToVector2`, `Vector2ToIndex`) and the compressed
 * form of a map (`GetCompressedMap`): the wall and tank coordinates as
 * indices, in placement order. Replaying a compressed map is the
 * `MapGrid(CompressedMapGrid)` constructor, in module `Grid`.
 */
module Compression {
  import opened Lists
  import opened Square
  import opened Bookkeeping

  /** C#'s integer `/`: truncates toward zero, unlike Dafny's Euclidean `/`. */
  function TruncDiv(a: int, d: int): int
    requires d > 0
  {
    if a >= 0 then a / d else -((-a) / d)
  }

  /** `IndexToVector2`: `(index % width, index / width)` with C#'s truncating operators. */
  function IndexToVector2(width: int, index: int): (c: Coord)
    requires width > 0
    ensures index >= 0 ==> 0 <= c.x < width && c.y >= 0
  {
    var q := TruncDiv(index, width);
    Coord(index - q * width, q)
  }

  /** `Vector2ToIndex`: the row-major index of a cell. */
  function Vector2ToIndex(width: int, c: Coord): int {
    c.x + c.y * width
  }

  /** Every index, negative ones included, survives the trip through a coordinate. */
  lemma IndexRoundTrip(width: int, index: int)
    requires width > 0
    ensures Vector2ToIndex(width, IndexToVector2(width, index)) == index
  {
  }

  /** A positive multiple of `d` is at least `d`. */
  lemma {:induction false} MulAtLeast(t: int, d: int)
    requires t >= 1 && d > 0
    ensures t * d >= d
  {
    if t > 1 {
      MulAtLeast(t - 1, d);
      assert t * d == (t - 1) * d + d;
    }
  }

  /** Quotient and remainder are unique. */
  lemma DivUnique(a: int, d: int, q: int, r: int)
    requires d > 0 && 0 <= r < d && a == q * d + r
    ensures a / d == q && a % d == r
  {
    var q', r' := a / d, a % d;
    assert a == q' * d + r' && 0 <= r' < d;
    assert (q - q') * d == r' - r;
    if q > q' {
      MulAtLeast(q - q', d);
    } else if q < q' {
      MulAtLeast(q' - q, d);
    }
  }

  /** A coordinate in a column of the grid and a row at or below the first survives the trip through its index. */
  lemma CoordRoundTrip(width: int, c: Coord)
    requires width > 0 && 0 <= c.x < width && c.y >= 0
    ensures IndexToVector2(width, Vector2ToIndex(width, c)) == c
  {
    DivUnique(c.x + c.y * width, width, c.y, c.x);
  }

  /** The index of an in-grid cell lies in `[0, width * height)`. */
  lemma IndexInRange(width: int, height: int, c: Coord)
    requires InGrid(c, width, height)
    ensures 0 <= Vector2ToIndex(width, c) < width * height
  {
    assert c.y * width <= (height - 1) * width;
  }

  /** `CompressedMapGrid` without the tank-type codes. */
  datatype CompressedMap = CompressedMap(width: int, height: int, wallArray: seq<int>, tankArray: seq<int>)

  /** `GetCompressedMap`: walls and tanks as indices, in list order. */
  function GetCompressedMap(b: Board): CompressedMap {
    CompressedMap(b.width, b.height,
      MapSeq(b.walls, c => Vector2ToIndex(b.width, c)),
      MapSeq(b.tanks, c => Vector2ToIndex(b.width, c)))
  }

  /**
   * The coordinates an index array stands for. A grid without columns has no
   * cells to stand for: its arrays are empty (`Replayable`), and nothing is
   * divided by its width.
   */
  function Decode(width: int, indices: seq<int>): (cs: seq<Coord>)
  {
    if width > 0 then MapSeq(indices, i => IndexToVector2(width, i)) else []
  }

  /**
   * An index array that a map can be rebuilt from: every index names a cell
   * of the grid and none is repeated.
   */
  predicate IndicesOk(width: int, height: int, indices: seq<int>) {
    NoDups(indices) && forall i :: i in indices ==> 0 <= i < width * height
  }

  /**
   * A compressed map that replays onto a grid: an extent the grid can be
   * allocated with, good indices, no cell both wall and tank. A grid with no
   * cells has empty arrays.
   */
  predicate Replayable(m: CompressedMap) {
    && m.width >= 0 && m.height >= 0
    && (m.width == 0 ==> m.wallArray == [] && m.tankArray == [])
    && IndicesOk(m.width, m.height, m.wallArray)
    && IndicesOk(m.width, m.height, m.tankArray)
    && forall i :: i in m.wallArray ==> i !in m.tankArray
  }

  /** A valid index decodes to a cell of the grid. */
  lemma DecodeInGrid(width: int, height: int, index: int)
    requires width > 0 && 0 <= index < width * height
    ensures InGrid(IndexToVector2(width, index), width, height)
  {
    IndexRoundTrip(width, index);
  }

  /** Distinct valid indices decode to distinct cells. */
  lemma DecodeInjective(width: int, i: int, j: int)
    requires width > 0 && i != j
    ensures IndexToVector2(width, i) != IndexToVector2(width, j)
  {
    IndexRoundTrip(width, i);
    IndexRoundTrip(width, j);
  }

  lemma EncodeDecode(width: int, height: int, cs: seq<Coord>)
    requires width > 0 && forall c :: c in cs ==> InGrid(c, width, height)
    ensures Decode(width, MapSeq(cs, c => Vector2ToIndex(width, c))) == cs
  {
    var r := Decode(width, MapSeq(cs, c => Vector2ToIndex(width, c)));
    forall i | 0 <= i < |cs| ensures r[i] == cs[i] {
      assert cs[i] in cs;
      CoordRoundTrip(width, cs[i]);
    }
  }

  lemma EncodeOk(width: int, height: int, cs: seq<Coord>)
    requires width > 0 && NoDups(cs) && forall c :: c in cs ==> InGrid(c, width, height)
    ensures IndicesOk(width, height, MapSeq(cs, c => Vector2ToIndex(width, c)))
  {
    var ix := MapSeq(cs, c => Vector2ToIndex(width, c));
    forall i | i in ix ensures 0 <= i < width * height {
      var k :| 0 <= k < |cs| && ix[k] == i;
      IndexInRange(width, height, cs[k]);
    }
    forall p, q | 0 <= p < q < |ix| ensures ix[p] != ix[q] {
      assert cs[p] in cs && cs[q] in cs;
      CoordRoundTrip(width, cs[p]);
      CoordRoundTrip(width, cs[q]);
    }
  }

  /** The first cell of a list of grid cells is a grid cell: a grid without columns lists none. */
  lemma FirstInGrid(s: seq<Coord>, width: int, height: int)
    requires forall c :: c in s ==> InGrid(c, width, height)
    ensures |s| > 0 ==> InGrid(s[0], width, height)
  {
    if |s| > 0 {
      assert s[0] in s;
    }
  }

  /**
   * Compression loses nothing: the compressed map of a consistent grid can be
   * replayed, and its arrays decode to `wallCoordList` and `tankCoordList`
   * exactly, in order.
   */
  lemma CompressedRoundTrip(b: Board)
    requires Inv(b)
    ensures var m := GetCompressedMap(b);
      && Replayable(m)
      && Decode(m.width, m.wallArray) == b.walls
      && Decode(m.width, m.tankArray) == b.tanks
  {
    var m := GetCompressedMap(b);
    forall c | c in b.walls || c in b.tanks ensures InGrid(c, b.width, b.height) {
      assert c in b.cells;
    }
    if b.width == 0 {
      // No cell of the grid has a column, so no cell is a wall or a tank.
      FirstInGrid(b.walls, b.width, b.height);
      FirstInGrid(b.tanks, b.width, b.height);
      return;
    }
    EncodeDecode(b.width, b.height, b.walls);
    EncodeDecode(b.width, b.height, b.tanks);
    EncodeOk(b.width, b.height, b.walls);
    EncodeOk(b.width, b.height, b.tanks);
    forall i | i in m.wallArray ensures i !in m.tankArray {
      var p :| 0 <= p < |b.walls| && m.wallArray[p] == i;
      assert b.walls[p] in b.walls;
      CoordRoundTrip(b.width, b.walls[p]);
    }
  }

  // ---------------------------------------------------------------------
  // Replaying a compressed map, one `AddWall` or `AddTank` at a time.

  lemma DecodePrefix(width: int, a: seq<int>, i: nat)
    requires width > 0 && i < |a|
    ensures Decode(width, a[..i + 1]) == Decode(width, a[..i]) + [IndexToVector2(width, a[i])]
  {
  }

  /** The cell of a later index is not among the cells already replayed. */
  lemma NotYetReplayed(width: int, a: seq<int>, i: nat, j: nat)
    requires width > 0 && NoDups(a) && i <= j < |a|
    ensures IndexToVector2(width, a[j]) !in Decode(width, a[..i])
  {
    forall k | 0 <= k < i ensures Decode(width, a[..i])[k] != IndexToVector2(width, a[j]) {
      DecodeInjective(width, a[k], a[j]);
    }
  }

  /** The next wall of the array lands on an open path cell, and the grid stays consistent. */
  lemma ReplayWallStep(b: Board, a: seq<int>, i: nat)
    requires Inv(b) && b.tanks == [] && b.width > 0 && i < |a| && IndicesOk(b.width, b.height, a)
    requires b.walls == Decode(b.width, a[..i])
    ensures var c := IndexToVector2(b.width, a[i]);
      && Open(b, c) && Inv(AddWall(b, c)) && AddWall(b, c).tanks == []
      && AddWall(b, c).walls == Decode(b.width, a[..i + 1])
  {
    var c := IndexToVector2(b.width, a[i]);
    assert a[i] in a;
    DecodeInGrid(b.width, b.height, a[i]);
    NotYetReplayed(b.width, a, i, i);
    assert c in b.cells && c !in b.walls && c !in b.tanks;
    AddWallInv(b, c);
    DecodePrefix(b.width, a, i);
  }

  /** The next tank of the array lands on an open path cell: not a wall, not an earlier tank. */
  lemma ReplayTankOpen(b: Board, m: CompressedMap, i: nat)
    requires Inv(b) && Replayable(m) && b.width == m.width && b.height == m.height && i < |m.tankArray|
    requires b.walls == Decode(m.width, m.wallArray) && b.tanks == Decode(m.width, m.tankArray[..i])
    ensures Open(b, IndexToVector2(m.width, m.tankArray[i]))
  {
    var t := m.tankArray[i];
    var c := IndexToVector2(m.width, t);
    assert t in m.tankArray;
    DecodeInGrid(m.width, m.height, t);
    NotYetReplayed(m.width, m.tankArray, i, i);
    forall k | 0 <= k < |b.walls| ensures b.walls[k] != c {
      assert m.wallArray[k] in m.wallArray;
      DecodeInjective(m.width, m.wallArray[k], t);
    }
    assert c in b.cells && c !in b.walls && c !in b.tanks;
  }

  /** The first `i` tanks of `m` have been replayed onto a consistent grid that holds all of `m`'s walls. */
  ghost predicate TanksReplayed(b: Board, m: CompressedMap, i: nat) {
    && Replayable(m) && i <= |m.tankArray| && b.width == m.width && b.height == m.height
    && Inv(b) && PlayerFirst(b)
    && b.walls == Decode(m.width, m.wallArray) && b.tanks == Decode(m.width, m.tankArray[..i])
  }

  lemma TanksReplayedStart(b: Board, m: CompressedMap)
    requires Replayable(m) && b.width == m.width && b.height == m.height
    requires Inv(b) && b.tanks == [] && b.walls == Decode(m.width, m.wallArray)
    ensures TanksReplayed(b, m, 0)
  {
  }

  /** Replaying the next tank keeps the grid consistent and the player first. */
  lemma ReplayTankStep(b: Board, m: CompressedMap, i: nat)
    requires TanksReplayed(b, m, i) && i < |m.tankArray|
    ensures var c := IndexToVector2(m.width, m.tankArray[i]);
      Open(b, c) && TanksReplayed(AddTank(b, c), m, i + 1)
  {
    var c := IndexToVector2(m.width, m.tankArray[i]);
    ReplayTankOpen(b, m, i);
    AddTankInv(b, c);
    DecodePrefix(m.width, m.tankArray, i);
  }

  lemma TanksReplayedDone(b: Board, m: CompressedMap)
    requires TanksReplayed(b, m, |m.tankArray|)
    ensures Inv(b) && PlayerFirst(b)
    ensures b.walls == Decode(m.width, m.wallArray) && b.tanks == Decode(m.width, m.tankArray)
  {
    assert m.tankArray[..|m.tankArray|] == m.tankArray;
  }

  /**
   * The wall and tank lists fix every cell's type: a wall is listed in
   * `wallCoordList`, the player first in `tankCoordList`, the other tanks
   * after it, and every other cell is a path cell. So a map rebuilt with the
   * same lists has the same cell types.
   */
  lemma KindsFromLists(b1: Board, b2: Board, k: Coord)
    requires ListsMatch(b1.cells, b1.walls, b1.paths) && TanksMatch(b1.cells, b1.tanks)
    requires ListsMatch(b2.cells, b2.walls, b2.paths) && TanksMatch(b2.cells, b2.tanks)
    requires b1.walls == b2.walls && b1.tanks == b2.tanks && k in b1.cells && k in b2.cells
    ensures b1.cells[k].kind == b2.cells[k].kind
  {
    if k in b1.tanks {
      var i :| 0 <= i < |b1.tanks| && b1.tanks[i] == k;
      if i > 0 {
        assert b1.cells[b1.tanks[i]].kind == Tank && b2.cells[b2.tanks[i]].kind == Tank;
      }
    }
  }

  /**
   * Compressing a consistent grid and replaying the result gives the grid
   * back: any consistent grid of the same size whose lists are the decoded
   * arrays (which is what the `CompressedMapGrid` constructor builds) has the
   * same cells, wall list, tank list and cell types as the original.
   */
  lemma CompressThenRebuild(b: Board, r: Board)
    requires Inv(b)
    requires Inv(r) && r.width == b.width && r.height == b.height
    requires r.walls == Decode(b.width, GetCompressedMap(b).wallArray)
    requires r.tanks == Decode(b.width, GetCompressedMap(b).tankArray)
    ensures r.walls == b.walls && r.tanks == b.tanks && r.cells.Keys == b.cells.Keys
    ensures forall k :: k in b.cells ==> r.cells[k].kind == b.cells[k].kind
  {
    CompressedRoundTrip(b);
    forall k | k in b.cells ensures r.cells[k].kind == b.cells[k].kind {
      KindsFromLists(r, b, k);
    }
  }
}
