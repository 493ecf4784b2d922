/**
 * What wall and tank generation keep true from one placement to the next.
 * A rejected wall is undone and tagged with the check that failed; a retried
 * neighbour is put back whatever the verdict; a rejected tank is undone.
 * Each of these steps is a function on `Board` here, and the lemmas say which
 * invariant it keeps and what it leaves changed.
 */
module Generation {
  import opened Lists
  import opened Square
  import opened Reach
  import opened Bookkeeping
  import opened Checks
  import opened Connectivity
  import opened Verdicts

  // ---------------------------------------------------------------------
  // Invariants.

  /** The consistent bookkeeping, connected path cells and the chunk-counter bound. */
  ghost predicate MapInv(b: Board) {
    && Inv(b) && Connected(b)
    && (b.walls != [] ==> b.chunks <= b.maxChunks)
  }

  /** `validLocations` is exactly the non-wall cells that carry no failed-check tag. */
  ghost predicate ValidTags(b: Board) {
    forall k :: k in b.cells && b.cells[k].kind != Wall ==> (k in b.valid <==> b.cells[k].failed == NoneFailed)
  }

  /** The invariant of the wall phase: no tanks yet. */
  ghost predicate GenInv(b: Board) {
    MapInv(b) && b.tanks == [] && ValidTags(b)
  }

  /** A grid as `EmptyGrid` leaves it, as far as the wall phase is concerned. */
  ghost predicate Pristine(b: Board) {
    && Inv(b) && b.walls == [] && b.tanks == [] && b.chunks == 0
    && forall k :: k in b.cells ==> b.cells[k].failed == NoneFailed
  }

  /** No two tanks within 2.5 of each other, no enemy within 7 of the player. */
  ghost predicate TanksSpaced(b: Board) {
    && (forall i, j :: 0 <= i < |b.tanks| && 0 <= j < |b.tanks| && i != j ==> Dist2(b.tanks[i], b.tanks[j]) >= 7)
    && (forall i :: 0 < i < |b.tanks| ==> Dist2(b.tanks[i], b.tanks[0]) > 49)
  }

  /** `validTankLocations` holds distinct open path cells. */
  ghost predicate ValidTanksOk(b: Board) {
    NoDups(b.validTanks) && forall v :: v in b.validTanks ==> Open(b, v)
  }

  /** The invariant of the tank phase. */
  ghost predicate TankInv(b: Board) {
    MapInv(b) && PlayerFirst(b) && TanksSpaced(b) && ValidTanksOk(b)
  }

  // ---------------------------------------------------------------------
  // The steps of the wall phase.

  /** Sets the failed-check tag of cell `c`. */
  function Tag(b: Board, c: Coord, f: FailedCheck): Board
    requires c in b.cells
  {
    b.(cells := TagCells(b.cells, c, f))
  }

  /** What `PassedWallDuringChecks` leaves when check `k` rejects the wall at `c`. */
  function Reject(b: Board, c: Coord, k: nat): Board
    requires c in b.cells && k < 9
  {
    var r := RemoveWall(b, c);
    Tag(r.(valid := RemoveFirst(r.valid, c)), c, CheckAt(k))
  }

  /** The tag a verdict leaves: the failing check, or none. */
  function TagFor(v: Verdict): FailedCheck {
    match v
    case FailsAt(k) => if k < 9 then CheckAt(k) else NoneFailed
    case _ => NoneFailed
  }

  /**
   * The tag `ValidateLocations(c)` leaves on cell `k`: a tagged path neighbour
   * of `c` is judged again as a wall on the grid as it stood, the others keep
   * theirs.
   */
  ghost function Retried(b: Board, c: Coord, k: Coord): FailedCheck
    requires c in b.cells && k in b.cells
  {
    if k in b.cells[c].pathNeighbours && b.cells[k].failed != NoneFailed then TagFor(Battery(AddWall(b, k), k))
    else b.cells[k].failed
  }

  // ---------------------------------------------------------------------
  // Lemmas.

  /** A non-wall cell of a grid without tanks is a path cell. */
  lemma NoTanksOpen(b: Board, c: Coord)
    requires Inv(b) && b.tanks == [] && c in b.cells && b.cells[c].kind != Wall
    ensures Open(b, c)
  {
    assert c !in b.tanks;
  }

  /** The cells with the tag of `c` set to `f`. */
  function TagCells(cells: map<Coord, Square>, c: Coord, f: FailedCheck): (r: map<Coord, Square>)
    requires c in cells
    ensures r.Keys == cells.Keys
    ensures forall k :: k in r ==> r[k].(failed := NoneFailed) == cells[k].(failed := NoneFailed)
  {
    cells[c := cells[c].(failed := f)]
  }

  lemma TagShaped(width: int, height: int, cells: map<Coord, Square>, c: Coord, f: FailedCheck)
    requires CellsShaped(width, height, cells) && c in cells
    ensures CellsShaped(width, height, TagCells(cells, c, f))
  {
    var t := TagCells(cells, c, f);
    forall k | k in t ensures t[k].coord == k && Layout(k, t[k].neighbours, t[k].orthogonal, t[k].diagonal, width, height) {
      assert t[k].(failed := NoneFailed) == cells[k].(failed := NoneFailed);
    }
  }

  lemma TagNeighbours(cells: map<Coord, Square>, c: Coord, f: FailedCheck)
    requires NeighboursMatch(cells) && c in cells
    ensures NeighboursMatch(TagCells(cells, c, f))
  {
    var t := TagCells(cells, c, f);
    forall k | k in t ensures CellMatch(t, k) {
      assert CellMatch(cells, k);
      assert t[k].(failed := NoneFailed) == cells[k].(failed := NoneFailed);
    }
  }

  lemma TagKinds(cells: map<Coord, Square>, c: Coord, f: FailedCheck)
    requires c in cells
    ensures KindsAgree(cells, TagCells(cells, c, f))
  {
    var t := TagCells(cells, c, f);
    forall k | k in t ensures t[k].kind == cells[k].kind {
      assert t[k].(failed := NoneFailed) == cells[k].(failed := NoneFailed);
    }
  }

  lemma TagInv(b: Board, c: Coord, f: FailedCheck)
    requires Inv(b) && c in b.cells
    ensures Inv(Tag(b, c, f))
  {
    TagShaped(b.width, b.height, b.cells, c, f);
    TagNeighbours(b.cells, c, f);
    TagKinds(b.cells, c, f);
  }

  /** A tag is invisible to the invariant and to the layout. */
  lemma TagLayout(b: Board, c: Coord, f: FailedCheck)
    requires Inv(b) && c in b.cells
    ensures SameLayout(b, Tag(b, c, f))
  {
    TagInv(b, c, f);
    TagKinds(b.cells, c, f);
  }

  /** Tagging commutes with undoing the wall at the same cell. */
  lemma RemoveWallTag(b: Board, c: Coord, f: FailedCheck)
    requires c in b.cells && c !in b.cells[c].neighbours
    ensures RemoveWall(Tag(b, c, f), c) == Tag(RemoveWall(b, c), c, f)
  {
    var t := TagCells(b.cells, c, f);
    var lc, rc := RemoveWallCells(t, c), TagCells(RemoveWallCells(b.cells, c), c, f);
    assert t[c].neighbours == b.cells[c].neighbours;
    forall k | k in lc ensures lc[k] == rc[k] {
      assert lc[k] == Rekind(WallNeighbourUpdate(t, c, k, false), k == c, Path);
    }
    assert lc == rc;
  }

  /** The start of the wall phase: every path cell valid, no tag, one connected region. */
  lemma PristineGenInv(b: Board)
    requires Pristine(b)
    ensures GenInv(b.(valid := b.paths))
  {
    var g := b.(valid := b.paths);
    forall k | k in b.cells ensures k in b.paths {
      assert k !in b.walls;
    }
    EmptyConnected(g);
  }

  /** An accepted wall keeps the chunk counter within `maxChunks`. */
  lemma CommitChunks(b: Board, c: Coord)
    requires Inv(b) && Open(b, c) && Battery(AddWall(b, c), c) == AllHold
    requires b.walls != [] ==> b.chunks <= b.maxChunks
    ensures AddWall(b, c).chunks <= b.maxChunks
  {
    var a := AddWall(b, c);
    AddWallChunks(b, c);
    NeighbourFacts(b.width, b.height, b.cells, c);
    assert a.cells[c].wallNeighbours == b.cells[c].wallNeighbours;
    if |b.cells[c].wallNeighbours| == 0 {
      PassChunkBound(a, c);
    } else {
      assert CellMatch(b.cells, c);
      assert b.cells[c].wallNeighbours[0] in b.walls;
    }
  }

  /** Committing a wall keeps `validLocations` in step with the tags. */
  lemma CommitTags(b: Board, c: Coord)
    requires ValidTags(b) && NoDups(b.valid) && Open(b, c)
    ensures ValidTags(AddWall(b, c))
  {
    RemoveFirstMembers(b.valid, c);
  }

  /** A wall the battery accepts keeps the wall-phase invariant. */
  lemma CommitSpec(b: Board, c: Coord)
    requires GenInv(b) && c in b.valid && Battery(AddWall(b, c), c) == AllHold
    ensures GenInv(AddWall(b, c))
  {
    var a := AddWall(b, c);
    NoTanksOpen(b, c);
    AddWallInv(b, c);
    PassKeepsConnected(a, c);
    CommitChunks(b, c);
    CommitTags(b, c);
  }

  /** Undoing a wall and dropping it from `validLocations`: the valid list loses `c`, nothing else. */
  lemma UndoValid(b: Board, c: Coord)
    requires Inv(b) && Open(b, c)
    ensures var m := RemoveWall(AddWall(b, c), c);
      && RemoveFirst(m.valid, c) == RemoveFirst(b.valid, c)
      && SameLayout(b, m.(valid := RemoveFirst(m.valid, c)))
      && forall j :: j in b.cells ==> m.cells[j].failed == b.cells[j].failed
  {
    var m := RemoveWall(AddWall(b, c), c);
    AddThenRemoveWall(b, c);
    RemoveFirstMembers(b.valid, c);
    AppendThenRemove(RemoveFirst(b.valid, c), c);
    RemoveFirstMembers(m.valid, c);
  }

  /** The wall-phase invariant carries over to a state with the same layout and tags in step. */
  lemma GenInvLayout(b: Board, r: Board)
    requires GenInv(b) && SameLayout(b, r) && ValidTags(r)
    ensures GenInv(r)
  {
    ConnectedLayout(b, r);
  }

  /** Tagging one cell of a board with `b`'s layout keeps the layout and every other tag. */
  lemma TagAfter(b: Board, m: Board, c: Coord, f: FailedCheck)
    requires SameLayout(b, m) && c in m.cells
    ensures var t := Tag(m, c, f);
      && SameLayout(b, t) && t.valid == m.valid && t.cells[c].failed == f
      && forall j :: j in m.cells && j != c ==> t.cells[j].failed == m.cells[j].failed
  {
    TagLayoutFrom(b, m, c, f);
    TagFacts(m, c, f);
  }

  lemma TagFacts(m: Board, c: Coord, f: FailedCheck)
    requires c in m.cells
    ensures var t := Tag(m, c, f);
      && t.valid == m.valid && t.cells[c].failed == f
      && forall j :: j in m.cells && j != c ==> t.cells[j].failed == m.cells[j].failed
  {
  }

  lemma TagLayoutFrom(b: Board, m: Board, c: Coord, f: FailedCheck)
    requires SameLayout(b, m) && c in m.cells
    ensures SameLayout(b, Tag(m, c, f))
  {
    TagInv(m, c, f);
    TagKinds(m.cells, c, f);
  }

  lemma RejectLayout(b: Board, c: Coord, k: nat)
    requires Inv(b) && Open(b, c) && k < 9
    ensures var r := Reject(AddWall(b, c), c, k);
      && SameLayout(b, r)
      && r.valid == RemoveFirst(b.valid, c)
      && r.cells[c].failed == CheckAt(k)
      && forall j :: j in b.cells && j != c ==> r.cells[j].failed == b.cells[j].failed
  {
    var m := RemoveWall(AddWall(b, c), c);
    UndoValid(b, c);
    TagAfter(b, m.(valid := RemoveFirst(m.valid, c)), c, CheckAt(k));
  }

  lemma DropTags(b: Board, r: Board, c: Coord)
    requires ValidTags(b) && NoDups(b.valid) && KindsAgree(b.cells, r.cells)
    requires r.valid == RemoveFirst(b.valid, c) && c in r.cells && r.cells[c].failed != NoneFailed
    requires forall j :: j in b.cells && j != c ==> r.cells[j].failed == b.cells[j].failed
    ensures ValidTags(r)
  {
    RemoveFirstMembers(b.valid, c);
  }

  /** Appending a cell to `validLocations` while clearing its tag keeps the two in step. */
  lemma ClearTags(b: Board, r: Board, c: Coord)
    requires ValidTags(b) && KindsAgree(b.cells, r.cells)
    requires r.valid == b.valid + [c] && c in r.cells && r.cells[c].failed == NoneFailed
    requires forall j :: j in b.cells && j != c ==> r.cells[j].failed == b.cells[j].failed
    ensures ValidTags(r)
  {
  }

  /**
   * A wall that check `k` rejects leaves the layout as it was, drops the cell
   * from `validLocations`, tags it with check `k` and keeps the wall-phase
   * invariant. A cell already absent from `validLocations` stays absent.
   */
  lemma RejectSpec(b: Board, c: Coord, k: nat)
    requires GenInv(b) && Open(b, c) && k < 9
    ensures var r := Reject(AddWall(b, c), c, k);
      && GenInv(r) && SameLayout(b, r)
      && r.valid == RemoveFirst(b.valid, c)
      && r.cells[c].failed == CheckAt(k)
      && forall j :: j in b.cells && j != c ==> r.cells[j].failed == b.cells[j].failed
  {
    var r := Reject(AddWall(b, c), c, k);
    RejectLayout(b, c, k);
    DropTags(b, r, c);
    GenInvLayout(b, r);
  }

  /** Adding and undoing a wall at a cell outside `validLocations` puts it back at the end of that list. */
  lemma RetryUndone(b: Board, c: Coord)
    requires Inv(b) && Open(b, c) && c !in b.valid
    ensures var m := RemoveWall(AddWall(b, c), c);
      && SameLayout(b, m) && m.valid == b.valid + [c]
      && forall j :: j in b.cells ==> m.cells[j].failed == b.cells[j].failed
  {
    AddThenRemoveWall(b, c);
  }

  lemma RetryLayout(b: Board, c: Coord)
    requires Inv(b) && Open(b, c) && c !in b.valid
    ensures var r := RemoveWall(Tag(AddWall(b, c), c, NoneFailed), c);
      && SameLayout(b, r)
      && r.valid == b.valid + [c]
      && r.cells[c].failed == NoneFailed
      && forall j :: j in b.cells && j != c ==> r.cells[j].failed == b.cells[j].failed
  {
    var a := AddWall(b, c);
    NeighbourFacts(b.width, b.height, b.cells, c);
    RemoveWallTag(a, c, NoneFailed);
    RetryUndone(b, c);
    TagAfter(b, RemoveWall(a, c), c, NoneFailed);
  }

  /**
   * A retried cell that now passes is put back as a path cell with its tag
   * cleared and appended to `validLocations`; the layout is as before.
   */
  lemma RetryPass(b: Board, c: Coord)
    requires GenInv(b) && Open(b, c) && b.cells[c].failed != NoneFailed
    ensures var r := RemoveWall(Tag(AddWall(b, c), c, NoneFailed), c);
      && GenInv(r) && SameLayout(b, r)
      && r.valid == b.valid + [c]
      && r.cells[c].failed == NoneFailed
      && forall j :: j in b.cells && j != c ==> r.cells[j].failed == b.cells[j].failed
  {
    var r := RemoveWall(Tag(AddWall(b, c), c, NoneFailed), c);
    RetryLayout(b, c);
    ClearTags(b, r, c);
    GenInvLayout(b, r);
  }

  /** A cell judged on a grid with the same layout gets the same verdict. */
  lemma VerdictTransfer(b0: Board, b: Board, c: Coord)
    requires SameLayout(b0, b) && Open(b0, c)
    ensures Battery(AddWall(b, c), c) == Battery(AddWall(b0, c), c)
  {
    AddWallLayout(b0, b, c);
    BatteryLayout(AddWall(b0, c), AddWall(b, c), c);
  }

  /**
   * One round of the `foreach` in `ValidateLocations`: a tagged cell is added
   * as a wall and judged; if it passes, its tag is cleared and the wall
   * removed; if a check fails, `PassedWallDuringChecks` has undone it and
   * tagged it again. The exception case is the state the exception leaves.
   */
  function Revalidated(b: Board, loc: Coord): Board
    requires loc in b.cells
  {
    if b.cells[loc].failed == NoneFailed then b
    else
      var a := AddWall(b, loc);
      match Battery(a, loc)
      case AllHold => RemoveWall(Tag(a, loc, NoneFailed), loc)
      case FailsAt(k) => if k < 9 then Reject(a, loc, k) else a
      case Crash => a
  }

  lemma RevalidatePass(b0: Board, b: Board, loc: Coord)
    requires GenInv(b) && SameLayout(b0, b) && Open(b, loc) && b.cells[loc].failed != NoneFailed
    requires Battery(AddWall(b, loc), loc) == AllHold
    ensures var r := Revalidated(b, loc);
      && GenInv(r) && SameLayout(b0, r) && r.cells[loc].failed == NoneFailed
      && forall j :: j in b.cells && j != loc ==> r.cells[j].failed == b.cells[j].failed
  {
    RetryPass(b, loc);
    SameLayoutTrans(b0, b, Revalidated(b, loc));
  }

  lemma RevalidateReject(b0: Board, b: Board, loc: Coord, k: nat)
    requires GenInv(b) && SameLayout(b0, b) && Open(b, loc) && b.cells[loc].failed != NoneFailed
    requires Battery(AddWall(b, loc), loc) == FailsAt(k) && k < 9
    ensures var r := Revalidated(b, loc);
      && GenInv(r) && SameLayout(b0, r) && r.cells[loc].failed == CheckAt(k)
      && forall j :: j in b.cells && j != loc ==> r.cells[j].failed == b.cells[j].failed
  {
    RejectSpec(b, loc, k);
    SameLayoutTrans(b0, b, Revalidated(b, loc));
  }

  /**
   * A round of `ValidateLocations` that does not throw keeps the wall-phase
   * invariant and the layout; the retried cell's tag becomes the verdict
   * that the layout `b0` gives it, and no other tag changes.
   */
  lemma RevalidateSpec(b0: Board, b: Board, loc: Coord)
    requires GenInv(b) && SameLayout(b0, b) && loc in b.cells && b.cells[loc].kind != Wall
    requires b.cells[loc].failed != NoneFailed ==> Battery(AddWall(b, loc), loc) != Crash
    ensures var r := Revalidated(b, loc);
      && GenInv(r) && SameLayout(b0, r)
      && r.cells[loc].failed == (if b.cells[loc].failed != NoneFailed then TagFor(Battery(AddWall(b0, loc), loc))
                                 else b.cells[loc].failed)
      && forall j :: j in b.cells && j != loc ==> r.cells[j].failed == b.cells[j].failed
  {
    if b.cells[loc].failed != NoneFailed {
      NoTanksOpen(b, loc);
      assert Open(b0, loc);
      VerdictTransfer(b0, b, loc);
      match Battery(AddWall(b, loc), loc)
      case AllHold => RevalidatePass(b0, b, loc);
      case FailsAt(k) =>
        BatteryMeaning(AddWall(b, loc), loc);
        RevalidateReject(b0, b, loc, k);
    }
  }

  /** The tags after re-judging the first `i` cells of `list`: those re-judged carry `want`, the others their tag on `b0`. */
  ghost predicate TagsSoFar(b0: Board, want: Coord -> FailedCheck, list: seq<Coord>, i: nat, b: Board)
    requires i <= |list|
  {
    forall k :: k in b0.cells ==>
      k in b.cells && b.cells[k].failed == if k in list[..i] then want(k) else b0.cells[k].failed
  }

  /** `Retried` as a total function of the cell. */
  ghost function RetriedAt(b0: Board, c: Coord): Coord -> FailedCheck
    requires c in b0.cells
  {
    k => if k in b0.cells then Retried(b0, c, k) else NoneFailed
  }

  /**
   * `ValidateLocations(c)` after the first `i` cells of `list`, the path
   * neighbours of `c` on the grid `b0` it started from: invariant and layout
   * kept, the cells done so far re-judged, the others' tags untouched.
   */
  ghost predicate Retrying(b0: Board, c: Coord, list: seq<Coord>, i: nat, b: Board)
    requires c in b0.cells && i <= |list|
  {
    GenInv(b) && SameLayout(b0, b) && TagsSoFar(b0, RetriedAt(b0, c), list, i, b)
  }

  lemma RetryingStart(b: Board, c: Coord)
    requires GenInv(b) && c in b.cells
    ensures Retrying(b, c, b.cells[c].pathNeighbours, 0, b)
  {
  }

  /** The next cell of the list can be handed to `AddWall`, and whether it throws is decided on `b0`. */
  lemma RetryingNext(b0: Board, c: Coord, list: seq<Coord>, i: nat, b: Board)
    requires c in b0.cells && list == b0.cells[c].pathNeighbours && i < |list|
    requires Retrying(b0, c, list, i, b)
    ensures list[i] in b.cells && b.cells[list[i]].kind != Wall
    ensures CellsShaped(b.width, b.height, b.cells)
  {
    assert CellMatch(b0.cells, c);
    assert list[i] in list;
  }

  /** One more cell re-judged, all other tags kept. */
  lemma TagsStep(b0: Board, want: Coord -> FailedCheck, list: seq<Coord>, i: nat, b: Board, r: Board)
    requires i < |list| && list[i] in b0.cells && list[i] !in list[..i]
    requires TagsSoFar(b0, want, list, i, b)
    requires list[i] in r.cells && r.cells[list[i]].failed == want(list[i])
    requires forall j :: j in b.cells && j != list[i] ==> j in r.cells && r.cells[j].failed == b.cells[j].failed
    ensures TagsSoFar(b0, want, list, i + 1, r)
  {
    PrefixNext(list, i);
  }

  lemma RetryingStep(b0: Board, c: Coord, list: seq<Coord>, i: nat, b: Board)
    requires c in b0.cells && list == b0.cells[c].pathNeighbours && i < |list|
    requires Retrying(b0, c, list, i, b) && list[i] in b.cells && b.cells[list[i]].kind != Wall
    requires b.cells[list[i]].failed != NoneFailed ==> Battery(AddWall(b, list[i]), list[i]) != Crash
    ensures Retrying(b0, c, list, i + 1, Revalidated(b, list[i]))
  {
    var loc := list[i];
    assert CellMatch(b0.cells, c);
    assert NoDups(list) && loc !in list[..i];
    assert loc in list;
    assert b.cells[loc].failed == b0.cells[loc].failed;
    RevalidateSpec(b0, b, loc);
    TagsStep(b0, RetriedAt(b0, c), list, i, b, Revalidated(b, loc));
  }

  lemma TagsDone(b0: Board, want: Coord -> FailedCheck, list: seq<Coord>, b: Board)
    requires TagsSoFar(b0, want, list, |list|, b)
    ensures forall k :: k in b0.cells ==> k in b.cells && b.cells[k].failed == if k in list then want(k) else b0.cells[k].failed
  {
    assert list[..|list|] == list;
  }

  /** Once the whole list is done, every tag is the one `Retried` names. */
  lemma RetryingDone(b0: Board, c: Coord, list: seq<Coord>, b: Board)
    requires c in b0.cells && list == b0.cells[c].pathNeighbours && Retrying(b0, c, list, |list|, b)
    ensures GenInv(b) && SameLayout(b0, b)
    ensures forall k :: k in b0.cells ==> b.cells[k].failed == Retried(b0, c, k)
  {
    TagsDone(b0, RetriedAt(b0, c), list, b);
  }

  /** Every cell left in `v` was in `v0` and is not one of `locs`, which have all gone. */
  predicate Dropped(v0: seq<Coord>, locs: seq<Coord>, v: seq<Coord>) {
    && (forall x :: x in v ==> x in v0 && x !in locs)
    && |v| <= |v0| - |locs|
  }

  /** Dropping the last candidate. */
  lemma DroppedOne(v0: seq<Coord>, locs: seq<Coord>, l: Coord)
    requires NoDups(v0) && l in v0 && l in locs && RemoveFirst(locs, l) == []
    ensures Dropped(v0, locs, RemoveFirst(v0, l))
  {
    RemoveFirstMembers(v0, l);
    assert |locs| == 1 && locs[0] == l;
  }

  /** Dropping one candidate, then the rest. */
  lemma DroppedThen(v0: seq<Coord>, locs: seq<Coord>, l: Coord, v: seq<Coord>)
    requires NoDups(v0) && l in v0 && l in locs
    requires Dropped(RemoveFirst(v0, l), RemoveFirst(locs, l), v)
    ensures Dropped(v0, locs, v)
  {
    RemoveFirstMembers(v0, l);
    forall x | x in v ensures x !in locs {
      if x in locs {
        RemoveFirstMembersAny(locs, l, x);
      }
    }
  }

  /** The other candidates stay distinct and valid once `l` is dropped from both lists. */
  lemma RestValid(v0: seq<Coord>, locs: seq<Coord>, l: Coord)
    requires NoDups(v0) && NoDups(locs) && l in locs
    requires forall x :: x in locs ==> x in v0
    ensures NoDups(RemoveFirst(locs, l))
    ensures forall x :: x in RemoveFirst(locs, l) ==> x in RemoveFirst(v0, l)
  {
    RemoveFirstMembers(locs, l);
    RemoveFirstMembers(v0, l);
  }

  /** One candidate that passed the battery was committed, and the layout is the one it made. */
  ghost predicate Placed(b0: Board, locs: seq<Coord>, b: Board) {
    exists w :: && w in locs && w in b0.cells && b.walls == b0.walls + [w] && Battery(AddWall(b0, w), w) == AllHold
                && SameLayout(AddWall(b0, w), b)
  }

  /**
   * What the local `GenerateWall(locs)` achieves from `b0` when it does not
   * throw: the invariant holds and either one candidate that passed the
   * battery was committed, or every candidate failed a check of the battery
   * on `b0`, the layout is as before and all of them are gone from
   * `validLocations`.
   */
  ghost predicate WallPlaced(b0: Board, locs: seq<Coord>, b: Board) {
    && GenInv(b)
    && ( || Placed(b0, locs, b)
         || (&& SameLayout(b0, b) && Dropped(b0.valid, locs, b.valid)
             && forall v :: v in locs ==> v in b0.cells && Battery(AddWall(b0, v), v).FailsAt?))
  }

  /** A candidate from `validLocations` is an open path cell on a well-shaped grid, and so is it once walled. */
  lemma WallCandidate(b0: Board, l: Coord)
    requires GenInv(b0) && l in b0.valid
    ensures Open(b0, l) && CellsShaped(b0.width, b0.height, b0.cells)
    ensures CellsShaped(b0.width, b0.height, AddWall(b0, l).cells) && AddWall(b0, l).width == b0.width
  {
    NoTanksOpen(b0, l);
    AddWallInv(b0, l);
  }

  /** A rejected candidate leaves the invariant in force and the others still valid. */
  lemma RejectStep(b0: Board, locs: seq<Coord>, l: Coord, k: nat)
    requires GenInv(b0) && NoDups(locs) && l in locs && k < 9
    requires forall v :: v in locs ==> v in b0.valid
    requires l in b0.cells && Battery(AddWall(b0, l), l) == FailsAt(k)
    ensures Open(b0, l)
    ensures var r := Reject(AddWall(b0, l), l, k);
      var rest := RemoveFirst(locs, l);
      && GenInv(r) && NoDups(rest) && (forall v :: v in rest ==> v in r.valid)
      && (rest == [] ==> WallPlaced(b0, locs, r))
  {
    NoTanksOpen(b0, l);
    RejectSpec(b0, l, k);
    RestValid(b0.valid, locs, l);
    if RemoveFirst(locs, l) == [] {
      DroppedOne(b0.valid, locs, l);
    }
  }

  lemma PlacedThen(b0: Board, locs: seq<Coord>, l: Coord, r: Board, b: Board)
    requires SameLayout(b0, r) && l in locs
    requires forall v :: v in RemoveFirst(locs, l) ==> v in b0.valid
    requires GenInv(b0) && Placed(r, RemoveFirst(locs, l), b)
    ensures Placed(b0, locs, b)
  {
    var w :| && w in RemoveFirst(locs, l) && w in r.cells && b.walls == r.walls + [w] && Battery(AddWall(r, w), w) == AllHold
             && SameLayout(AddWall(r, w), b);
    RemoveFirstMembersAny(locs, l, w);
    NoTanksOpen(b0, w);
    VerdictTransfer(b0, r, w);
    AddWallLayout(b0, r, w);
    SameLayoutTrans(AddWall(b0, w), AddWall(r, w), b);
  }

  /** A candidate that failed, and others that failed on a grid of the same layout, all fail on `b0`. */
  lemma FailedThen(b0: Board, r: Board, locs: seq<Coord>, l: Coord)
    requires GenInv(b0) && SameLayout(b0, r) && l in locs
    requires forall v :: v in locs ==> v in b0.valid
    requires l in b0.cells && Battery(AddWall(b0, l), l).FailsAt?
    requires forall v :: v in RemoveFirst(locs, l) ==> v in r.cells && Battery(AddWall(r, v), v).FailsAt?
    ensures forall v :: v in locs ==> v in b0.cells && Battery(AddWall(b0, v), v).FailsAt?
  {
    forall v | v in locs ensures v in b0.cells && Battery(AddWall(b0, v), v).FailsAt? {
      if v != l {
        RemoveFirstMembersAny(locs, l, v);
        NoTanksOpen(b0, v);
        VerdictTransfer(b0, r, v);
      }
    }
  }

  /** A rejection followed by a placement from the remaining candidates is a placement from all of them. */
  lemma RejectThen(b0: Board, locs: seq<Coord>, l: Coord, k: nat, b: Board)
    requires GenInv(b0) && NoDups(locs) && l in locs && k < 9
    requires forall v :: v in locs ==> v in b0.valid
    requires l in b0.cells && Battery(AddWall(b0, l), l) == FailsAt(k)
    requires WallPlaced(Reject(AddWall(b0, l), l, k), RemoveFirst(locs, l), b)
    ensures WallPlaced(b0, locs, b)
  {
    NoTanksOpen(b0, l);
    var r := Reject(AddWall(b0, l), l, k);
    RejectSpec(b0, l, k);
    RestValid(b0.valid, locs, l);
    if Placed(r, RemoveFirst(locs, l), b) {
      PlacedThen(b0, locs, l, r, b);
    } else {
      SameLayoutTrans(b0, r, b);
      DroppedThen(b0.valid, locs, l, b.valid);
      FailedThen(b0, r, locs, l);
    }
  }

  /** A candidate that passed, committed and followed by a successful `ValidateLocations`, is a placement. */
  lemma CommitThen(b0: Board, locs: seq<Coord>, l: Coord, b: Board)
    requires l in locs && l in b0.cells && Battery(AddWall(b0, l), l) == AllHold
    requires GenInv(b) && SameLayout(AddWall(b0, l), b)
    ensures WallPlaced(b0, locs, b)
  {
  }

  /** `GenerateWall(locs)` commits a wall exactly when some candidate passes the battery. */
  lemma WallPlacedIff(b0: Board, locs: seq<Coord>, b: Board)
    requires WallPlaced(b0, locs, b)
    ensures Placed(b0, locs, b) <==> exists v :: v in locs && v in b0.cells && Battery(AddWall(b0, v), v) == AllHold
    ensures !Placed(b0, locs, b) ==> SameLayout(b0, b)
  {
  }

  /** `GenerateWall(validLocations)` either adds one wall or leaves no valid location. */
  lemma WallProgress(b0: Board, b: Board)
    requires WallPlaced(b0, b0.valid, b)
    ensures GenInv(b) && (|b.walls| == |b0.walls| + 1 || b.valid == [])
  {
  }

  // ---------------------------------------------------------------------
  // The tank phase.
  /** The start of the tank phase: every path cell is a candidate. */
  lemma TankPhaseStart(b: Board)
    requires MapInv(b) && b.tanks == []
    ensures TankInv(b.(validTanks := b.paths))
  {
    var g := b.(validTanks := b.paths);
    forall v | v in g.validTanks ensures Open(g, v) {
      NoTanksOpen(b, v);
    }
  }

  /** Changing the type of a non-wall cell to another non-wall type keeps the path cells connected. */
  lemma RetypeConnected(b: Board, r: Board, c: Coord, kind: Kind)
    requires Inv(b) && Connected(b) && c in b.cells
    requires r.cells == Retype(b.cells, c, kind) && r.paths == b.paths
    ensures Connected(r)
  {
    RetypeShaped(b.width, b.height, b.cells, c, kind);
    OrthAdjFixed(b.width, b.height, b.cells, r.cells);
  }

  /** The wall-side invariant does not look at the tank candidates or the player coordinate. */
  lemma MapInvIgnores(b: Board, v: seq<Coord>, p: Coord)
    requires MapInv(b)
    ensures MapInv(b.(validTanks := v, player := p))
  {
    var r := b.(validTanks := v, player := p);
    assert Connected(r) == Connected(b);
  }

  lemma Dist2Symmetric(a: Coord, b: Coord)
    ensures Dist2(a, b) == Dist2(b, a)
  {
  }

  /**
   * The first tank placed is always kept, and it is the player: it passes
   * both proximity checks, becomes `Type.player` and sets `playerRunTimeCoord`.
   */
  lemma FirstTankIsPlayer(b: Board, c: Coord)
    requires Open(b, c) && b.tanks == []
    ensures var a := AddTank(b, c);
      && a.tanks == [c] && a.player == c && a.cells[c].kind == Player
      && TankProxCheck(a, c) && PlayerProxCheck(a, c)
  {
  }

  /** The spacing of the tanks survives a tank that passes both checks. */
  lemma CommitSpacing(b: Board, c: Coord)
    requires c in b.cells && c !in b.tanks && PlayerFirst(b) && TanksSpaced(b)
    requires TankProxCheck(AddTank(b, c), c) && PlayerProxCheck(AddTank(b, c), c)
    ensures TanksSpaced(AddTank(b, c)) && PlayerFirst(AddTank(b, c))
  {
    var a := AddTank(b, c);
    forall i, j | 0 <= i < |a.tanks| && 0 <= j < |a.tanks| && i != j
      ensures Dist2(a.tanks[i], a.tanks[j]) >= 7
    {
      if i == |b.tanks| {
        assert a.tanks[j] in a.tanks;
      } else if j == |b.tanks| {
        assert a.tanks[i] in a.tanks;
        Dist2Symmetric(a.tanks[i], c);
      }
    }
  }

  /** Placing a tank keeps `validTankLocations` free of repeats and of occupied cells. */
  lemma CommitValidTanks(b: Board, c: Coord)
    requires ValidTanksOk(b) && Open(b, c)
    ensures ValidTanksOk(AddTank(b, c))
  {
    RemoveFirstMembers(b.validTanks, c);
  }

  lemma CommitMapInv(b: Board, c: Coord)
    requires MapInv(b) && Open(b, c)
    ensures MapInv(AddTank(b, c))
  {
    AddTankInv(b, c);
    RetypeConnected(b, AddTank(b, c), c, TankKind(|b.tanks| + 1));
  }

  /** A tank that passes both proximity checks keeps the tank-phase invariant. */
  lemma TankCommit(b: Board, c: Coord)
    requires TankInv(b) && c in b.validTanks
    requires TankProxCheck(AddTank(b, c), c) && PlayerProxCheck(AddTank(b, c), c)
    ensures TankInv(AddTank(b, c))
    ensures AddTank(b, c).walls == b.walls
  {
    CommitMapInv(b, c);
    assert c !in b.tanks;
    CommitSpacing(b, c);
    CommitValidTanks(b, c);
  }

  /**
   * A tank the checks reject is undone completely: the state is as before,
   * with the cell dropped from `validTankLocations`, except that a rejected
   * first tank would leave `playerRunTimeCoord` pointing at it.
   */
  lemma TankRejectRestores(b: Board, c: Coord)
    requires Open(b, c) && c !in b.tanks && NoDups(b.validTanks)
    ensures var r := RemoveTank(AddTank(b, c), c);
      r.(validTanks := RemoveFirst(r.validTanks, c))
        == b.(validTanks := RemoveFirst(b.validTanks, c), player := if b.tanks == [] then c else b.player)
  {
    var r := RemoveTank(AddTank(b, c), c);
    AppendThenRemove(b.tanks, c);
    RemoveFirstMembers(b.validTanks, c);
    AppendThenRemove(RemoveFirst(b.validTanks, c), c);
    assert r.cells == b.cells;
  }

  /** The tank invariant does not look at the order of `validTankLocations`, only at what it holds. */
  lemma TankInvIgnores(b: Board, v: seq<Coord>, p: Coord)
    requires TankInv(b) && NoDups(v) && (forall x :: x in v ==> x in b.validTanks)
    requires b.tanks != [] ==> p == b.player
    ensures TankInv(b.(validTanks := v, player := p))
  {
    MapInvIgnores(b, v, p);
  }

  /** What `PassedTankDuringChecks` leaves when a check rejects the tank at `c`. */
  function TankRejected(b: Board, c: Coord): Board
    requires c in b.cells
  {
    var r := RemoveTank(b, c);
    r.(validTanks := RemoveFirst(r.validTanks, c))
  }

  /** A tank the checks reject keeps the tank-phase invariant; tanks, walls and cells are as before. */
  lemma TankReject(b: Board, c: Coord)
    requires TankInv(b) && c in b.validTanks
    ensures var r := TankRejected(AddTank(b, c), c);
      && TankInv(r) && r.tanks == b.tanks && r.walls == b.walls && r.cells == b.cells
      && r.validTanks == RemoveFirst(b.validTanks, c)
  {
    assert c !in b.tanks;
    TankRejectRestores(b, c);
    RemoveFirstMembers(b.validTanks, c);
    TankInvIgnores(b, RemoveFirst(b.validTanks, c), if b.tanks == [] then c else b.player);
  }

  /**
   * The proximity checks look only at the tanks, the cell types and the
   * player coordinate; a rejection leaves all three as they were (a first
   * tank, which the player coordinate would follow, is never rejected).
   */
  lemma TankChecksAgree(b0: Board, b: Board, w: Coord)
    requires w in b0.cells && b.cells == b0.cells && b.tanks == b0.tanks
    requires b0.tanks != [] ==> b.player == b0.player
    ensures TankProxCheck(AddTank(b, w), w) == TankProxCheck(AddTank(b0, w), w)
    ensures PlayerProxCheck(AddTank(b, w), w) == PlayerProxCheck(AddTank(b0, w), w)
  {
  }

  /** One tank candidate that passed both proximity checks was placed. */
  ghost predicate TankAdded(b0: Board, locs: seq<Coord>, b: Board) {
    exists w :: && w in locs && w in b0.cells && b.tanks == b0.tanks + [w]
                && b.cells == AddTank(b0, w).cells && b.player == AddTank(b0, w).player
                && TankProxCheck(AddTank(b0, w), w) && PlayerProxCheck(AddTank(b0, w), w)
  }

  /**
   * What the local `GenerateTank(locs)` achieves from `b0`: the tank-phase
   * invariant holds, the walls are untouched, and either one candidate that
   * passed both checks was placed, or every candidate failed a check on
   * `b0`, the grid is as before and all of them are gone from
   * `validTankLocations`.
   */
  ghost predicate TankPlaced(b0: Board, locs: seq<Coord>, b: Board) {
    && TankInv(b) && b.walls == b0.walls && b.valid == b0.valid
    && ( || TankAdded(b0, locs, b)
         || (&& b.tanks == b0.tanks && b.cells == b0.cells && b.player == b0.player
             && Dropped(b0.validTanks, locs, b.validTanks)
             && forall v :: v in locs ==> v in b0.cells && !(TankProxCheck(AddTank(b0, v), v) && PlayerProxCheck(AddTank(b0, v), v))))
  }

  /** A rejected tank candidate leaves the invariant in force and the others still candidates. */
  lemma TankRejectStep(b0: Board, locs: seq<Coord>, l: Coord)
    requires TankInv(b0) && NoDups(locs) && l in locs
    requires forall v :: v in locs ==> v in b0.validTanks
    requires !(TankProxCheck(AddTank(b0, l), l) && PlayerProxCheck(AddTank(b0, l), l))
    ensures l in b0.cells
    ensures var r := TankRejected(AddTank(b0, l), l);
      var rest := RemoveFirst(locs, l);
      && TankInv(r) && NoDups(rest) && (forall v :: v in rest ==> v in r.validTanks)
      && r.tanks == b0.tanks && r.cells == b0.cells && r.walls == b0.walls && r.player == b0.player
      && r.valid == b0.valid && r.validTanks == RemoveFirst(b0.validTanks, l)
      && (rest == [] ==> TankPlaced(b0, locs, r))
  {
    TankReject(b0, l);
    if b0.tanks == [] {
      FirstTankIsPlayer(b0, l);
    }
    TankRejectRestores(b0, l);
    RestValid(b0.validTanks, locs, l);
    if RemoveFirst(locs, l) == [] {
      DroppedOne(b0.validTanks, locs, l);
    }
  }

  lemma TankAddedThen(b0: Board, locs: seq<Coord>, l: Coord, r: Board, b: Board)
    requires l in locs && r.tanks == b0.tanks && r.cells == b0.cells && r.player == b0.player
    requires TankAdded(r, RemoveFirst(locs, l), b)
    ensures TankAdded(b0, locs, b)
  {
    var w :| && w in RemoveFirst(locs, l) && w in r.cells && b.tanks == r.tanks + [w]
             && b.cells == AddTank(r, w).cells && b.player == AddTank(r, w).player
             && TankProxCheck(AddTank(r, w), w) && PlayerProxCheck(AddTank(r, w), w);
    RemoveFirstMembersAny(locs, l, w);
    TankChecksAgree(b0, r, w);
  }

  /**
   * A rejection (from `b0` to `r`: grid as before, the candidate gone from
   * `validTankLocations`) followed by a placement from the remaining
   * candidates is a placement from all of them.
   */
  lemma TankRejectThen(b0: Board, locs: seq<Coord>, l: Coord, r: Board, b: Board)
    requires NoDups(b0.validTanks) && l in b0.validTanks && l in locs
    requires && r.tanks == b0.tanks && r.cells == b0.cells && r.walls == b0.walls && r.valid == b0.valid
             && r.player == b0.player && r.validTanks == RemoveFirst(b0.validTanks, l)
    requires l in b0.cells && !(TankProxCheck(AddTank(b0, l), l) && PlayerProxCheck(AddTank(b0, l), l))
    requires TankPlaced(r, RemoveFirst(locs, l), b)
    ensures TankPlaced(b0, locs, b)
  {
    if TankAdded(r, RemoveFirst(locs, l), b) {
      TankAddedThen(b0, locs, l, r, b);
    } else {
      DroppedThen(b0.validTanks, locs, l, b.validTanks);
      forall v | v in locs
        ensures v in b0.cells && !(TankProxCheck(AddTank(b0, v), v) && PlayerProxCheck(AddTank(b0, v), v))
      {
        if v != l {
          RemoveFirstMembersAny(locs, l, v);
          TankChecksAgree(b0, r, v);
        }
      }
    }
  }

  /** A candidate that passed both checks is a placement. */
  lemma TankCommitThen(b0: Board, locs: seq<Coord>, l: Coord)
    requires TankInv(b0) && l in locs && l in b0.validTanks
    requires TankProxCheck(AddTank(b0, l), l) && PlayerProxCheck(AddTank(b0, l), l)
    ensures TankPlaced(b0, locs, AddTank(b0, l))
  {
    TankCommit(b0, l);
    assert TankAdded(b0, locs, AddTank(b0, l)) by {
      assert l in locs && l in b0.cells && AddTank(b0, l).tanks == b0.tanks + [l];
    }
  }

  /** `GenerateTank(locs)` places a tank exactly when some candidate passes both proximity checks. */
  lemma TankPlacedIff(b0: Board, locs: seq<Coord>, b: Board)
    requires TankPlaced(b0, locs, b)
    ensures b.tanks != b0.tanks <==>
      exists v :: v in locs && v in b0.cells && TankProxCheck(AddTank(b0, v), v) && PlayerProxCheck(AddTank(b0, v), v)
  {
  }

  /** `GenerateTank(validTankLocations)` either places one tank or leaves no candidate. */
  lemma TankProgress(b0: Board, b: Board)
    requires TankPlaced(b0, b0.validTanks, b)
    ensures TankInv(b) && b.walls == b0.walls && b.valid == b0.valid
    ensures |b.tanks| == |b0.tanks| + 1 || (b.tanks == b0.tanks && b.validTanks == [])
  {
  }
}
