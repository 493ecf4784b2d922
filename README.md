# CubeTanks level map, modelled in Dafny

CubeTanks builds each level on a rectangular grid of squares (`MapGridSquare`). Each square is a
path, a wall, an enemy tank or the player. It knows its in-grid neighbours, split into orthogonal
and diagonal ones, and it keeps separate lists of its wall neighbours and its path neighbours.

`MapGrid` owns the grid and does four jobs:

- **Live lists.** It keeps the lists of walls, paths and tanks, the candidate cells for walls
  (`validLocations`) and for tanks (`validTankLocations`), a count of wall chunks, and the
  player's run-time position.
- **Walls.** It places walls one at a time at random candidates. Each wall is tried against a
  battery of nine checks. A wall that fails a check is taken back and the cell is tagged with the
  check it failed. Once a wall is kept, its tagged path neighbours are judged again.
- **Tanks.** It places tanks one at a time. The first tank placed becomes the player. Each later
  tank must stay more than 2.5 cells from every other tank and more than 7 cells from the player.
- **Compression and paths.** It compresses a map to index arrays and rebuilds a map from them.
  At run time it answers path queries with a uniform-cost search over orthogonal path neighbours
  that avoids obstacles.

Each file of the model covers one part:

| file | part |
|---|---|
| `square.dfy` | a square, its neighbour lists and its predicates |
| `lists.dfy` | the `List<T>` operations the source relies on, mainly `Remove`, which drops the first occurrence |
| `bookkeeping.dfy` | the board state as a value (`Board`), its consistency invariant `Inv`, and the four primitive updates `AddWall`, `RemoveWall`, `AddTank` and `RemoveTank` |
| `reach.dfy` | flood fill as a least fixed point over sets |
| `connectivity.dfy` | flood fill applied to the grid |
| `checks.dfy` | the nine wall checks, the two tank checks, and the battery that runs them in order and stops at the first failure |
| `verdicts.dfy` | proof that the battery's verdict depends only on the layout, not on the order of the live lists |
| `generation.dfy` | the wall phase and the tank phase as specification functions and step lemmas |
| `compression.dfy` | the index conversions and the compressed map |
| `pathfinding.dfy` | the shortest-path search |
| `grid.dfy` | class `MapGrid`, whose methods change the fields in place |

Each method of `MapGrid` states its new state as `State() == F(old(State()), …)`, where `F` is one
of the specification functions. The lemmas about `F` carry the promises.

Three behaviours of the code, kept in the model:

- **Tanks remain path cells.** A tank cell stays in `pathCoordList`, because `AddTank` does not
  remove it. "Exactly one of the wall and path lists" therefore holds for walls against paths,
  not for tanks.
- **Crash on an empty path list.** `PathConnectivityCheck` reads `pathCoordList[0]`, so on an
  empty path list it throws. The model carries this as a `Crash` verdict. Every method of the wall
  phase (`Generate`, `GenerateWalls`, `GenerateWall`, `TryWall`, `PassedWallDuringChecks`,
  `ValidateLocations` and its per-cell step `Revalidate`) returns a `crashed` flag and proves that it is raised only when no path
  cell is left. The tank phase never reads `pathCoordList[0]`, so its methods have no such flag.
- **Field initialisers in the compressed constructor.** That constructor sets neither limit, so
  the limits keep their field initialisers: 8 wall neighbours and 5 chunks.

## Model

| member | source | states |
|---|---|---|
| Square.NewSquare | MapGridSquare.cs:30-65 | the constructor keeps the type and coordinate given, leaves no failed check and no wall neighbours, and makes every neighbour a path neighbour; the neighbour lists are the in-grid cells of the 3-by-3 window, scanned in offset order |
| Square.ShapedGeometry | MapGridSquare.cs:36-62 | a constructed square lists exactly its in-grid neighbours, each once, split into orthogonal and diagonal; at most 4 of each; fewer than 8 neighbours exactly on the border; one diagonal exactly at a corner on a grid at least 2 by 2 |
| Square.NeighbourClasses | MapGridSquare.cs:46-58 | the odd offsets give the cells at Manhattan distance 1 and the even offsets give the diagonal cells; together they make up the neighbour list, and no cell is both |
| Square.NeighbourSymmetric | MapGridSquare.cs:42-62 | being a neighbour, an orthogonal neighbour or a diagonal neighbour is symmetric between two in-grid cells |
| Square.NeighbourCounts | MapGridSquare.cs:42-62 | the neighbour count is the orthogonal count plus the diagonal count, each at most 4, with no repeats in any list |
| Square.EdgeIffBorder | MapGridSquare.cs:78-81 | `IsEdge` (fewer than 8 neighbours) holds exactly for cells on the grid border |
| Square.CornerIffCorner | MapGridSquare.cs:73-76 | `IsCorner` (one diagonal neighbour) holds exactly for the four corner cells of a grid at least 2 by 2 |
| Square.OffGridCount | MapGridSquare.cs:68-71 | in `HasMaxedWallNeighbours`, `8 - neighbour count` is the number of window positions that fall off the grid, so they are counted as walls |
| Square.Opposite | MapGridSquare.cs:83-86 | the result is the point reflection of the square's coordinate through `coord1` |
| Square.CheckAt | MapGrid.cs:930-952 | each of the nine battery positions names a failed-check tag other than `none` |
| Lists.RemoveFirst | MapGrid.cs:361 | `List.Remove` shortens the list by one when the element is present and leaves it unchanged otherwise |
| Lists.RemoveFirstMultiset | MapGrid.cs:361 | `List.Remove` takes exactly one copy of the element out of the list's multiset |
| Lists.RemoveFirstMembers | MapGrid.cs:370 | on a list without repeats, `Remove(x)` leaves exactly the other members, still without repeats |
| Lists.AppendThenRemove | MapGrid.cs:397 | removing an element just appended to a list that did not hold it gives back the list |
| Bookkeeping.AddWallInv | MapGrid.cs:357-371 | adding a wall at an open path cell keeps the grid consistent; the cell becomes a wall, is appended to the wall list and leaves the path list, and every neighbour moves it from its path list to its wall list; a new chunk is counted exactly when the cell had no wall neighbours |
| Bookkeeping.RemoveWallInv | MapGrid.cs:384-398 | removing a wall keeps the grid consistent; the cell becomes a path and is appended to the path list; the chunk count drops exactly when the cell had no wall neighbours |
| Bookkeeping.AddTankInv | MapGrid.cs:372-383 | adding a tank keeps the grid consistent and appends the cell to the tank list; the first tank becomes the player and moves the player position, and later ones become tanks |
| Bookkeeping.RemoveTankInv | MapGrid.cs:399-405 | removing the last tank keeps the grid consistent, drops it from the tank list and makes the cell a path again |
| Bookkeeping.AddThenRemoveWall | MapGrid.cs:357-398 | removing a wall just added restores the layout: types, wall list, chunk count and every wall-neighbour list; the path lists come back as multisets, and the cell moves to the end of `validLocations` |
| Checks.BatteryMeaning | MapGrid.cs:407-435 | the battery passes exactly when all nine checks hold; it fails at check `k` exactly when checks 0 to k-1 hold and check `k` fails; it crashes exactly when a check throws before any fails |
| Checks.BatteryStopsAt | MapGrid.cs:422-430 | the first check that does not hold decides the verdict, and the later checks are not run |
| Checks.CrashMeansNoPaths | MapGrid.cs:510-512 | the battery can throw only when the path list is empty |
| Checks.PassConnected | MapGrid.cs:497-516 | a passing wall leaves a non-empty path list that one flood fill from its first cell covers |
| Checks.PassChunkBound | MapGrid.cs:583-593 | a passing wall that starts a new chunk leaves the chunk count within `maxChunks` |
| Checks.PassNeighbourLimit | MapGrid.cs:493-496 | after a passing wall, no neighbour of it has more than `maxWallNeighbours` walls, counting off-grid positions as walls |
| Connectivity.PassKeepsConnected | MapGrid.cs:497-516 | after a passing wall, every path cell reaches every other path cell through orthogonal path steps, whichever cell the fill starts from |
| Connectivity.EmptyConnected | MapGrid.cs:185-200 | a grid whose cells are all paths is connected |
| Connectivity.ConnectedLayout | MapGrid.cs:497-516 | connectivity depends only on the layout |
| Reach.StartIndependent | MapGrid.cs:499-512 | over a symmetric adjacency, if one cell's flood fill covers the region then every cell's does |
| Verdicts.BatteryLayout | MapGrid.cs:407-435 | two boards with the same layout get the same verdict from the battery, whatever the order of their lists, tags and `validLocations` |
| Generation.CommitSpec | MapGrid.cs:208-222 | committing a wall that passed the battery keeps the wall-phase invariant: the grid is consistent and connected, chunks are within bound, there are no tanks, and `validLocations` is exactly the untagged non-wall cells |
| Generation.RejectSpec | MapGrid.cs:424-429 | rejecting a wall that failed check `k` restores the layout, takes the cell out of `validLocations`, tags it with check `k`, leaves every other tag, and keeps the invariant |
| Generation.RetryPass | MapGrid.cs:470-476 | a tagged cell that now passes is untagged, goes back to the end of `validLocations`, and leaves the layout and the invariant as they were |
| Generation.RevalidateSpec | MapGrid.cs:466-477 | judging one path neighbour again keeps the layout and invariant; an untagged cell keeps its tag, and a tagged cell gets the verdict of the battery on the layout as it stood |
| Generation.RetryingDone | MapGrid.cs:461-479 | after `ValidateLocations(c)`, the layout is unchanged, the invariant holds, and every cell carries the tag it would get from judging c's tagged path neighbours against the layout at the start |
| Generation.VerdictTransfer | MapGrid.cs:464-477 | retries earlier in the loop do not change the verdict of a later retry |
| Generation.WallProgress | MapGrid.cs:203-231 | one `GenerateWall` either adds exactly one wall or leaves `validLocations` empty, so the generating loop ends |
| Generation.RejectThen | MapGrid.cs:210-218 | a rejection followed by a successful retry on the remaining candidates is still a successful `GenerateWall` on all of them |
| Generation.PristineGenInv | MapGrid.cs:225-226 | an empty grid with `validLocations` set to the path list satisfies the wall-phase invariant |
| Generation.TankPhaseStart | MapGrid.cs:285-287 | with `validTankLocations` reset to the path list, a valid map meets the tank-phase invariant: tanks spaced, the player first, candidates distinct open cells |
| Generation.FirstTankIsPlayer | MapGrid.cs:372-380 | the first tank placed becomes the player at that cell, and both proximity checks pass for it |
| Generation.TankCommit | MapGrid.cs:436-459 | a tank that passes both proximity checks keeps the invariant: every two tanks more than 2.5 apart, every enemy more than 7 from the player |
| Generation.TankReject | MapGrid.cs:445-450 | rejecting a tank restores the tanks and cells, leaves the walls as they were, drops the cell from `validTankLocations`, and keeps the invariant |
| Generation.TankRejectRestores | MapGrid.cs:372-405 | removing a tank just added restores the board, except that the cell leaves `validTankLocations` and, when it was the first tank, the player coordinate stays at the cell (`RemoveTank` never resets it) |
| Generation.TankProgress | MapGrid.cs:265-292 | one `GenerateTank` adds exactly one tank, or leaves the tanks unchanged with no candidates left, so the tank loop ends |
| Compression.IndexRoundTrip | MapGrid.cs:745-752 | `Vector2ToIndex(IndexToVector2(i)) == i` for every index, negative ones included, under C#'s truncating `/` and `%` |
| Compression.CoordRoundTrip | MapGrid.cs:745-752 | `IndexToVector2(Vector2ToIndex(c)) == c` for a cell whose column lies in the grid and whose row is not negative |
| Compression.IndexToVector2 | MapGrid.cs:745-748 | a non-negative index decodes to a column in the grid and a non-negative row |
| Compression.CompressedRoundTrip | MapGrid.cs:677-686 | the compressed map of any consistent grid, one of zero width or height included, can be replayed: its indices are in range, none repeats, and no cell appears as both wall and tank; they decode back to the wall and tank lists in order |
| Compression.CompressThenRebuild | MapGrid.cs:124-175 | a grid rebuilt from a compressed map has the original's walls and tanks in order, and every cell has its original type |
| Compression.ReplayWallStep | MapGrid.cs:141-145 | each replayed wall index names an open path cell, and adding it extends the decoded wall prefix by one |
| Compression.ReplayTankStep | MapGrid.cs:152-156 | each replayed tank index names an open path cell, and adding it extends the decoded tank prefix by one with the first tank as player |
| Pathfinding.Steps | MapGrid.cs:828 | the cells a search step can reach are exactly the orthogonal path neighbours that are not obstacles |
| Pathfinding.LowestCost | MapGrid.cs:818-819 | the dequeued node has the lowest cost in the open set |
| Pathfinding.Exhausted | MapGrid.cs:816-852 | once the open set is empty, every walk's end was costed at no more than its length, and the goal is unreachable |
| Pathfinding.Relax | MapGrid.cs:827-848 | expanding a node keeps the search invariant: costs are lengths of parent walks, taken nodes are no costlier than queued ones, and `nearestNode` is a reached cell closest to the goal |
| Pathfinding.Rebuild | MapGrid.cs:786-802 | following parent pointers from a reached cell back to the start and reversing gives a walk from the start to that cell, of length equal to its cost |
| Pathfinding.ShortestPath | MapGrid.cs:784-853 | the result is a walk from the start over orthogonal path steps avoiding obstacles and no walk to its end is shorter; it is empty when start equals goal; it ends at the goal when the goal is reachable, otherwise at a reachable cell closest to the goal |
| Grid.EmptyBoardPristine | MapGrid.cs:185-200 | the empty grid is consistent, all paths, with no walls, tanks, chunks or tags |
| Grid.MapGrid.Empty | MapGrid.cs:47-62 | the generating constructors' first half: the limits are stored, and the grid is empty and pristine |
| Grid.MapGrid.EmptyGrid | MapGrid.cs:185-200 | the grid gets a fresh path square for every cell, the path list is row by row, and `validTankLocations` is a copy of it |
| Grid.MapGrid.FromCompressed | MapGrid.cs:124-158 | the rebuilt grid is consistent, has the compressed map's size and the default limits, decodes the wall and tank arrays in order, and has the player first |
| Grid.MapGrid.ReplayWalls | MapGrid.cs:138-145 | replaying the wall array leaves the decoded array as the wall list and keeps the grid consistent |
| Grid.MapGrid.ReplayTanks | MapGrid.cs:149-156 | replaying the tank array leaves the decoded array as the tank list, the player first |
| Grid.MapGrid.AddWall | MapGrid.cs:357-371 | the fields change as the `AddWall` function says |
| Grid.MapGrid.RemoveWall | MapGrid.cs:384-398 | the fields change as the `RemoveWall` function says |
| Grid.MapGrid.AddTank | MapGrid.cs:372-383 | the fields change as the `AddTank` function says |
| Grid.MapGrid.RemoveTank | MapGrid.cs:399-405 | the fields change as the `RemoveTank` function says |
| Grid.MapGrid.PassedWallDuringChecks | MapGrid.cs:407-435 | it returns true exactly when the battery passes; on failure at `k` the wall is taken back, dropped from `validLocations` and tagged `k`; a crash happens only with no path cells |
| Grid.MapGrid.ValidateLocations | MapGrid.cs:461-479 | every tagged path neighbour is judged again against the layout at the start; the layout and invariant are kept |
| Grid.MapGrid.TryWall | MapGrid.cs:205-210 | the candidate is kept exactly when it passes, and otherwise rejected with the failing check's tag |
| Grid.MapGrid.GenerateWall | MapGrid.cs:203-223 | one candidate that passes the battery is committed and the layout is the one it made, or every candidate failed a check of the battery and is removed from `validLocations` with the layout unchanged |
| Generation.WallPlacedIff | MapGrid.cs:203-223 | a wall is committed exactly when some candidate passes the battery; otherwise the layout is unchanged |
| Grid.MapGrid.GenerateWalls | MapGrid.cs:201-238 | unless it crashes, it leaves a connected, consistent map within the chunk bound; the wall count is below the target only when no candidate is left, and it never overshoots |
| Grid.MapGrid.PassedTankDuringChecks | MapGrid.cs:436-459 | it returns true exactly when both proximity checks pass; otherwise the tank is taken back and dropped from `validTankLocations` |
| Grid.MapGrid.TryTank | MapGrid.cs:267-272 | the candidate is placed exactly when it passes both checks, and rejected otherwise |
| Grid.MapGrid.GenerateTank | MapGrid.cs:265-284 | one candidate that passes both checks is placed, or every candidate failed a proximity check and is dropped with the grid unchanged; the invariant and walls are kept |
| Generation.TankPlacedIff | MapGrid.cs:265-284 | a tank is placed exactly when some candidate passes both proximity checks |
| Grid.MapGrid.GenerateTanks | MapGrid.cs:263-298 | the tank invariant holds and the walls are untouched; the tank count is below the target only when no candidate is left, and it never overshoots |
| Grid.MapGrid.Generate | MapGrid.cs:90-118 | from an empty grid, unless it crashes, the result is a valid map with spaced tanks and the player first, and wall and tank counts that meet their targets unless the candidates ran out |
| Grid.MapGrid.GetCompressedMap | MapGrid.cs:677-686 | the compressed map has the grid's size, can be replayed, and decodes back to the wall and tank lists |
| Grid.MapGrid.UpdatePlayerPosition | MapGrid.cs:870-873 | only the player position changes |
| Grid.MapGrid.AddTankObstacle | MapGrid.cs:874-877 | the cell is appended to the obstacle list, and nothing else changes |
| Grid.MapGrid.RemoveTankObstacle | MapGrid.cs:878-881 | one copy of the cell leaves the obstacle list, and nothing else changes |
| Grid.MapGrid.GetPathTo | MapGrid.cs:898-904 | a shortest obstacle-avoiding walk to the destination when it can be reached, otherwise to a reachable cell closest to it |
| Grid.MapGrid.ChooseGoal | MapGrid.cs:885-894 | the destination is the player, or a path cell that is not an obstacle; picking a free cell fails exactly when every path cell is an obstacle |
| Grid.MapGrid.GetPath | MapGrid.cs:882-897 | the destination is chosen as `ChooseGoal` states, and the path to it is as `GetPathTo` states |

## Left out

- `Aim.cs` is not part of this model.
- `Display`, `FailedDisplay`, `GetGridList` and `EnumExtensions` only format text for display, so they are left out.
- **Square size.** `squareSize`, `ToGridPosition` and `ToGamePosition` convert between grid and world coordinates with floats. The model works in grid coordinates throughout. Paths are sequences of cells rather than queues of `Vector3`, and `ToVector2List` and `ToVector3List` are left out.
- **Tank types and map rating.** `SetTankType`, the tank types, `TankContainer`, `tankList`, `tankTypeArray` and `CalculateMapRating` (MapGrid.cs:299-355) are left out. As a result, the static tanks that the survival and compressed constructors add as obstacles (MapGrid.cs:72-84, 160-172) are not added, and the model's obstacle list starts empty.
- **End checks.** `ResetWalls` and the restart after a failed end check are left out. `PassedWallEndChecks` and `PassedTankEndChecks` always return true, so that branch is never taken.
- Grid.MapGrid.GenerateTanks: requires that no tanks are placed yet, as in every constructor that calls it.
- **Avoided paths.** `AvoidPath` collects the paths of the tanks in `tankList`. The model takes those temporary obstacles as a parameter (`temp`).
- **Randomness.** `UnityEngine.Random.Range` becomes an arbitrary choice (`:|`). Every property is proved for every choice.
- Pathfinding.ShortestPath: when the goal cannot be reached, the model promises a reachable cell closest to the goal but not which one. The source picks the first one it relaxes.
- **Queue order.** The order of the `PriorityQueue` among nodes of equal cost is not modelled, because that class is not part of this model.
- **Path search fields.** The search keeps its costs and parents in local maps. The stale `cost` and `parentSquare` fields of the squares are not modelled.
- **Distances.** `Vector2.Distance` uses floats; the model compares squared integer distances. "At most 2.5" becomes a squared distance of at most 6, and "at most 7" becomes at most 49.
- Grid.MapGrid.FromCompressed: requires a replayable map: a non-negative size, in-range indices without repeats, and no cell both wall and tank. The source replays any arrays and would throw or corrupt its lists on a bad one. A map with zero width or height is replayable and has empty arrays.
- Grid.MapGrid.Empty: requires non-negative dimensions. The source would throw when it allocates negative ones.
