/**
 * `ShortestPath`: a uniform-cost search over orthogonal path neighbours that
 * avoids a set of obstacle cells, rebuilt from parent pointers, and falling
 * back to the reached cell closest to the goal when the goal cannot be
 * reached. The per-cell `cost` and `parentSquare` fields live in two maps
 * local to the search; the priority queue is a sequence from which a
 * lowest-cost cell is taken.
 */
module Pathfinding {
  import opened Lists
  import opened Square
  import opened Checks

  /** The cells one step away from `v`: orthogonal path neighbours outside the obstacle set. */
  function Steps(cells: map<Coord, Square>, obs: set<Coord>, v: Coord): (r: seq<Coord>)
    requires v in cells
    ensures forall n :: n in r <==> n in cells[v].pathNeighbours && n in cells[v].orthogonal && n !in obs
  {
    var sq := cells[v];
    Filter(sq.pathNeighbours, n => n in sq.orthogonal && n !in obs)
  }

  /** One step of a walk. */
  ghost predicate Edge(cells: map<Coord, Square>, obs: set<Coord>, u: Coord, v: Coord) {
    u in cells && v in Steps(cells, obs, u)
  }

  /** Every path neighbour is a cell of the grid. */
  ghost predicate Closed(cells: map<Coord, Square>) {
    forall k, n :: k in cells && n in cells[k].pathNeighbours ==> n in cells
  }

  /** The `i`-th cell of the walk `w` from `from`; the 0-th is `from` itself. */
  function Node(from: Coord, w: seq<Coord>, i: nat): Coord
    requires i <= |w|
  {
    if i == 0 then from else w[i - 1]
  }

  /** Where the walk `w` from `from` ends. */
  function Last(from: Coord, w: seq<Coord>): Coord {
    Node(from, w, |w|)
  }

  /** `w` lists the cells of a walk from `from`, `from` itself excluded. */
  ghost predicate IsWalk(cells: map<Coord, Square>, obs: set<Coord>, from: Coord, w: seq<Coord>) {
    forall i {:trigger Node(from, w, i)} :: 0 <= i < |w| ==> Edge(cells, obs, Node(from, w, i), w[i])
  }

  ghost predicate Reachable(cells: map<Coord, Square>, obs: set<Coord>, from: Coord, to: Coord) {
    exists w :: IsWalk(cells, obs, from, w) && Last(from, w) == to
  }

  /** No walk from `from` to where `w` ends is shorter than `w`. */
  ghost predicate Shortest(cells: map<Coord, Square>, obs: set<Coord>, from: Coord, w: seq<Coord>) {
    forall v :: IsWalk(cells, obs, from, v) && Last(from, v) == Last(from, w) ==> |w| <= |v|
  }

  /**
   * What the search keeps true: `done` holds the cells already taken from
   * the queue, `cost` the cells reached, each at the length of the walk its
   * parent pointers spell out; taken cells cost no more than queued ones and
   * their steps are all reached; `nearest` is a reached cell closest to the goal.
   */
  ghost predicate Search(cells: map<Coord, Square>, obs: set<Coord>, start: Coord, goal: Coord,
                         cost: map<Coord, nat>, parent: map<Coord, Coord>, open: seq<Coord>,
                         done: set<Coord>, nearest: Coord)
  {
    && start in cost && cost[start] == 0
    && (forall v :: v in cost ==> v in cells)
    && NoDups(open)
    && (forall v :: v in open ==> v in cost && v !in done)
    && (forall v :: v in done ==> v in cost)
    && (forall v :: v in cost ==> v in done || v in open)
    && (forall v :: v in cost && v != start ==>
          v in parent && parent[v] in done && cost[v] == cost[parent[v]] + 1 && Edge(cells, obs, parent[v], v))
    && (forall d, o :: d in done && o in open ==> cost[d] <= cost[o])
    && (forall d, n :: d in done && Edge(cells, obs, d, n) ==> n in cost && cost[n] <= cost[d] + 1)
    && goal !in done
    && nearest in cost && (forall v :: v in cost ==> Dist2(nearest, goal) <= Dist2(v, goal))
  }

  /** The priority queue's `Dequeue`: the position of a lowest-cost cell. */
  method LowestCost(open: seq<Coord>, cost: map<Coord, nat>) returns (i: nat)
    requires |open| > 0 && forall v :: v in open ==> v in cost
    ensures i < |open| && forall j :: 0 <= j < |open| ==> cost[open[i]] <= cost[open[j]]
  {
    i := 0;
    for j := 1 to |open|
      invariant i < j && forall k :: 0 <= k < j ==> cost[open[i]] <= cost[open[k]]
    {
      if cost[open[j]] < cost[open[i]] {
        i := j;
      }
    }
  }

  /** A walk whose first `k` steps stay in `done` leaves `done` somewhere, no later than its end, at a cost bounded by the step count. */
  lemma {:induction false} FirstOutside(cells: map<Coord, Square>, obs: set<Coord>, start: Coord,
                                        cost: map<Coord, nat>, done: set<Coord>, w: seq<Coord>, k: nat) returns (j: nat)
    requires forall v :: v in done ==> v in cost
    requires forall d, n :: d in done && Edge(cells, obs, d, n) ==> n in cost && cost[n] <= cost[d] + 1
    requires IsWalk(cells, obs, start, w) && k <= |w|
    requires Node(start, w, k) in done && cost[Node(start, w, k)] <= k
    requires Last(start, w) !in done
    ensures k < j <= |w| && Node(start, w, j) in cost && Node(start, w, j) !in done && cost[Node(start, w, j)] <= j
    decreases |w| - k
  {
    var x, y := Node(start, w, k), Node(start, w, k + 1);
    assert y == w[k];
    assert Edge(cells, obs, x, y);
    assert y in cost && cost[y] <= k + 1;
    if y in done {
      j := FirstOutside(cells, obs, start, cost, done, w, k + 1);
    } else {
      j := k + 1;
    }
  }

  /** When `done` is closed under steps, a walk from a cell of `done` stays inside, and costs bound its length from below. */
  lemma {:induction false} AllInside(cells: map<Coord, Square>, obs: set<Coord>, start: Coord,
                                     cost: map<Coord, nat>, done: set<Coord>, w: seq<Coord>, k: nat)
    requires forall v :: v in done <==> v in cost
    requires forall d, n :: d in done && Edge(cells, obs, d, n) ==> n in cost && cost[n] <= cost[d] + 1
    requires IsWalk(cells, obs, start, w) && k <= |w|
    requires Node(start, w, k) in done && cost[Node(start, w, k)] <= k
    ensures Last(start, w) in done && cost[Last(start, w)] <= |w|
    decreases |w| - k
  {
    if k < |w| {
      var x, y := Node(start, w, k), Node(start, w, k + 1);
      assert y == w[k];
      assert Edge(cells, obs, x, y);
      AllInside(cells, obs, start, cost, done, w, k + 1);
    }
  }

  /** The cell taken from the queue costs no more than any walk to it. */
  lemma DequeueBound(cells: map<Coord, Square>, obs: set<Coord>, start: Coord, goal: Coord,
                     cost: map<Coord, nat>, parent: map<Coord, Coord>, open: seq<Coord>,
                     done: set<Coord>, nearest: Coord, u: Coord, w: seq<Coord>)
    requires Search(cells, obs, start, goal, cost, parent, open, done, nearest)
    requires u in open && forall o :: o in open ==> cost[u] <= cost[o]
    requires IsWalk(cells, obs, start, w) && Last(start, w) == u
    ensures cost[u] <= |w|
  {
    if start in done {
      var j := FirstOutside(cells, obs, start, cost, done, w, 0);
    }
  }

  /** Once the queue is empty, the goal is out of reach. */
  lemma Exhausted(cells: map<Coord, Square>, obs: set<Coord>, start: Coord, goal: Coord,
                  cost: map<Coord, nat>, parent: map<Coord, Coord>, done: set<Coord>, nearest: Coord)
    requires Search(cells, obs, start, goal, cost, parent, [], done, nearest)
    ensures !Reachable(cells, obs, start, goal)
    ensures forall w :: IsWalk(cells, obs, start, w) ==> Last(start, w) in cost && cost[Last(start, w)] <= |w|
  {
    forall w | IsWalk(cells, obs, start, w) ensures Last(start, w) in done && cost[Last(start, w)] <= |w| {
      AllInside(cells, obs, start, cost, done, w, 0);
    }
  }

  /** Prepending the step that leads to a walk gives a walk. */
  lemma Prepend(cells: map<Coord, Square>, obs: set<Coord>, p: Coord, v: Coord, w: seq<Coord>)
    requires Edge(cells, obs, p, v) && IsWalk(cells, obs, v, w)
    ensures IsWalk(cells, obs, p, [v] + w) && Last(p, [v] + w) == Last(v, w)
  {
    var w' := [v] + w;
    forall i | 0 <= i < |w'| ensures Edge(cells, obs, Node(p, w', i), w'[i]) {
      if i > 0 {
        assert Node(p, w', i) == Node(v, w, i - 1);
      }
    }
  }

  /** `GetQueue`: follow the parent pointers from `target` back to `start`. */
  method Rebuild(cells: map<Coord, Square>, obs: set<Coord>, start: Coord, goal: Coord,
                 cost: map<Coord, nat>, parent: map<Coord, Coord>, open: seq<Coord>,
                 ghost done: set<Coord>, nearest: Coord, target: Coord) returns (path: seq<Coord>)
    requires Search(cells, obs, start, goal, cost, parent, open, done, nearest) && target in cost
    ensures IsWalk(cells, obs, start, path) && Last(start, path) == target && |path| == cost[target]
  {
    var cur := target;
    path := [];
    while cur != start
      invariant cur in cost && IsWalk(cells, obs, cur, path) && Last(cur, path) == target
      invariant |path| + cost[cur] == cost[target]
      decreases cost[cur]
    {
      Prepend(cells, obs, parent[cur], cur, path);
      path := [cur] + path;
      cur := parent[cur];
    }
  }

  /**
   * The search state between taking `u` from the queue (and into `done`) and
   * relaxing its steps: as `Search`, but with `u` the costliest cell of
   * `done` and the cheapest left queued, and its steps not yet reached.
   */
  ghost predicate Pending(cells: map<Coord, Square>, obs: set<Coord>, start: Coord, goal: Coord,
                          cost: map<Coord, nat>, parent: map<Coord, Coord>, open: seq<Coord>,
                          done: set<Coord>, nearest: Coord, u: Coord)
  {
    && start in cost && cost[start] == 0
    && (forall v :: v in cost ==> v in cells)
    && NoDups(open)
    && (forall v :: v in open ==> v in cost && v !in done)
    && (forall v :: v in done ==> v in cost)
    && u in done
    && (forall v :: v in done ==> cost[v] <= cost[u])
    && (forall v :: v in cost ==> v in done || v in open)
    && (forall v :: v in cost && v != start ==>
          v in parent && parent[v] in done && cost[v] == cost[parent[v]] + 1 && Edge(cells, obs, parent[v], v))
    && (forall o :: o in open ==> cost[u] <= cost[o])
    && (forall d, n :: d in done && d != u && Edge(cells, obs, d, n) ==> n in cost && cost[n] <= cost[d] + 1)
    && goal !in done
    && nearest in cost && (forall v :: v in cost ==> Dist2(nearest, goal) <= Dist2(v, goal))
  }

  /** Taking a lowest-cost cell other than the goal from the queue into `done`. */
  lemma Dequeue(cells: map<Coord, Square>, obs: set<Coord>, start: Coord, goal: Coord,
                cost: map<Coord, nat>, parent: map<Coord, Coord>, open: seq<Coord>,
                done: set<Coord>, nearest: Coord, u: Coord)
    requires Search(cells, obs, start, goal, cost, parent, open, done, nearest)
    requires u in open && u != goal && forall o :: o in open ==> cost[u] <= cost[o]
    ensures Pending(cells, obs, start, goal, cost, parent, RemoveFirst(open, u), done + {u}, nearest, u)
  {
    RemoveFirstMembers(open, u);
  }

  /** Once all steps of `u` are reached, the search invariant holds again. */
  lemma Relaxed(cells: map<Coord, Square>, obs: set<Coord>, start: Coord, goal: Coord,
                cost: map<Coord, nat>, parent: map<Coord, Coord>, open: seq<Coord>,
                done: set<Coord>, nearest: Coord, u: Coord)
    requires Pending(cells, obs, start, goal, cost, parent, open, done, nearest, u)
    requires forall n :: n in Steps(cells, obs, u) ==> n in cost && cost[n] <= cost[u] + 1
    ensures Search(cells, obs, start, goal, cost, parent, open, done, nearest)
  {
  }

  /** The membership half of `RelaxOne`. */
  lemma RelaxMembers(cells: map<Coord, Square>, obs: set<Coord>, start: Coord, goal: Coord,
                     cost: map<Coord, nat>, parent: map<Coord, Coord>, open: seq<Coord>,
                     done: set<Coord>, nearest: Coord, u: Coord, n: Coord)
    requires Closed(cells)
    requires Pending(cells, obs, start, goal, cost, parent, open, done, nearest, u)
    requires Edge(cells, obs, u, n) && (n !in cost || cost[u] + 1 < cost[n])
    ensures n !in done && n != u
    ensures var open', c2 := (if n in open then open else open + [n]), cost[n := cost[u] + 1];
      && start in c2 && c2[start] == 0
      && (forall v :: v in c2 ==> v in cells)
      && NoDups(open')
      && (forall v :: v in open' ==> v in c2 && v !in done)
      && (forall v :: v in done ==> v in c2)
      && (forall v :: v in c2 ==> v in done || v in open')
  {
    if n !in open {
      AppendNoDups(open, n);
    }
  }

  /** The ordering half of `RelaxOne`. */
  lemma RelaxOrder(cells: map<Coord, Square>, obs: set<Coord>, start: Coord, goal: Coord,
                   cost: map<Coord, nat>, parent: map<Coord, Coord>, open: seq<Coord>,
                   done: set<Coord>, nearest: Coord, u: Coord, n: Coord)
    requires Pending(cells, obs, start, goal, cost, parent, open, done, nearest, u)
    requires Edge(cells, obs, u, n) && (n !in cost || cost[u] + 1 < cost[n])
    ensures var open', c2, p2 := (if n in open then open else open + [n]), cost[n := cost[u] + 1], parent[n := u];
      var nearest' := if Dist2(n, goal) < Dist2(nearest, goal) then n else nearest;
      && (forall v :: v in done ==> c2[v] <= c2[u])
      && (forall v :: v in c2 && v != start ==>
            v in p2 && p2[v] in done && c2[v] == c2[p2[v]] + 1 && Edge(cells, obs, p2[v], v))
      && (forall o :: o in open' ==> c2[u] <= c2[o])
      && (forall d, m :: d in done && d != u && Edge(cells, obs, d, m) ==> m in c2 && c2[m] <= c2[d] + 1)
      && nearest' in c2 && (forall v :: v in c2 ==> Dist2(nearest', goal) <= Dist2(v, goal))
  {
  }

  /** Improving the cost of one step `n` of `u` keeps the pending invariant. */
  lemma RelaxOne(cells: map<Coord, Square>, obs: set<Coord>, start: Coord, goal: Coord,
                 cost: map<Coord, nat>, parent: map<Coord, Coord>, open: seq<Coord>,
                 done: set<Coord>, nearest: Coord, u: Coord, n: Coord)
    requires Closed(cells)
    requires Pending(cells, obs, start, goal, cost, parent, open, done, nearest, u)
    requires Edge(cells, obs, u, n) && (n !in cost || cost[u] + 1 < cost[n])
    ensures n !in done && n != u
    ensures var open' := if n in open then open else open + [n];
      var nearest' := if Dist2(n, goal) < Dist2(nearest, goal) then n else nearest;
      Pending(cells, obs, start, goal, cost[n := cost[u] + 1], parent[n := u], open', done, nearest', u)
  {
    RelaxMembers(cells, obs, start, goal, cost, parent, open, done, nearest, u, n);
    RelaxOrder(cells, obs, start, goal, cost, parent, open, done, nearest, u, n);
  }

  /** The neighbours handled so far stay within one step of `u` when costs only fall and `u`'s stays. */
  lemma StepsKept(c0: map<Coord, nat>, c1: map<Coord, nat>, u: Coord, steps: seq<Coord>, s: nat)
    requires s < |steps| && u in c0 && u in c1 && c1[u] == c0[u]
    requires forall j :: 0 <= j < s ==> steps[j] in c0 && c0[steps[j]] <= c0[u] + 1
    requires forall v :: v in c0 ==> v in c1 && c1[v] <= c0[v]
    requires steps[s] in c1 && c1[steps[s]] <= c1[u] + 1
    ensures forall j :: 0 <= j < s + 1 ==> steps[j] in c1 && c1[steps[j]] <= c1[u] + 1
  {
  }

  /**
   * One neighbour `n` of the dequeued cell `u`: if the way through `u` is
   * cheaper than what `n` has (or `n` is new), `n` takes it, enters the queue
   * if it is not there yet and may become the nearest cell to the goal.
   */
  method RelaxNeighbour(cells: map<Coord, Square>, obs: set<Coord>, start: Coord, goal: Coord,
                        cost: map<Coord, nat>, parent: map<Coord, Coord>, open: seq<Coord>,
                        ghost done: set<Coord>, nearest: Coord, u: Coord, n: Coord)
    returns (cost': map<Coord, nat>, parent': map<Coord, Coord>, open': seq<Coord>, nearest': Coord)
    requires Closed(cells)
    requires Pending(cells, obs, start, goal, cost, parent, open, done, nearest, u)
    requires Edge(cells, obs, u, n)
    ensures Pending(cells, obs, start, goal, cost', parent', open', done, nearest', u)
    ensures n in cost' && cost'[n] <= cost'[u] + 1
    ensures u in cost && cost'[u] == cost[u]
    ensures forall v :: v in cost ==> v in cost' && cost'[v] <= cost[v]
  {
    cost', parent', open', nearest' := cost, parent, open, nearest;
    if n !in cost || cost[u] + 1 < cost[n] {
      RelaxOne(cells, obs, start, goal, cost, parent, open, done, nearest, u, n);
      cost', parent' := cost[n := cost[u] + 1], parent[n := u];
      open' := if n in open then open else open + [n];
      nearest' := if Dist2(n, goal) < Dist2(nearest, goal) then n else nearest;
    }
  }

  /** The `foreach` over the neighbours of the dequeued cell `u`. */
  method Relax(cells: map<Coord, Square>, obs: set<Coord>, start: Coord, goal: Coord,
               cost: map<Coord, nat>, parent: map<Coord, Coord>, open: seq<Coord>,
               ghost done: set<Coord>, nearest: Coord, u: Coord)
    returns (cost': map<Coord, nat>, parent': map<Coord, Coord>, open': seq<Coord>, nearest': Coord)
    requires Closed(cells)
    requires Pending(cells, obs, start, goal, cost, parent, open, done, nearest, u)
    ensures Search(cells, obs, start, goal, cost', parent', open', done, nearest')
  {
    cost', parent', open', nearest' := cost, parent, open, nearest;
    var steps := Steps(cells, obs, u);
    for s := 0 to |steps|
      invariant Pending(cells, obs, start, goal, cost', parent', open', done, nearest', u)
      invariant forall j :: 0 <= j < s ==> steps[j] in cost' && cost'[steps[j]] <= cost'[u] + 1
    {
      assert Edge(cells, obs, u, steps[s]);
      ghost var before := cost';
      cost', parent', open', nearest' := RelaxNeighbour(cells, obs, start, goal, cost', parent', open', done, nearest', u, steps[s]);
      StepsKept(before, cost', u, steps, s);
    }
    Relaxed(cells, obs, start, goal, cost', parent', open', done, nearest', u);
  }

  /**
   * `ShortestPath(start, goal, obstacles)`. The result is a walk from
   * `start` (which it leaves out) over orthogonal path neighbours that avoids
   * `obs`. It is empty when `start == goal`. When the goal can be reached it
   * ends there and no walk is shorter; otherwise it ends at a reachable cell
   * closest to the goal, by a shortest walk.
   */
  method ShortestPath(cells: map<Coord, Square>, obs: set<Coord>, start: Coord, goal: Coord) returns (path: seq<Coord>)
    requires start in cells && Closed(cells)
    ensures IsWalk(cells, obs, start, path) && Shortest(cells, obs, start, path)
    ensures start == goal ==> path == []
    ensures Reachable(cells, obs, start, goal) ==> Last(start, path) == goal
    ensures !Reachable(cells, obs, start, goal) ==>
      forall v :: Reachable(cells, obs, start, v) ==> Dist2(Last(start, path), goal) <= Dist2(v, goal)
  {
    var cost: map<Coord, nat> := map[start := 0];
    var parent: map<Coord, Coord> := map[];
    var nearest := start;
    var open := [start];
    ghost var done: set<Coord> := {};
    while |open| > 0
      invariant Search(cells, obs, start, goal, cost, parent, open, done, nearest)
      decreases cells.Keys - done
    {
      var i := LowestCost(open, cost);
      var u := open[i];
      if u == goal {
        forall w | IsWalk(cells, obs, start, w) && Last(start, w) == goal ensures cost[goal] <= |w| {
          DequeueBound(cells, obs, start, goal, cost, parent, open, done, nearest, u, w);
        }
        path := Rebuild(cells, obs, start, goal, cost, parent, open, done, nearest, goal);
        return;
      }
      Dequeue(cells, obs, start, goal, cost, parent, open, done, nearest, u);
      open := RemoveFirst(open, u);
      done := done + {u};
      cost, parent, open, nearest := Relax(cells, obs, start, goal, cost, parent, open, done, nearest, u);
    }
    Exhausted(cells, obs, start, goal, cost, parent, done, nearest);
    path := Rebuild(cells, obs, start, goal, cost, parent, open, done, nearest, nearest);
  }
}
