/**
 * The breadth-first discovery engine (src/bfs.rs).
 *
 * The robot explores a maze it cannot see: it can only `peek` one step in a
 * compass direction and `go` one step. The engine names every cell it sights
 * with a fresh number (the start is 0), records for each visited cell a row of
 * four neighbour slots (North, East, South, West, the order of `DIR_ARR`), and
 * for each sighted cell the cell it was sighted from (its parent). Cells are
 * visited in the order they were queued; to reach the next one the robot
 * climbs parent links from where it stands until the target shows up in the
 * current row, then steps into it.
 */
module Bfs {
  import opened Wrappers
  import opened Cells
  import opened Direction

  /** Cell numbers handed out by the engine. */
  type Id = nat

  /** A neighbour row: one slot per direction, in `DIR_ARR` order. */
  type Row = r: seq<Option<Id>> | |r| == 4 witness [None, None, None, None]

  /** The robot as the engine uses it, over robot states `P`: `peek` reports
      the cell one step away, `go` moves one step and gives the new state, or
      None when the move fails. */
  datatype Robot<!P> = Robot(peek: (P, Cardinal) -> Cell, go: (P, Cardinal) -> Option<P>)

  /** The ways the engine stops. The messages of the source are not modelled. */
  datatype BfsError =
    | NoNeighbors(at: Id)         // no row for the current cell
    | NoParent(at: Id)            // no parent entry for the current cell
    | NoDirection(at: Id, next: Id)  // the next cell is in no slot of the current row
    | MoveFailed(at: Id, next: Id)   // the robot refused the step
    | NoSolution                  // the queue ran empty
    | OutOfFuel                   // the iteration bound of the model was reached

  // ---------------------------------------------------------------------------
  // find_direction_to_neighbor
  // ---------------------------------------------------------------------------

  /** The fold over the first `n` slots: the first direction found is kept. */
  function FoldSlots(neighbors: Row, target: Id, n: nat): (r: Option<Cardinal>)
    requires n <= 4
    ensures r.None? <==> Some(target) !in neighbors[..n]
    ensures r.Some? ==> Ordinal(r.value) < n && neighbors[Ordinal(r.value)] == Some(target)
    ensures r.Some? ==> forall i :: 0 <= i < Ordinal(r.value) ==> neighbors[i] != Some(target)
  {
    if n == 0 then None
    else
      var dir := FoldSlots(neighbors, target, n - 1);
      assert neighbors[..n] == neighbors[..n - 1] + [neighbors[n - 1]];
      if dir.Some? then dir
      else if neighbors[n - 1] == Some(target) then Some(CardDirArr[n - 1])
      else None
  }

  /** `find_direction_to_neighbor`: the direction of the lowest slot holding `target`. */
  function FindDirectionToNeighbor(neighbors: Row, target: Id): (r: Option<Cardinal>)
    ensures r.None? <==> Some(target) !in neighbors
    ensures r.Some? ==> neighbors[Ordinal(r.value)] == Some(target)
    ensures r.Some? ==> forall i :: 0 <= i < Ordinal(r.value) ==> neighbors[i] != Some(target)
  {
    assert neighbors[..4] == neighbors;
    FoldSlots(neighbors, target, 4)
  }

  // ---------------------------------------------------------------------------
  // navigate_bfs
  // ---------------------------------------------------------------------------

  /** Every recorded parent has a smaller number than its child. */
  ghost predicate ParentsDecrease(path: map<Id, Id>)
  {
    forall c :: c in path ==> path[c] < c
  }

  /** `a` is `c` or lies on the parent chain above `c`. */
  ghost predicate Ancestor(path: map<Id, Id>, a: Id, c: Id)
    requires ParentsDecrease(path)
    decreases c
  {
    a == c || (c in path && Ancestor(path, a, path[c]))
  }

  /** What one run of `navigate_bfs` does, step by step: the outcome and the
      robot state it leaves behind. */
  function Navigate<P>(robot: Robot<P>, pos: P, graph: map<Id, Row>, path: map<Id, Id>,
                       loc: Id, target: Id): (Result<Id, BfsError>, P)
    requires ParentsDecrease(path)
    decreases if loc == target then 0 else loc + 1
  {
    if loc == target then (Ok(loc), pos)
    else if loc !in graph then (Err(NoNeighbors(loc)), pos)
    else
      var neighbors := graph[loc];
      if Some(target) !in neighbors && loc !in path then (Err(NoParent(loc)), pos)
      else
        var next := if Some(target) in neighbors then target else path[loc];
        match FindDirectionToNeighbor(neighbors, next)
        case None => (Err(NoDirection(loc, next)), pos)
        case Some(dir) =>
          match robot.go(pos, dir)
          case None => (Err(MoveFailed(loc, next)), pos)
          case Some(pos') => Navigate(robot, pos', graph, path, next, target)
  }

  /** `navigate_bfs`: walk the robot from cell `location` to cell `target`. */
  method NavigateBfs<P>(robot: Robot<P>, pos: P, location: Id, target: Id,
                        graph: map<Id, Row>, path: map<Id, Id>)
    returns (r: Result<Id, BfsError>, pos': P)
    requires ParentsDecrease(path)
    ensures (r, pos') == Navigate(robot, pos, graph, path, location, target)
  {
    var loc := location;
    pos' := pos;
    while loc != target
      invariant Navigate(robot, pos', graph, path, loc, target) == Navigate(robot, pos, graph, path, location, target)
      decreases if loc == target then 0 else loc + 1
    {
      if loc !in graph {
        return Err(NoNeighbors(loc)), pos';
      }
      var neighbors := graph[loc];
      var next: Id;
      if Some(target) in neighbors {
        next := target;
      } else {
        if loc !in path {
          return Err(NoParent(loc)), pos';
        }
        next := path[loc];
      }
      var direction := FindDirectionToNeighbor(neighbors, next);
      if direction.None? {
        return Err(NoDirection(loc, next)), pos';
      }
      var moved := robot.go(pos', direction.value);
      if moved.None? {
        return Err(MoveFailed(loc, next)), pos';
      }
      pos' := moved.value;
      loc := next;
    }
    r := Ok(loc);
  }

  /** A successful walk ends at the target; a walk that starts there makes no move. */
  lemma {:induction false} NavigateReachesTarget<P>(robot: Robot<P>, pos: P, graph: map<Id, Row>,
                                                   path: map<Id, Id>, loc: Id, target: Id)
    requires ParentsDecrease(path)
    ensures Navigate(robot, pos, graph, path, loc, target).0.Ok? ==>
              Navigate(robot, pos, graph, path, loc, target).0.value == target
    ensures loc == target ==> Navigate(robot, pos, graph, path, loc, target) == (Ok(target), pos)
    decreases if loc == target then 0 else loc + 1
  {
    if loc != target && loc in graph {
      var neighbors := graph[loc];
      if Some(target) in neighbors || loc in path {
        var next := if Some(target) in neighbors then target else path[loc];
        var dir := FindDirectionToNeighbor(neighbors, next);
        if dir.Some? && robot.go(pos, dir.value).Some? {
          NavigateReachesTarget(robot, robot.go(pos, dir.value).value, graph, path, next, target);
        }
      }
    }
  }

  // ---------------------------------------------------------------------------
  // find_solution_bfs: the engine state and what it keeps true
  // ---------------------------------------------------------------------------

  /** The five pieces of state of `find_solution_bfs` and the robot's current cell. */
  datatype Engine = Engine(nxt: Id, toVisit: seq<Id>, visited: set<Id>,
                           graph: map<Id, Row>, path: map<Id, Id>, location: Id)

  /** The start cell is 0, queued; fresh numbers start at 1. */
  const Start: Engine := Engine(1, [0], {}, map[], map[], 0)

  ghost predicate Increasing(s: seq<Id>)
  {
    forall i, j :: 0 <= i < j < |s| ==> s[i] < s[j]
  }

  /** `v` sits in a slot of `c`'s row only as its child or as its parent. */
  ghost predicate TreeEdge(path: map<Id, Id>, c: Id, v: Id)
  {
    (v in path && path[v] == c) || (c in path && path[c] == v)
  }

  /** A queued cell: numbered, not yet visited, and (unless it is the start)
      found in the row of its parent. */
  ghost predicate Queued(e: Engine, q: Id)
  {
    && q < e.nxt
    && q !in e.visited
    && (q == 0 || (q in e.path && e.path[q] in e.graph && Some(q) in e.graph[e.path[q]]))
  }

  /** What holds between two iterations of the discovery loop. */
  ghost predicate Inv(e: Engine)
  {
    && 0 < e.nxt
    && e.graph.Keys == e.visited
    && (forall v :: v in e.visited ==> v < e.nxt)
    && ParentsDecrease(e.path)
    && (forall c :: c in e.path ==> 0 < c < e.nxt && e.path[c] in e.visited)
    && (forall c :: c in e.visited && c != 0 ==> c in e.path && Some(e.path[c]) in e.graph[c])
    && (forall c, i :: c in e.graph && 0 <= i < 4 && e.graph[c][i].Some? ==> TreeEdge(e.path, c, e.graph[c][i].value))
    && Increasing(e.toVisit)
    && (forall i :: 0 <= i < |e.toVisit| ==> Queued(e, e.toVisit[i]))
    && (if e.visited == {} then e == Start else 0 in e.visited && e.location in e.visited)
  }

  /** The robot `go`es where `peek` promises and can always step back: a
      step that succeeds from a standable state `ok` reaches a standable state,
      and the reverse step leads back. */
  ghost predicate Coherent<P(!new)>(robot: Robot<P>, ok: P -> bool)
  {
    forall p, d :: ok(p) ==>
      && (robot.go(p, d).Some? <==> robot.peek(p, d) != Wall)
      && (robot.go(p, d).Some? ==> ok(robot.go(p, d).value) && robot.go(robot.go(p, d).value, Reverse(d)) == Some(p))
  }

  /** The robot state reached by one step, or the state itself if the step fails. */
  ghost function StepOr<P>(robot: Robot<P>, pos: P, d: Cardinal): P
  {
    if robot.go(pos, d).Some? then robot.go(pos, d).value else pos
  }

  /** `posMap` places every numbered cell, and every slot of every row is a
      step the robot can take between the places of the two cells. */
  ghost predicate Located<P>(e: Engine, robot: Robot<P>, ok: P -> bool, posMap: map<Id, P>)
  {
    && (forall id: Id :: id < e.nxt ==> id in posMap && ok(posMap[id]))
    && (forall c, i :: c in e.graph && 0 <= i < 4 && e.graph[c][i].Some? ==>
          c in posMap && e.graph[c][i].value in posMap &&
          robot.go(posMap[c], CardDirArr[i]) == Some(posMap[e.graph[c][i].value]))
  }

  // ---------------------------------------------------------------------------
  // One visit
  // ---------------------------------------------------------------------------

  /** `parent_direction`: the parent of `location` and the direction leading
      back to it, found by reversing the slot of `location` in the parent's row. */
  function ParentDirection(graph: map<Id, Row>, path: map<Id, Id>, location: Id): (r: Option<(Id, Cardinal)>)
    ensures r.None? <==> location == 0 || location !in path || path[location] !in graph
                         || Some(location) !in graph[path[location]]
    ensures r.Some? ==> && r.value.0 == path[location]
                        && graph[r.value.0][Ordinal(Reverse(r.value.1))] == Some(location)
  {
    if location == 0 || location !in path then None
    else
      var pdx := path[location];
      if pdx !in graph then None
      else
        match FindDirectionToNeighbor(graph[pdx], location)
        case None => None
        case Some(dir) =>
          ReverseInvolution(dir);
          Some((pdx, Reverse(dir)))
  }

  /** `init_neighbors`: the row with only the slot back to the parent filled in. */
  function InitNeighbors(parentDirection: Option<(Id, Cardinal)>): (row: Row)
    ensures forall i :: 0 <= i < 4 ==>
      row[i] == if parentDirection.Some? && i == Ordinal(parentDirection.value.1)
                then Some(parentDirection.value.0) else None
  {
    match parentDirection
    case Some((pdx, North)) => [Some(pdx), None, None, None]
    case Some((pdx, East)) => [None, Some(pdx), None, None]
    case Some((pdx, South)) => [None, None, Some(pdx), None]
    case Some((pdx, West)) => [None, None, None, Some(pdx)]
    case None => [None, None, None, None]
  }

  /** The accumulator of the neighbour fold: the row being filled, the
      fresh-number counter, the parent map, the queue and the finish mark. */
  datatype Scan = Scan(row: Row, nxt: Id, path: map<Id, Id>, toVisit: seq<Id>, finish: Option<Id>)

  /** One step of the fold over `DIR_ARR`, for slot `idx`: an empty slot is
      peeked; an open or finish neighbour gets the next fresh number and a
      parent entry, an open one is queued (unless already visited), a wall
      leaves the slot empty. */
  function ScanSlot<P>(robot: Robot<P>, pos: P, location: Id, visited: set<Id>, s: Scan, idx: nat): Scan
    requires idx < 4
  {
    if s.row[idx].Some? then s
    else
      var neighbor := s.nxt;
      match robot.peek(pos, CardDirArr[idx])
      case Open =>
        var s' := s.(nxt := neighbor + 1, row := s.row[idx := Some(neighbor)]);
        if neighbor !in visited then s'.(path := s.path[neighbor := location], toVisit := s.toVisit + [neighbor])
        else s'
      case Finish =>
        s.(nxt := neighbor + 1, finish := Some(neighbor), row := s.row[idx := Some(neighbor)],
           path := s.path[neighbor := location])
      case Wall => s
  }

  /** The fold over the first `n` slots. */
  function ScanFold<P>(robot: Robot<P>, pos: P, location: Id, visited: set<Id>, s0: Scan, n: nat): Scan
    requires n <= 4
  {
    if n == 0 then s0 else ScanSlot(robot, pos, location, visited, ScanFold(robot, pos, location, visited, s0, n - 1), n - 1)
  }

  /** The fold starts from the pre-seeded row, the current counter, parent map and queue. */
  ghost predicate ScanStart(s0: Scan, visited: set<Id>)
  {
    && s0.finish.None?
    && (forall v :: v in visited ==> v < s0.nxt)
    && (forall k :: k in s0.path ==> k < s0.nxt)
    && (forall i :: 0 <= i < |s0.toVisit| ==> s0.toVisit[i] < s0.nxt)
    && (forall i :: 0 <= i < 4 && s0.row[i].Some? ==> s0.row[i].value < s0.nxt)
  }

  /** One step touches only slot `idx`, and hands out a number exactly when
      that slot was empty and the peek saw no wall. */
  lemma ScanSlotEffect<P>(robot: Robot<P>, pos: P, location: Id, visited: set<Id>, s: Scan, idx: nat)
    requires idx < 4
    ensures var t := ScanSlot(robot, pos, location, visited, s, idx);
      && (forall i :: 0 <= i < 4 && i != idx ==> t.row[i] == s.row[i])
      && (s.row[idx].Some? ==> t == s)
      && (s.row[idx].None? ==> (t.row[idx].None? <==> robot.peek(pos, CardDirArr[idx]) == Wall))
      && (t.row[idx].None? ==> t.nxt == s.nxt)
      && s.nxt <= t.nxt
      && (s.row[idx].None? && t.row[idx].Some? ==> t.row[idx].value == s.nxt && t.nxt == s.nxt + 1)
      && (t.toVisit == s.toVisit || (t.toVisit == s.toVisit + [s.nxt] && t.nxt == s.nxt + 1))
  {
  }

  lemma IncreasingSnoc(t: seq<Id>, x: Id)
    requires Increasing(t)
    requires forall k :: 0 <= k < |t| ==> t[k] < x
    ensures Increasing(t + [x])
  {
  }

  /** The slots: pre-seeded slots are kept, an empty slot stays empty exactly
      at a wall, and the numbers handed out are fresh. */
  lemma {:induction false} ScanRows<P>(robot: Robot<P>, pos: P, location: Id, visited: set<Id>, s0: Scan, n: nat)
    requires n <= 4
    ensures var s := ScanFold(robot, pos, location, visited, s0, n);
      && s0.nxt <= s.nxt
      && (forall i :: n <= i < 4 ==> s.row[i] == s0.row[i])
      && (forall i :: 0 <= i < n && s0.row[i].Some? ==> s.row[i] == s0.row[i])
      && (forall i :: 0 <= i < n && s0.row[i].None? ==> (s.row[i].None? <==> robot.peek(pos, CardDirArr[i]) == Wall))
      && (forall i :: 0 <= i < n && s0.row[i].None? && s.row[i].Some? ==> s0.nxt <= s.row[i].value < s.nxt)
  {
    if n > 0 {
      ScanRows(robot, pos, location, visited, s0, n - 1);
      ScanSlotEffect(robot, pos, location, visited, ScanFold(robot, pos, location, visited, s0, n - 1), n - 1);
    }
  }

  /** The numbers handed out rise in slot order, so no two slots share one. */
  lemma {:induction false} ScanOrder<P>(robot: Robot<P>, pos: P, location: Id, visited: set<Id>, s0: Scan, n: nat)
    requires n <= 4
    ensures var s := ScanFold(robot, pos, location, visited, s0, n);
      forall i, j :: 0 <= i < j < n && s0.row[i].None? && s0.row[j].None? && s.row[i].Some? && s.row[j].Some? ==>
        s.row[i].value < s.row[j].value
  {
    if n > 0 {
      ScanOrder(robot, pos, location, visited, s0, n - 1);
      ScanRows(robot, pos, location, visited, s0, n - 1);
      ScanSlotEffect(robot, pos, location, visited, ScanFold(robot, pos, location, visited, s0, n - 1), n - 1);
    }
  }

  /** The parent map: old entries are kept, and every fresh number gets the
      current cell as parent and stands in one of its slots. */
  lemma {:induction false} ScanParents<P>(robot: Robot<P>, pos: P, location: Id, visited: set<Id>, s0: Scan, n: nat)
    requires n <= 4
    requires ScanStart(s0, visited)
    ensures var s := ScanFold(robot, pos, location, visited, s0, n);
      && (forall k :: k in s.path <==> k in s0.path || s0.nxt <= k < s.nxt)
      && (forall k :: k in s0.path ==> s.path[k] == s0.path[k])
      && (forall k :: s0.nxt <= k < s.nxt ==> s.path[k] == location && Some(k) in s.row[..n])
  {
    if n > 0 {
      ScanParents(robot, pos, location, visited, s0, n - 1);
      ScanRows(robot, pos, location, visited, s0, n - 1);
      ParentsStep(robot, pos, location, visited, s0, ScanFold(robot, pos, location, visited, s0, n - 1), n - 1);
    }
  }

  /** One step of the fold keeps the facts of `ScanParents`. */
  lemma ParentsStep<P>(robot: Robot<P>, pos: P, location: Id, visited: set<Id>, s0: Scan, prev: Scan, idx: nat)
    requires idx < 4
    requires ScanStart(s0, visited) && s0.nxt <= prev.nxt
    requires forall k :: k in prev.path <==> k in s0.path || s0.nxt <= k < prev.nxt
    requires forall k :: k in s0.path ==> prev.path[k] == s0.path[k]
    requires forall k :: s0.nxt <= k < prev.nxt ==> prev.path[k] == location && Some(k) in prev.row[..idx]
    ensures var s := ScanSlot(robot, pos, location, visited, prev, idx);
      && (forall k :: k in s.path <==> k in s0.path || s0.nxt <= k < s.nxt)
      && (forall k :: k in s0.path ==> s.path[k] == s0.path[k])
      && (forall k :: s0.nxt <= k < s.nxt ==> s.path[k] == location && Some(k) in s.row[..idx + 1])
  {
    var s := ScanSlot(robot, pos, location, visited, prev, idx);
    ScanSlotEffect(robot, pos, location, visited, prev, idx);
    forall k | s0.nxt <= k < s.nxt
      ensures Some(k) in s.row[..idx + 1]
    {
      if k < prev.nxt {
        assert Some(k) in prev.row[..idx];
        var i :| 0 <= i < idx && prev.row[..idx][i] == Some(k);
        assert s.row[..idx + 1][i] == Some(k);
      } else {
        assert s.row[..idx + 1][idx] == Some(k);
      }
    }
  }

  /** The queue: the old queue is a prefix, and the appended numbers are
      fresh and rising. */
  lemma {:induction false} ScanQueue<P>(robot: Robot<P>, pos: P, location: Id, visited: set<Id>, s0: Scan, n: nat)
    requires n <= 4
    requires ScanStart(s0, visited)
    ensures var s := ScanFold(robot, pos, location, visited, s0, n);
      && |s0.toVisit| <= |s.toVisit| && s.toVisit[..|s0.toVisit|] == s0.toVisit
      && Increasing(s.toVisit[|s0.toVisit|..])
      && (forall k :: |s0.toVisit| <= k < |s.toVisit| ==> s0.nxt <= s.toVisit[k] < s.nxt)
  {
    if n > 0 {
      ScanQueue(robot, pos, location, visited, s0, n - 1);
      ScanRows(robot, pos, location, visited, s0, n - 1);
      QueueStep(robot, pos, location, visited, s0, ScanFold(robot, pos, location, visited, s0, n - 1), n - 1);
    }
  }

  /** One step of the fold keeps the facts of `ScanQueue`. */
  lemma QueueStep<P>(robot: Robot<P>, pos: P, location: Id, visited: set<Id>, s0: Scan, prev: Scan, idx: nat)
    requires idx < 4 && s0.nxt <= prev.nxt
    requires |s0.toVisit| <= |prev.toVisit| && prev.toVisit[..|s0.toVisit|] == s0.toVisit
    requires Increasing(prev.toVisit[|s0.toVisit|..])
    requires forall k :: |s0.toVisit| <= k < |prev.toVisit| ==> s0.nxt <= prev.toVisit[k] < prev.nxt
    ensures var s := ScanSlot(robot, pos, location, visited, prev, idx);
      && |s0.toVisit| <= |s.toVisit| && s.toVisit[..|s0.toVisit|] == s0.toVisit
      && Increasing(s.toVisit[|s0.toVisit|..])
      && (forall k :: |s0.toVisit| <= k < |s.toVisit| ==> s0.nxt <= s.toVisit[k] < s.nxt)
  {
    ScanSlotEffect(robot, pos, location, visited, prev, idx);
    var s := ScanSlot(robot, pos, location, visited, prev, idx);
    QueueGrow(s0.toVisit, prev.toVisit, s0.nxt, prev.nxt, s.toVisit, s.nxt);
  }

  /** A queue that keeps its prefix `q0` and a rising tail of numbers in
      [lo, hi) keeps both when it is left alone or gets `hi` appended. */
  lemma QueueGrow(q0: seq<Id>, q: seq<Id>, lo: Id, hi: Id, q': seq<Id>, hi': Id)
    requires lo <= hi
    requires |q0| <= |q| && q[..|q0|] == q0 && Increasing(q[|q0|..])
    requires forall k :: |q0| <= k < |q| ==> lo <= q[k] < hi
    requires (q' == q && hi <= hi') || (q' == q + [hi] && hi' == hi + 1)
    ensures |q0| <= |q'| && q'[..|q0|] == q0 && Increasing(q'[|q0|..])
    ensures forall k :: |q0| <= k < |q'| ==> lo <= q'[k] < hi'
  {
    if q' != q {
      var m := |q0|;
      var tail := q[m..];
      assert q'[..m] == q[..m];
      assert q'[m..] == tail + [hi];
      forall k | 0 <= k < |tail| ensures tail[k] < hi {
        assert tail[k] == q[m + k];
      }
      IncreasingSnoc(tail, hi);
      forall k | m <= k < |q'| ensures lo <= q'[k] < hi' {
        if k < |q| {
          assert q'[k] == q[k];
        }
      }
    }
  }

  /** Every number in the queue after the fold is below the counter. */
  lemma QueueBelowCounter<P>(robot: Robot<P>, pos: P, location: Id, visited: set<Id>, s0: Scan, n: nat)
    requires n <= 4
    requires ScanStart(s0, visited)
    ensures var s := ScanFold(robot, pos, location, visited, s0, n);
      forall k :: 0 <= k < |s.toVisit| ==> s.toVisit[k] < s.nxt
  {
    ScanQueue(robot, pos, location, visited, s0, n);
    ScanRows(robot, pos, location, visited, s0, n);
    var s := ScanFold(robot, pos, location, visited, s0, n);
    forall k | 0 <= k < |s.toVisit| ensures s.toVisit[k] < s.nxt {
      if k < |s0.toVisit| {
        assert s.toVisit[k] == s.toVisit[..|s0.toVisit|][k];
      }
    }
  }

  /** An empty slot's new number is queued exactly when the peek saw an open cell. */
  lemma {:induction false} ScanQueuesOpen<P>(robot: Robot<P>, pos: P, location: Id, visited: set<Id>, s0: Scan, n: nat)
    requires n <= 4
    requires ScanStart(s0, visited)
    ensures var s := ScanFold(robot, pos, location, visited, s0, n);
      forall i :: 0 <= i < n && s0.row[i].None? && s.row[i].Some? ==>
        (s.row[i].value in s.toVisit <==> robot.peek(pos, CardDirArr[i]) == Open)
  {
    if n > 0 {
      ScanQueuesOpen(robot, pos, location, visited, s0, n - 1);
      ScanRows(robot, pos, location, visited, s0, n - 1);
      QueueBelowCounter(robot, pos, location, visited, s0, n - 1);
      var prev := ScanFold(robot, pos, location, visited, s0, n - 1);
      ScanSlotEffect(robot, pos, location, visited, prev, n - 1);
      var s := ScanFold(robot, pos, location, visited, s0, n);
      assert s.toVisit == prev.toVisit || s.toVisit == prev.toVisit + [prev.nxt];
    }
  }

  /** The finish mark is only set by a finish neighbour, whose number is in the
      row and not in the queue. */
  lemma {:induction false} ScanFinish<P>(robot: Robot<P>, pos: P, location: Id, visited: set<Id>, s0: Scan, n: nat)
    requires n <= 4
    requires ScanStart(s0, visited)
    ensures var s := ScanFold(robot, pos, location, visited, s0, n);
      && (s.finish.Some? ==> Some(s.finish.value) in s.row[..n] && s0.nxt <= s.finish.value < s.nxt
                               && s.finish.value !in s.toVisit)
      && ((forall i :: 0 <= i < n && s0.row[i].None? ==> robot.peek(pos, CardDirArr[i]) != Finish) ==> s.finish.None?)
  {
    if n > 0 {
      ScanFinish(robot, pos, location, visited, s0, n - 1);
      ScanRows(robot, pos, location, visited, s0, n - 1);
      QueueBelowCounter(robot, pos, location, visited, s0, n - 1);
      var prev := ScanFold(robot, pos, location, visited, s0, n - 1);
      var s := ScanFold(robot, pos, location, visited, s0, n);
      if s.finish.Some? {
        if s.finish == prev.finish {
          var i :| 0 <= i < n - 1 && prev.row[..n - 1][i] == s.finish;
          assert s.row[..n][i] == s.finish;
        } else {
          assert s.row[..n][n - 1] == s.finish;
        }
      }
    }
  }

  /** The fold over `DIR_ARR` that fills the empty slots of `init` (the
      closure's updates of the counter, the parent map and the queue are
      updates of the method's outputs). */
  method ScanNeighbors<P>(robot: Robot<P>, pos: P, location: Id, init: Row, nxt: Id, visited: set<Id>,
                          path: map<Id, Id>, toVisit: seq<Id>)
    returns (row: Row, nxt': Id, path': map<Id, Id>, toVisit': seq<Id>, finish: Option<Id>)
    ensures Scan(row, nxt', path', toVisit', finish)
            == ScanFold(robot, pos, location, visited, Scan(init, nxt, path, toVisit, None), 4)
  {
    row, nxt', path', toVisit', finish := init, nxt, path, toVisit, None;
    for idx := 0 to 4
      invariant Scan(row, nxt', path', toVisit', finish)
                == ScanFold(robot, pos, location, visited, Scan(init, nxt, path, toVisit, None), idx)
    {
      if row[idx].None? {
        var direction := CardDirArr[idx];
        match robot.peek(pos, direction) {
          case Open =>
            var neighbor := nxt';
            nxt' := nxt' + 1;
            row := row[idx := Some(neighbor)];
            if neighbor !in visited {
              path' := path'[neighbor := location];
              toVisit' := toVisit' + [neighbor];
            }
          case Finish =>
            var neighbor := nxt';
            nxt' := nxt' + 1;
            finish := Some(neighbor);
            row := row[idx := Some(neighbor)];
            path' := path'[neighbor := location];
          case Wall =>
        }
      }
    }
  }

  // ---------------------------------------------------------------------------
  // The visit of one cell, and what it keeps true
  // ---------------------------------------------------------------------------

  /** The fold's starting point for the head of the queue: the row with the
      parent slot filled in, the counter, the parent map and the rest of the queue. */
  function VisitStart(e: Engine): Scan
    requires e.toVisit != []
  {
    Scan(InitNeighbors(ParentDirection(e.graph, e.path, e.toVisit[0])), e.nxt, e.path, e.toVisit[1..], None)
  }

  /** The engine once the head of the queue is visited and the fold over its
      neighbours has ended in `s`. */
  function Visited(e: Engine, s: Scan): Engine
    requires e.toVisit != []
  {
    var cell := e.toVisit[0];
    Engine(s.nxt, s.toVisit, e.visited + {cell}, e.graph[cell := s.row], s.path, cell)
  }

  /** The state after visiting the head of the queue with the robot standing on it. */
  function AfterVisit<P>(robot: Robot<P>, pos: P, e: Engine): Engine
    requires e.toVisit != []
  {
    var cell := e.toVisit[0];
    Visited(e, ScanFold(robot, pos, cell, e.visited + {cell}, VisitStart(e), 4))
  }

  /** What the fold over all four slots leaves behind, gathered from
      `ScanRows`, `ScanOrder`, `ScanParents` and `ScanQueue`. */
  ghost predicate Scanned<P>(robot: Robot<P>, pos: P, location: Id, s0: Scan, s: Scan)
  {
    && s0.nxt <= s.nxt
    && (forall i :: 0 <= i < 4 && s0.row[i].Some? ==> s.row[i] == s0.row[i])
    && (forall i :: 0 <= i < 4 && s0.row[i].None? ==> (s.row[i].None? <==> robot.peek(pos, CardDirArr[i]) == Wall))
    && (forall i :: 0 <= i < 4 && s0.row[i].None? && s.row[i].Some? ==> s0.nxt <= s.row[i].value < s.nxt)
    && (forall i, j :: 0 <= i < j < 4 && s0.row[i].None? && s0.row[j].None? && s.row[i].Some? && s.row[j].Some? ==>
          s.row[i].value < s.row[j].value)
    && (forall k :: k in s.path <==> k in s0.path || s0.nxt <= k < s.nxt)
    && (forall k :: k in s0.path ==> s.path[k] == s0.path[k])
    && (forall k :: s0.nxt <= k < s.nxt ==> s.path[k] == location && Some(k) in s.row)
    && |s0.toVisit| <= |s.toVisit| && s.toVisit[..|s0.toVisit|] == s0.toVisit
    && Increasing(s.toVisit[|s0.toVisit|..])
    && (forall k :: |s0.toVisit| <= k < |s.toVisit| ==> s0.nxt <= s.toVisit[k] < s.nxt)
  }

  lemma ScanAll<P>(robot: Robot<P>, pos: P, location: Id, visited: set<Id>, s0: Scan)
    requires ScanStart(s0, visited)
    ensures Scanned(robot, pos, location, s0, ScanFold(robot, pos, location, visited, s0, 4))
  {
    ScanRows(robot, pos, location, visited, s0, 4);
    ScanOrder(robot, pos, location, visited, s0, 4);
    ScanParents(robot, pos, location, visited, s0, 4);
    ScanQueue(robot, pos, location, visited, s0, 4);
    var s := ScanFold(robot, pos, location, visited, s0, 4);
    assert s.row[..4] == s.row;
  }

  /** Where the new numbers of a row are: one step from `pos` in their slot's direction. */
  ghost function Place<P>(robot: Robot<P>, pos: P, posMap: map<Id, P>, init: Row, row: Row, n: nat): map<Id, P>
    requires n <= 4
  {
    if n == 0 then posMap
    else
      var m := Place(robot, pos, posMap, init, row, n - 1);
      if init[n - 1].None? && row[n - 1].Some? then m[row[n - 1].value := StepOr(robot, pos, CardDirArr[n - 1])] else m
  }

  lemma {:induction false} PlaceFacts<P>(robot: Robot<P>, pos: P, posMap: map<Id, P>, init: Row, row: Row, nxt: Id, n: nat)
    requires n <= 4
    requires forall i :: 0 <= i < 4 && init[i].None? && row[i].Some? ==> nxt <= row[i].value
    requires forall i, j :: 0 <= i < j < 4 && init[i].None? && init[j].None? && row[i].Some? && row[j].Some? ==>
               row[i].value < row[j].value
    ensures var m := Place(robot, pos, posMap, init, row, n);
      && (forall k :: k in posMap && k < nxt ==> k in m && m[k] == posMap[k])
      && (forall i :: 0 <= i < n && init[i].None? && row[i].Some? ==>
            row[i].value in m && m[row[i].value] == StepOr(robot, pos, CardDirArr[i]))
  {
    if n > 0 {
      PlaceFacts(robot, pos, posMap, init, row, nxt, n - 1);
    }
  }

  /** The queue head is a cell not yet visited; the pre-seeded row points back
      to its parent, whose row holds it. */
  lemma HeadFacts(e: Engine)
    requires Inv(e) && e.toVisit != []
    ensures var cell := e.toVisit[0];
      && Queued(e, cell)
      && (forall i :: 1 <= i < |e.toVisit| ==> cell < e.toVisit[i])
      && (cell == 0 <==> e.visited == {})
      && (cell != 0 ==> ParentDirection(e.graph, e.path, cell).Some?)
      && (forall i :: 0 <= i < |e.toVisit| - 1 ==> e.toVisit[1..][i] < e.nxt)
      && ScanStart(VisitStart(e), e.visited + {cell})
  {
    var cell := e.toVisit[0];
    assert Queued(e, cell);
    var rest := e.toVisit[1..];
    forall i | 0 <= i < |rest| ensures rest[i] < e.nxt {
      assert rest[i] == e.toVisit[i + 1] && Queued(e, e.toVisit[i + 1]);
    }
  }

  /** Visiting keeps the bookkeeping facts about numbers, parents and the queue. */
  lemma VisitKeepsNumbering<P>(robot: Robot<P>, pos: P, e: Engine, s: Scan)
    requires Inv(e) && e.toVisit != [] && Scanned(robot, pos, e.toVisit[0], VisitStart(e), s)
    ensures var e' := Visited(e, s);
      && 0 < e'.nxt
      && e'.graph.Keys == e'.visited
      && (forall v :: v in e'.visited ==> v < e'.nxt)
      && ParentsDecrease(e'.path)
      && (forall c :: c in e'.path ==> 0 < c < e'.nxt && e'.path[c] in e'.visited)
      && (if e'.visited == {} then e' == Start else 0 in e'.visited && e'.location in e'.visited)
      && (forall k :: k in e.path ==> k in e'.path && e'.path[k] == e.path[k])
  {
    HeadFacts(e);
  }

  /** Visiting keeps every row made of tree edges and every non-start row pointing to its parent. */
  lemma VisitKeepsRows<P>(robot: Robot<P>, pos: P, e: Engine, s: Scan)
    requires Inv(e) && e.toVisit != [] && Scanned(robot, pos, e.toVisit[0], VisitStart(e), s)
    ensures var e' := Visited(e, s);
      && (forall c :: c in e'.visited && c != 0 ==> c in e'.path && c in e'.graph && Some(e'.path[c]) in e'.graph[c])
      && (forall c, i :: c in e'.graph && 0 <= i < 4 && e'.graph[c][i].Some? ==> TreeEdge(e'.path, c, e'.graph[c][i].value))
  {
    var cell := e.toVisit[0];
    HeadFacts(e);
    var pd := ParentDirection(e.graph, e.path, cell);
    var init := VisitStart(e).row;
    var e' := Visited(e, s);
    if cell != 0 {
      var i := Ordinal(pd.value.1);
      assert s.row[i] == Some(e.path[cell]);
    }
    forall c, i | c in e'.graph && 0 <= i < 4 && e'.graph[c][i].Some?
      ensures TreeEdge(e'.path, c, e'.graph[c][i].value)
    {
      if c != cell {
        assert TreeEdge(e.path, c, e.graph[c][i].value);
      } else if init[i].Some? {
        assert TreeEdge(e'.path, c, e'.graph[c][i].value);
      }
    }
  }

  lemma IncreasingAppend(a: seq<Id>, b: seq<Id>, bound: Id)
    requires Increasing(a) && Increasing(b)
    requires forall k :: 0 <= k < |a| ==> a[k] < bound
    requires forall k :: 0 <= k < |b| ==> bound <= b[k]
    ensures Increasing(a + b)
  {
  }

  /** Visiting keeps the queue rising: the new numbers exceed everything queued before. */
  lemma VisitKeepsQueueRising<P>(robot: Robot<P>, pos: P, e: Engine, s: Scan)
    requires Inv(e) && e.toVisit != [] && Scanned(robot, pos, e.toVisit[0], VisitStart(e), s)
    ensures Increasing(Visited(e, s).toVisit)
  {
    HeadFacts(e);
    var rest := e.toVisit[1..];
    assert Increasing(rest);
    RisingAfter(rest, s.toVisit, e.nxt);
  }

  /** A rising queue below `bound`, followed by rising numbers from `bound` on, is rising. */
  lemma RisingAfter(rest: seq<Id>, q: seq<Id>, bound: Id)
    requires Increasing(rest) && forall k :: 0 <= k < |rest| ==> rest[k] < bound
    requires |rest| <= |q| && q[..|rest|] == rest && Increasing(q[|rest|..])
    requires forall k :: |rest| <= k < |q| ==> bound <= q[k]
    ensures Increasing(q)
  {
    var added := q[|rest|..];
    assert q == rest + added;
    forall k | 0 <= k < |added| ensures bound <= added[k] {
      assert added[k] == q[|rest| + k];
    }
    IncreasingAppend(rest, added, bound);
  }

  /** Visiting keeps every queued cell numbered, unvisited and in its parent's row. */
  lemma VisitKeepsQueued<P>(robot: Robot<P>, pos: P, e: Engine, s: Scan)
    requires Inv(e) && e.toVisit != [] && Scanned(robot, pos, e.toVisit[0], VisitStart(e), s)
    ensures var e' := Visited(e, s);
      forall i :: 0 <= i < |e'.toVisit| ==> Queued(e', e'.toVisit[i])
  {
    HeadFacts(e);
    var rest := e.toVisit[1..];
    var e' := Visited(e, s);
    forall i | 0 <= i < |e'.toVisit| ensures Queued(e', e'.toVisit[i]) {
      var q := e'.toVisit[i];
      if i < |rest| {
        assert q == e'.toVisit[..|rest|][i] == e.toVisit[i + 1];
        assert Queued(e, q);
      } else {
        assert e.nxt <= q < e'.nxt;
      }
    }
  }

  /** The invariant of the discovery loop survives one visit. */
  lemma VisitKeepsInv<P>(robot: Robot<P>, pos: P, e: Engine, s: Scan)
    requires Inv(e) && e.toVisit != [] && Scanned(robot, pos, e.toVisit[0], VisitStart(e), s)
    ensures Inv(Visited(e, s))
  {
    VisitKeepsNumbering(robot, pos, e, s);
    VisitKeepsRows(robot, pos, e, s);
    VisitKeepsQueueRising(robot, pos, e, s);
    VisitKeepsQueued(robot, pos, e, s);
  }

  /** Every number in a row is below the counter. */
  lemma RowsBelowCounter(e: Engine)
    requires Inv(e)
    ensures forall c, i :: c in e.graph && 0 <= i < 4 && e.graph[c][i].Some? ==> e.graph[c][i].value < e.nxt
  {
    forall c, i | c in e.graph && 0 <= i < 4 && e.graph[c][i].Some?
      ensures e.graph[c][i].value < e.nxt
    {
      assert TreeEdge(e.path, c, e.graph[c][i].value);
    }
  }

  /** A coherent robot steps back along the edge it came by. */
  lemma StepBack<P(!new)>(robot: Robot<P>, ok: P -> bool, from: P, to: P, d: Cardinal)
    requires Coherent(robot, ok) && ok(from)
    requires robot.go(from, d) == Some(to)
    ensures ok(to) && robot.go(to, Reverse(d)) == Some(from)
  {
  }

  /** A coherent robot can take every step its peek shows open. */
  lemma StepForward<P(!new)>(robot: Robot<P>, ok: P -> bool, from: P, d: Cardinal)
    requires Coherent(robot, ok) && ok(from)
    requires robot.peek(from, d) != Wall
    ensures robot.go(from, d) == Some(StepOr(robot, from, d)) && ok(StepOr(robot, from, d))
  {
  }

  /** The scan's facts about the row of the visited cell, gathered. */
  lemma VisitRow<P>(robot: Robot<P>, pos: P, e: Engine, s: Scan)
    requires Inv(e) && e.toVisit != [] && Scanned(robot, pos, e.toVisit[0], VisitStart(e), s)
    ensures e.toVisit[0] < e.nxt && e.toVisit[0] !in e.graph
    ensures forall c :: c in e.graph ==> Visited(e, s).graph[c] == e.graph[c]
    ensures var cell := e.toVisit[0];
      var pd := ParentDirection(e.graph, e.path, cell);
      var init := InitNeighbors(pd);
      forall i :: 0 <= i < 4 && init[i].Some? ==>
        pd.Some? && i == Ordinal(pd.value.1) && s.row[i] == Some(e.path[cell]) && e.path[cell] < e.nxt
        && e.graph[e.path[cell]][Ordinal(Reverse(pd.value.1))] == Some(cell)
    ensures var init := VisitStart(e).row;
      forall i :: 0 <= i < 4 && init[i].None? && s.row[i].Some? ==>
        robot.peek(pos, CardDirArr[i]) != Wall && e.nxt <= s.row[i].value
    ensures var init := VisitStart(e).row;
      forall i, j :: 0 <= i < j < 4 && init[i].None? && init[j].None? && s.row[i].Some? && s.row[j].Some? ==>
        s.row[i].value < s.row[j].value
    ensures forall k :: e.nxt <= k < s.nxt ==> Some(k) in s.row
    ensures var init := VisitStart(e).row;
      forall i :: 0 <= i < 4 && s.row[i].Some? && e.nxt <= s.row[i].value ==> init[i].None?
  {
    HeadFacts(e);
    var cell := e.toVisit[0];
    var pd := ParentDirection(e.graph, e.path, cell);
    var init := VisitStart(e).row;
    assert init == InitNeighbors(pd);
    if pd.Some? {
      assert e.path[cell] in e.visited;
      forall i | 0 <= i < 4 && init[i].Some?
        ensures i == Ordinal(pd.value.1) && s.row[i] == Some(e.path[cell])
      {
        assert s.row[i] == init[i];
      }
    }
  }

  /** With a coherent robot, the places of all cells stay consistent with the rows after a visit. */
  lemma VisitKeepsLocated<P(!new)>(robot: Robot<P>, pos: P, e: Engine, s: Scan, ok: P -> bool, posMap: map<Id, P>)
    requires Inv(e) && e.toVisit != [] && Scanned(robot, pos, e.toVisit[0], VisitStart(e), s)
    requires Coherent(robot, ok) && Located(e, robot, ok, posMap)
    requires e.toVisit[0] in posMap && pos == posMap[e.toVisit[0]]
    ensures var cell := e.toVisit[0];
      var m := Place(robot, pos, posMap, VisitStart(e).row, s.row, 4);
      Located(Visited(e, s), robot, ok, m) && cell in m && m[cell] == pos
  {
    VisitRow(robot, pos, e, s);
    PlaceFacts(robot, pos, posMap, VisitStart(e).row, s.row, e.nxt, 4);
    VisitPlacesCells(robot, pos, e, s, ok, posMap);
    VisitPlacesEdges(robot, pos, e, s, ok, posMap);
  }

  /** After a visit every numbered cell has a standable place. */
  lemma VisitPlacesCells<P(!new)>(robot: Robot<P>, pos: P, e: Engine, s: Scan, ok: P -> bool, posMap: map<Id, P>)
    requires Inv(e) && e.toVisit != [] && Scanned(robot, pos, e.toVisit[0], VisitStart(e), s)
    requires Coherent(robot, ok) && Located(e, robot, ok, posMap)
    requires e.toVisit[0] in posMap && pos == posMap[e.toVisit[0]]
    ensures var m := Place(robot, pos, posMap, VisitStart(e).row, s.row, 4);
      forall id: Id :: id < s.nxt ==> id in m && ok(m[id])
  {
    var init := VisitStart(e).row;
    VisitRow(robot, pos, e, s);
    var row := s.row;
    var m := Place(robot, pos, posMap, init, row, 4);
    PlaceFacts(robot, pos, posMap, init, row, e.nxt, 4);
    assert ok(pos);
    forall id: Id | id < s.nxt ensures id in m && ok(m[id]) {
      if e.nxt <= id {
        assert Some(id) in row;
        var i :| 0 <= i < 4 && row[i] == Some(id);
        StepForward(robot, ok, pos, CardDirArr[i]);
      }
    }
  }

  /** After a visit every slot of every row is a step between the places of its two cells. */
  lemma VisitPlacesEdges<P(!new)>(robot: Robot<P>, pos: P, e: Engine, s: Scan, ok: P -> bool, posMap: map<Id, P>)
    requires Inv(e) && e.toVisit != [] && Scanned(robot, pos, e.toVisit[0], VisitStart(e), s)
    requires Coherent(robot, ok) && Located(e, robot, ok, posMap)
    requires e.toVisit[0] in posMap && pos == posMap[e.toVisit[0]]
    ensures var e' := Visited(e, s);
      var m := Place(robot, pos, posMap, VisitStart(e).row, s.row, 4);
      forall c, i :: c in e'.graph && 0 <= i < 4 && e'.graph[c][i].Some? ==>
        c in m && e'.graph[c][i].value in m &&
        robot.go(m[c], CardDirArr[i]) == Some(m[e'.graph[c][i].value])
  {
    var cell := e.toVisit[0];
    var pd := ParentDirection(e.graph, e.path, cell);
    var init := VisitStart(e).row;
    VisitRow(robot, pos, e, s);
    RowsBelowCounter(e);
    var e' := Visited(e, s);
    var row := s.row;
    var m := Place(robot, pos, posMap, init, row, 4);
    PlaceFacts(robot, pos, posMap, init, row, e.nxt, 4);
    forall c, i | c in e'.graph && 0 <= i < 4 && e'.graph[c][i].Some?
      ensures c in m && e'.graph[c][i].value in m
      ensures robot.go(m[c], CardDirArr[i]) == Some(m[e'.graph[c][i].value])
    {
      var v := e'.graph[c][i].value;
      if c != cell {
        assert e'.graph[c] == e.graph[c];
        assert m[c] == posMap[c] && m[v] == posMap[v];
      } else if init[i].Some? {
        var p := e.path[cell];
        var d := Reverse(pd.value.1);
        ReverseInvolution(pd.value.1);
        assert robot.go(posMap[p], d) == Some(posMap[cell]);
        StepBack(robot, ok, posMap[p], posMap[cell], d);
      } else {
        StepForward(robot, ok, pos, CardDirArr[i]);
      }
    }
  }


  /** `visited.insert(cell)` up to `graph.insert(cell, neighbors)`: the visit
      of the cell at the head of the queue, the robot standing on it. */
  method Visit<P(!new)>(robot: Robot<P>, pos: P, e: Engine, ghost ok: P -> bool, ghost posMap: map<Id, P>)
    returns (e': Engine, ghost posMap': map<Id, P>)
    requires Inv(e) && e.toVisit != []
    ensures e' == AfterVisit(robot, pos, e)
    ensures Inv(e')
    ensures e'.location == e.toVisit[0] && e.toVisit[0] !in e.visited && e'.visited == e.visited + {e.toVisit[0]}
    ensures Coherent(robot, ok) && Located(e, robot, ok, posMap) && e.toVisit[0] in posMap && pos == posMap[e.toVisit[0]] ==>
              Located(e', robot, ok, posMap') && e'.location in posMap' && pos == posMap'[e'.location]
  {
    var cell := e.toVisit[0];
    var toVisit := e.toVisit[1..];
    var location := cell;
    var visited := e.visited + {cell};
    var parentDirection := ParentDirection(e.graph, e.path, location);
    var init := InitNeighbors(parentDirection);
    var neighbors, nxt, path, toVisit', finish := ScanNeighbors(robot, pos, location, init, e.nxt, visited, e.path, toVisit);
    var graph := e.graph[cell := neighbors];
    e' := Engine(nxt, toVisit', visited, graph, path, location);
    posMap' := Place(robot, pos, posMap, init, neighbors, 4);
    HeadFacts(e);
    ghost var s := Scan(neighbors, nxt, path, toVisit', finish);
    ScanAll(robot, pos, cell, visited, VisitStart(e));
    VisitKeepsInv(robot, pos, e, s);
    if Coherent(robot, ok) && Located(e, robot, ok, posMap) && cell in posMap && pos == posMap[cell] {
      VisitKeepsLocated(robot, pos, e, s, ok, posMap);
    }
  }

  // ---------------------------------------------------------------------------
  // Navigation inside a running engine
  // ---------------------------------------------------------------------------

  /** Parent chains end at the start cell 0. */
  lemma {:induction false} ChainReachesStart(e: Engine, c: Id)
    requires Inv(e)
    requires c in e.visited || c in e.path
    ensures Ancestor(e.path, 0, c)
    decreases c
  {
    if c != 0 {
      if c in e.visited {
        assert c in e.path;
      }
      ChainReachesStart(e, e.path[c]);
    }
  }

  /** Inside the engine the walk from a visited cell to a queued one either
      succeeds, exactly when the target's parent is on the chain above the
      robot's cell, or runs up to the start and fails there for lack of a
      parent, unless the robot refuses a step. With a coherent robot it never
      refuses, and a successful walk leaves it at the target's place. */
  lemma {:induction false} NavigateInEngine<P(!new)>(robot: Robot<P>, pos: P, e: Engine, loc: Id, target: Id,
                                                    ok: P -> bool, posMap: map<Id, P>)
    requires Inv(e) && e.visited != {}
    requires loc in e.visited && Queued(e, target)
    ensures target != 0 && target in e.path
    ensures var res := Navigate(robot, pos, e.graph, e.path, loc, target).0;
      || (res.Err? && res.error.MoveFailed?)
      || res == (if Ancestor(e.path, e.path[target], loc) then Ok(target) else Err(NoParent(0)))
    ensures Coherent(robot, ok) && Located(e, robot, ok, posMap) && loc in posMap && pos == posMap[loc] ==>
      var (res, pos') := Navigate(robot, pos, e.graph, e.path, loc, target);
      && res == (if Ancestor(e.path, e.path[target], loc) then Ok(target) else Err(NoParent(0)))
      && (res.Ok? ==> target in posMap && pos' == posMap[target])
    decreases loc
  {
    assert 0 in e.visited;
    var p := e.path[target];
    var row := e.graph[loc];
    var located := Coherent(robot, ok) && Located(e, robot, ok, posMap) && loc in posMap && pos == posMap[loc];
    if Some(target) in row {
      var i :| 0 <= i < 4 && row[i] == Some(target);
      assert TreeEdge(e.path, loc, target);
      var dir := FindDirectionToNeighbor(row, target).value;
      if robot.go(pos, dir).Some? {
        NavigateReachesTarget(robot, robot.go(pos, dir).value, e.graph, e.path, target, target);
      }
      if located {
        assert CardDirArr[Ordinal(dir)] == dir;
        assert robot.go(posMap[loc], dir) == Some(posMap[target]);
      }
    } else {
      assert p != loc;
      if loc != 0 {
        var q := e.path[loc];
        var dir := FindDirectionToNeighbor(row, q).value;
        if robot.go(pos, dir).Some? {
          NavigateInEngine(robot, robot.go(pos, dir).value, e, q, target, ok, posMap);
        }
        if located {
          assert CardDirArr[Ordinal(dir)] == dir;
          assert robot.go(posMap[loc], dir) == Some(posMap[q]);
        }
      }
    }
  }

  // ---------------------------------------------------------------------------
  // find_solution_bfs
  // ---------------------------------------------------------------------------

  /** One visit keeps the loop invariant. */
  lemma AfterVisitKeepsInv<P>(robot: Robot<P>, pos: P, e: Engine)
    requires Inv(e) && e.toVisit != []
    ensures Inv(AfterVisit(robot, pos, e))
  {
    HeadFacts(e);
    var cell := e.toVisit[0];
    ScanAll(robot, pos, cell, e.visited + {cell}, VisitStart(e));
    VisitKeepsInv(robot, pos, e, ScanFold(robot, pos, cell, e.visited + {cell}, VisitStart(e), 4));
  }

  /** What the discovery loop returns from engine state `e` with the robot in
      state `pos`, within `fuel` more iterations: the queue runs dry, the bound
      is reached, or the next iteration goes on. */
  function Run<P>(robot: Robot<P>, pos: P, e: Engine, fuel: nat): Result<(Id, Id, map<Id, Row>, map<Id, Id>), BfsError>
    requires Inv(e)
    decreases fuel, 1
  {
    if e.toVisit == [] then Err(NoSolution)
    else if fuel == 0 then Err(OutOfFuel)
    else RunFrom(robot, pos, e, fuel)
  }

  /** One iteration: the walk to the head of the queue; when it fails the loop
      ends with its error, otherwise the head is visited and the loop goes on. */
  function RunFrom<P>(robot: Robot<P>, pos: P, e: Engine, fuel: nat): Result<(Id, Id, map<Id, Row>, map<Id, Id>), BfsError>
    requires Inv(e) && e.toVisit != [] && 0 < fuel
    decreases fuel, 0
  {
    var (nav, pos') := Navigate(robot, pos, e.graph, e.path, e.location, e.toVisit[0]);
    if nav.Err? then Err(nav.error)
    else
      AfterVisitKeepsInv(robot, pos', e);
      Run(robot, pos', AfterVisit(robot, pos', e), fuel - 1)
  }

  /** The loop starts in a state that meets its invariant. */
  lemma StartInv()
    ensures Inv(Start)
  {
  }

  /** The whole discovery loop, from the start cell with the robot in state `start`. */
  function Explore<P>(robot: Robot<P>, start: P, fuel: nat): Result<(Id, Id, map<Id, Row>, map<Id, Id>), BfsError>
  {
    StartInv();
    Run(robot, start, Start, fuel)
  }

  /** The loop never returns a solution: it ends with `NoSolution`,
      `OutOfFuel`, a refused step, or `NoParent(0)` when the walk to the head
      of the queue climbs to the start without meeting the head's parent. */
  lemma {:induction false} RunErrors<P(!new)>(robot: Robot<P>, pos: P, e: Engine, fuel: nat)
    requires Inv(e)
    ensures Run(robot, pos, e, fuel).Err?
    ensures var err := Run(robot, pos, e, fuel).error;
      err in {NoSolution, OutOfFuel, NoParent(0)} || err.MoveFailed?
    decreases fuel
  {
    if e.toVisit != [] && fuel > 0 {
      var (nav, pos') := Navigate(robot, pos, e.graph, e.path, e.location, e.toVisit[0]);
      if e.visited == {} {
        NavigateReachesTarget(robot, pos, e.graph, e.path, e.location, e.toVisit[0]);
      } else {
        NavigateInEngine(robot, pos, e, e.location, e.toVisit[0], (p: P) => true, map[]);
      }
      if nav.Ok? {
        AfterVisitKeepsInv(robot, pos', e);
        RunErrors(robot, pos', AfterVisit(robot, pos', e), fuel - 1);
      }
    }
  }

  /** `n` iterations of the loop from state `e` with the robot in `pos`, each
      a walk to the head of the queue that succeeds followed by its visit,
      ending in state `e'` with the robot in `pos'`. */
  ghost predicate Iterations<P>(robot: Robot<P>, pos: P, e: Engine, n: nat, pos': P, e': Engine)
    decreases n, 1
  {
    if n == 0 then pos == pos' && e == e' else IterationsFrom(robot, pos, e, n, pos', e')
  }

  /** The first of `n > 0` iterations, then the rest. */
  ghost predicate IterationsFrom<P>(robot: Robot<P>, pos: P, e: Engine, n: nat, pos': P, e': Engine)
    requires 0 < n
    decreases n, 0
  {
    && e.toVisit != [] && ParentsDecrease(e.path)
    && var (nav, p) := Navigate(robot, pos, e.graph, e.path, e.location, e.toVisit[0]);
       nav == Ok(e.toVisit[0]) && Iterations(robot, p, AfterVisit(robot, p, e), n - 1, pos', e')
  }

  /** A walk to the head of the queue that succeeds, its visit, then `n`
      more iterations make `n + 1` iterations. */
  lemma IterationsCons<P>(robot: Robot<P>, pos: P, e: Engine, p: P, e1: Engine, n: nat, pos': P, e': Engine)
    requires e.toVisit != [] && ParentsDecrease(e.path)
    requires Navigate(robot, pos, e.graph, e.path, e.location, e.toVisit[0]) == (Ok(e.toVisit[0]), p)
    requires e1 == AfterVisit(robot, p, e) && Iterations(robot, p, e1, n, pos', e')
    ensures Iterations(robot, pos, e, n + 1, pos', e')
  {
  }

  /** Iterations keep the invariant, and the loop goes on from where they end,
      with that much less of the bound. */
  lemma {:induction false} RunIterations<P>(robot: Robot<P>, pos: P, e: Engine, n: nat, fuel: nat, pos': P, e': Engine)
    requires Inv(e) && Iterations(robot, pos, e, n, pos', e') && n <= fuel
    ensures Inv(e')
    ensures Run(robot, pos, e, fuel) == Run(robot, pos', e', fuel - n)
    decreases n
  {
    if n > 0 {
      var (nav, p) := Navigate(robot, pos, e.graph, e.path, e.location, e.toVisit[0]);
      AfterVisitKeepsInv(robot, p, e);
      RunIterations(robot, p, AfterVisit(robot, p, e), n - 1, fuel - 1, pos', e');
    }
  }

  /** After `n` successful iterations from `e0` the loop ends as the state
      reached decides: an empty queue gives `NoSolution`, a used-up bound
      `OutOfFuel`, and a failing walk to the head of the queue its error. */
  lemma RunAfter<P>(robot: Robot<P>, pos0: P, e0: Engine, n: nat, fuel: nat, pos: P, e: Engine)
    requires Inv(e0) && n <= fuel && Iterations(robot, pos0, e0, n, pos, e)
    ensures Inv(e)
    ensures e.toVisit == [] ==> Run(robot, pos0, e0, fuel) == Err(NoSolution)
    ensures e.toVisit != [] && n == fuel ==> Run(robot, pos0, e0, fuel) == Err(OutOfFuel)
    ensures e.toVisit != [] && n < fuel && ParentsDecrease(e.path) &&
            Navigate(robot, pos, e.graph, e.path, e.location, e.toVisit[0]).0.Err? ==>
              Run(robot, pos0, e0, fuel) == Err(Navigate(robot, pos, e.graph, e.path, e.location, e.toVisit[0]).0.error)
  {
    RunIterations(robot, pos0, e0, n, fuel, pos, e);
  }

  /** `RunAfter` for runs from the start cell. */
  lemma ExploreAfter<P>(robot: Robot<P>, start: P, n: nat, fuel: nat, pos: P, e: Engine)
    requires n <= fuel && Iterations(robot, start, Start, n, pos, e)
    ensures Inv(e)
    ensures e.toVisit != [] && n < fuel && ParentsDecrease(e.path) &&
            Navigate(robot, pos, e.graph, e.path, e.location, e.toVisit[0]).0.Err? ==>
              Explore(robot, start, fuel) == Err(Navigate(robot, pos, e.graph, e.path, e.location, e.toVisit[0]).0.error)
  {
    StartInv();
    RunAfter(robot, start, Start, n, fuel, pos, e);
  }

  /** `find_solution_bfs`, with an iteration bound `fuel` (the model does not
      prove that the source loop ends). The finish mark the scan computes is never read,
      so no run ends in `Ok`: the queue runs dry, the bound is reached, or the
      walk to the next cell fails. That walk can only fail at the start cell,
      for lack of a parent entry, or because the robot refused a step, which a
      coherent robot, started on a standable state, never does. */
  method FindSolutionBfs<P(!new)>(robot: Robot<P>, start: P, fuel: nat, ghost ok: P -> bool)
    returns (r: Result<(Id, Id, map<Id, Row>, map<Id, Id>), BfsError>)
    ensures r.Err?
    ensures r.error in {NoSolution, OutOfFuel, NoParent(0)} || r.error.MoveFailed?
    ensures Coherent(robot, ok) && ok(start) ==> !r.error.MoveFailed?
  {
    var e := Start;
    var pos := start;
    ghost var posMap: map<Id, P> := map[0 := start];
    var steps := fuel;
    ghost var coherent := Coherent(robot, ok) && ok(start);
    while e.toVisit != []
      invariant Inv(e)
      invariant coherent ==> Located(e, robot, ok, posMap) && e.location in posMap && pos == posMap[e.location]
      decreases steps
    {
      if steps == 0 {
        return Err(OutOfFuel);
      }
      steps := steps - 1;
      var cell := e.toVisit[0];
      var nav, pos' := NavigateBfs(robot, pos, e.location, cell, e.graph, e.path);
      if e.visited == {} {
        NavigateReachesTarget(robot, pos, e.graph, e.path, e.location, cell);
      } else {
        NavigateInEngine(robot, pos, e, e.location, cell, ok, posMap);
      }
      if nav.Err? {
        return Err(nav.error);
      }
      pos := pos';
      e, posMap := Visit(robot, pos, e, ok, posMap);
    }
    return Err(NoSolution);
  }
}
