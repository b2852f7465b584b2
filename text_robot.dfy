/**
 * The text maze as the robot the discovery engine drives: its state is the
 * index the robot stands on, `peek` is `look_dir` and `go` is `move_dir`
 * (src/text_maze/maze_impl.rs).
 */
module TextRobot {
  import opened Wrappers
  import opened Direction
  import opened Cells
  import opened TextCells
  import opened TextMazes
  import opened Bfs

  /** The robot over the text `chars` with rows `width` characters wide. */
  function MazeRobot(chars: seq<char>, width: nat): Robot<nat>
  {
    Robot((p: nat, d: Cardinal) => CellAt(chars, PosnInDir(chars, width, p, d)),
          (p: nat, d: Cardinal) =>
            if CellAt(chars, PosnInDir(chars, width, p, d)) != Wall then PosnInDir(chars, width, p, d) else None)
  }

  /** An index the robot can stand on: inside the text and not a wall. */
  ghost predicate Standable(chars: seq<char>, p: nat)
  {
    p < |chars| && Classify(chars[p]) != Wall
  }

  /** The maze object and the robot agree: `look_dir` is `peek`, and `move_dir`
      succeeds exactly when `go` does, landing where `go` lands. */
  lemma RobotMatchesMaze(m: TextMaze, d: Cardinal)
    ensures m.LookDir(d) == MazeRobot(m.chars, m.width).peek(m.loc, d)
    ensures MazeRobot(m.chars, m.width).go(m.loc, d).Some? <==> m.LookDir(d) != Wall
    ensures MazeRobot(m.chars, m.width).go(m.loc, d).Some? ==>
              MazeRobot(m.chars, m.width).go(m.loc, d) == PosnInDir(m.chars, m.width, m.loc, d)
  {
  }

  /** Every text maze is a coherent robot: a step the peek shows open can be
      taken, it lands on a standable index, and the reverse step leads back. */
  lemma MazeRobotCoherent(chars: seq<char>, width: nat)
    ensures Coherent(MazeRobot(chars, width), (p: nat) => Standable(chars, p))
  {
    var robot := MazeRobot(chars, width);
    forall p: nat, d: Cardinal | Standable(chars, p) && robot.go(p, d).Some?
      ensures Standable(chars, robot.go(p, d).value) && robot.go(robot.go(p, d).value, Reverse(d)) == Some(p)
    {
      StepReversible(chars, width, p, d);
    }
  }

  /** A parsed maze starts the robot on a standable index. */
  lemma StartStandable(m: TextMaze)
    requires m.Valid()
    ensures Standable(m.chars, m.loc)
  {
  }

  // ---------------------------------------------------------------------------
  // A maze with a cycle: the two-by-two open block
  // ---------------------------------------------------------------------------

  /** Two lines of two open cells, the start at the top left (index 0). */
  const Block: seq<char> := "S \n  "

  /** The engine after visiting 0: 1 (index 1) east and 2 (index 3) south are queued. */
  const BlockFirst: Engine :=
    Engine(3, [1, 2], {0}, map[0 := [None, Some(1), Some(2), None]], map[1 := 0, 2 := 0], 0)

  /** After visiting 1: index 4, south of it, is numbered 3 and queued. */
  const BlockSecond: Engine :=
    Engine(4, [2, 3], {0, 1}, BlockFirst.graph[1 := [None, None, Some(3), Some(0)]], BlockFirst.path[3 := 1], 1)

  /** After visiting 2: the same index 4, east of it, is numbered again, as 4, and queued. */
  const BlockThird: Engine :=
    Engine(5, [3, 4], {0, 1, 2}, BlockSecond.graph[2 := [Some(0), Some(4), None, None]], BlockSecond.path[4 := 2], 2)

  /** What the robot sees on the block: index 2 is the line break, and steps
      off the text are walls. */
  lemma BlockPeeks()
    ensures var robot := MazeRobot(Block, 2);
      && robot.peek(0, North) == Wall && robot.peek(0, East) == Open
      && robot.peek(0, South) == Open && robot.peek(0, West) == Wall
      && robot.peek(1, North) == Wall && robot.peek(1, East) == Wall
      && robot.peek(1, South) == Open
      && robot.peek(3, East) == Open && robot.peek(3, South) == Wall
      && robot.peek(3, West) == Wall
      && robot.go(0, East) == Some(1) && robot.go(0, South) == Some(3)
      && robot.go(1, West) == Some(0) && robot.go(3, North) == Some(0)
  {
    assert |Block| == 5 && Block[0] == 'S' && Block[1] == ' ' && Block[2] == '\n' && Block[3] == ' ' && Block[4] == ' ';
  }

  /** Visiting 0 numbers its east neighbour 1 and its south neighbour 2. */
  lemma BlockVisitFirst()
    ensures AfterVisit(MazeRobot(Block, 2), 0, Start) == BlockFirst
  {
    var robot := MazeRobot(Block, 2);
    BlockPeeks();
    var v := Start.visited + {0};
    assert v == {0};
    var s0 := VisitStart(Start);
    assert s0 == Scan([None, None, None, None], 1, map[], [], None);
    assert ScanFold(robot, 0, 0, v, s0, 1) == s0;
    assert ScanFold(robot, 0, 0, v, s0, 2) == Scan([None, Some(1), None, None], 2, map[1 := 0], [1], None);
    assert ScanFold(robot, 0, 0, v, s0, 3) == Scan([None, Some(1), Some(2), None], 3, map[1 := 0, 2 := 0], [1, 2], None);
  }

  /** Visiting 1: its parent 0 lies west, and the cell south of it is numbered 3. */
  lemma BlockVisitSecond()
    ensures AfterVisit(MazeRobot(Block, 2), 1, BlockFirst) == BlockSecond
  {
    var robot := MazeRobot(Block, 2);
    BlockPeeks();
    var v := BlockFirst.visited + {1};
    assert v == {0, 1};
    var s0 := VisitStart(BlockFirst);
    assert FindDirectionToNeighbor(BlockFirst.graph[0], 1) == Some(East);
    assert ParentDirection(BlockFirst.graph, BlockFirst.path, 1) == Some((0, West));
    assert s0 == Scan([None, None, None, Some(0)], 3, BlockFirst.path, [2], None);
    assert ScanFold(robot, 1, 1, v, s0, 2) == s0;
    assert ScanFold(robot, 1, 1, v, s0, 3) == Scan([None, None, Some(3), Some(0)], 4, BlockSecond.path, [2, 3], None);
  }

  /** Visiting 2: its parent 0 lies north, and the cell east of it, the one
      already numbered 3, is numbered 4. */
  lemma BlockVisitThird()
    ensures AfterVisit(MazeRobot(Block, 2), 3, BlockSecond) == BlockThird
  {
    var robot := MazeRobot(Block, 2);
    BlockPeeks();
    var v := BlockSecond.visited + {2};
    assert v == {0, 1, 2};
    var s0 := VisitStart(BlockSecond);
    assert FindDirectionToNeighbor(BlockSecond.graph[0], 2) == Some(South);
    assert ParentDirection(BlockSecond.graph, BlockSecond.path, 2) == Some((0, North));
    assert s0 == Scan([Some(0), None, None, None], 4, BlockSecond.path, [3], None);
    assert ScanFold(robot, 3, 2, v, s0, 1) == s0;
    assert ScanFold(robot, 3, 2, v, s0, 2) == Scan([Some(0), Some(4), None, None], 5, BlockThird.path, [3, 4], None);
    assert ScanFold(robot, 3, 2, v, s0, 3) == ScanFold(robot, 3, 2, v, s0, 2);
  }

  /** The first walk: the robot already stands on the start cell 0, ... */
  lemma BlockFirstWalk()
    ensures Navigate(MazeRobot(Block, 2), 0, Start.graph, Start.path, 0, 0) == (Ok(0), 0)
  {
  }

  /** ... the second goes east from 0 to 1 at index 1, ... */
  lemma BlockSecondWalk()
    ensures Navigate(MazeRobot(Block, 2), 0, BlockFirst.graph, BlockFirst.path, 0, 1) == (Ok(1), 1)
  {
    BlockPeeks();
    assert FindDirectionToNeighbor(BlockFirst.graph[0], 1) == Some(East);
  }

  /** ... and the third goes from 1 west to its parent 0, then south to 2 at index 3. */
  lemma BlockThirdWalk()
    ensures Navigate(MazeRobot(Block, 2), 1, BlockSecond.graph, BlockSecond.path, 1, 2) == (Ok(2), 3)
  {
    BlockPeeks();
    assert FindDirectionToNeighbor(BlockSecond.graph[1], 0) == Some(West);
    assert FindDirectionToNeighbor(BlockSecond.graph[0], 2) == Some(South);
  }

  /** The walk to 3 climbs from 2 to its parent 0, finds 3 in no slot of 0's
      row, and stops there for lack of a parent entry. */
  lemma BlockLastWalk()
    ensures Navigate(MazeRobot(Block, 2), 3, BlockThird.graph, BlockThird.path, 2, 3) == (Err(NoParent(0)), 0)
  {
    BlockPeeks();
    assert FindDirectionToNeighbor(BlockThird.graph[2], 0) == Some(North);
    assert Navigate(MazeRobot(Block, 2), 0, BlockThird.graph, BlockThird.path, 0, 3) == (Err(NoParent(0)), 0);
  }

  /** The third visit: from 2, through 0, to 3 at index 2, ... */
  lemma BlockThirdIteration()
    ensures Iterations(MazeRobot(Block, 2), 1, BlockSecond, 1, 3, BlockThird)
  {
    var robot := MazeRobot(Block, 2);
    BlockThirdWalk();
    BlockVisitThird();
    assert Iterations(robot, 3, BlockThird, 0, 3, BlockThird);
    IterationsCons(robot, 1, BlockSecond, 3, BlockThird, 0, 3, BlockThird);
  }

  /** ... after the second visit, of 1 at index 1, ... */
  lemma BlockSecondIteration()
    ensures Iterations(MazeRobot(Block, 2), 0, BlockFirst, 2, 3, BlockThird)
  {
    var robot := MazeRobot(Block, 2);
    BlockSecondWalk();
    BlockVisitSecond();
    BlockThirdIteration();
    IterationsCons(robot, 0, BlockFirst, 1, BlockSecond, 1, 3, BlockThird);
  }

  /** ... after the first, of the start cell 0 at index 0. */
  lemma BlockThreeIterations()
    ensures Iterations(MazeRobot(Block, 2), 0, Start, 3, 3, BlockThird)
  {
    var robot := MazeRobot(Block, 2);
    BlockFirstWalk();
    BlockVisitFirst();
    BlockSecondIteration();
    IterationsCons(robot, 0, Start, 0, BlockFirst, 2, 3, BlockThird);
  }

  /** On the block the discovery loop ends in `NoParent(0)` after three
      visits, with 3 and 4 still queued: the cell at index 4 was numbered
      twice, once from each of its two neighbours, so 3 is not a child of any
      cell on the way up from 2. */
  lemma BlockStopsAtStart(fuel: nat)
    requires fuel >= 4
    ensures Explore(MazeRobot(Block, 2), 0, fuel) == Err(NoParent(0))
    ensures Iterations(MazeRobot(Block, 2), 0, Start, 3, 3, BlockThird) && BlockThird.toVisit == [3, 4]
  {
    BlockThreeIterations();
    BlockLastWalk();
    ExploreAfter(MazeRobot(Block, 2), 0, 3, fuel, 3, BlockThird);
  }
}
