# maze-robot, modelled in Dafny

This project models the core of maze-robot, a robot that explores a maze it
cannot see. The robot can only peek one step in a compass direction and step
one cell at a time. The model covers these parts:

- **The breadth-first discovery engine** (`Bfs`, src/bfs.rs).
  - It numbers every sighted cell with a fresh id; the start is 0.
  - It records a row of four neighbour slots for each visited cell, and for each sighted cell the cell it was sighted from.
  - It walks the robot from cell to cell by climbing parent links.
  - The robot is an abstract pair of functions `peek` and `go` over robot states.
- **The text-grid environment** (`TextCells`, `TextMazes`, `TextRobot`; src/text_maze/).
  - It parses a maze text into characters, a start and a row width.
  - It does the index arithmetic of one step.
  - It covers `look_dir`, `move_dir` and the `Display` with the robot marked `X`.
  - `TextRobot` turns a text maze into a robot for the engine.
- **The older text-grid draft** (`LegacyMaze`, src/maze.rs): its constructor fold, the bounds arithmetic of `get_loc_in_dir_from` with its tabulated cases, the character map and the error conversion.
- **The direction algebra** (`Direction`; src/direction.rs, src/direction/cardinal.rs, src/direction/relative.rs): reversal, the ordinal encoding and relative turns.
- **The recursive depth-first traversal over degree-4 rows** (`Solution`, src/solution.rs).
  - Its visitor is a function of the keys it was handed before.
  - The two test graphs are computed out to their visit orders.
- **The integer tokenizer** (`Tokenizer`, src/lang/tokenizer.rs).
  - It is a cursor and error-flag state machine over the anchored pattern `-?[0-9]+`.
  - The model also covers draining the tokenizer into a `Result` of tokens.

`Wrappers` holds `Option` and `Result`. `Cells` holds the `Cell` enum shared by all mazes.

Where the source mutates state, the model does too:

- the text maze's `loc` is a field of a class;
- the tokenizer's cursor and flag are fields of a class;
- the discovery loop, the neighbour fold, `navigate_bfs`, `dfs_helper`, the parse fold and `TextMaze::new` are loops.

Each of these methods is proved against a function that defines its result. The properties are proved about those functions.

## Model

| member | source | states |
|---|---|---|
| Direction.Reverse | src/direction.rs:11-20 | the reverse is never the direction itself and lies two quarter turns away |
| Direction.ReverseRelative | src/direction.rs:22-31 | the relative reverse is never the direction itself and lies two turns away |
| Direction.ReverseInvolution | src/direction.rs:12-19 | reversing a cardinal direction twice gives it back |
| Direction.ReverseRelativeInvolution | src/direction.rs:23-30 | reversing a relative direction twice gives it back |
| Direction.Ordinal | src/direction/cardinal.rs:13-22 | the ordinal is below 4 and indexes the direction in CARD_DIR_ARR |
| Direction.Turn | src/direction/relative.rs:3-16 | the amount added for a relative turn is below 4 and indexes it in REL_DIR_ARR |
| Direction.FromRelative | src/direction/cardinal.rs:31-49 | the ordinal of the result is the sum of the ordinal and the turn, modulo 4 |
| Direction.OrdinalInjective | src/direction/cardinal.rs:13-22 | two directions with the same ordinal are equal |
| Direction.ForwardKeepsHeading | src/direction/cardinal.rs:35 | turning Forward keeps the heading |
| Direction.BackwardIsReverse | src/direction/cardinal.rs:39 | turning Backward is the cardinal reverse |
| Direction.RightThenLeft | src/direction/cardinal.rs:37-48 | a right turn then a left turn, or the other way round, restores the heading |
| Direction.ReverseCommutesWithTurn | src/direction/cardinal.rs:31-49 | turning by the reversed relative direction reverses the resulting heading |
| TextCells.FromChar | src/text_maze/cell_impl.rs:12-19 | 'F' is Finish; '+' and the line break are Wall; every other character is Open, each as an if-and-only-if |
| TextCells.WrapUnwrap | src/text_maze/cell_impl.rs:22-33 | wrapping and unwrapping a cell are inverse to each other |
| TextMazes.PosnInDir | src/text_maze/maze_impl.rs:22-62 | a step from an index inside the text stays inside it |
| TextMazes.StepReversible | src/text_maze/maze_impl.rs:22-62 | every step that exists is undone by the step in the reverse direction |
| TextMazes.RectangularCoordinates | src/text_maze/maze_impl.rs:22-62 | in a rectangular text the line of an index is its quotient by the row length plus one, the column its remainder |
| TextMazes.NorthKeepsColumn | src/text_maze/maze_impl.rs:24-31 | on a rectangular grid North reaches the same column one line up |
| TextMazes.SouthKeepsColumn | src/text_maze/maze_impl.rs:32-41 | on a rectangular grid South reaches the same column one line down |
| TextMazes.SidewaysKeepsLine | src/text_maze/maze_impl.rs:42-60 | on a rectangular grid a non-wall East or West step stays on the line and moves the column by one |
| TextMazes.Fold | src/text_maze/maze_impl.rs:93-115 | the fold over the characters succeeds exactly when every line break after the first passes the modulo test, failing with the unequal-lines error; on success it yields the text, the last 'S' and the first line break |
| TextMazes.FoldRect | src/text_maze/maze_impl.rs:93-115 | the corrected fold succeeds exactly when every character after the first line break is a line break precisely at the end of a row of the first line's width, and yields what the fold as written yields |
| TextMazes.Scan | src/text_maze/maze_impl.rs:92-129 | the parse fold succeeds exactly on texts with an 'S' whose later line breaks pass the modulo test; it names the error otherwise; on success it keeps the text, the last 'S' and the first line break (or the length) as the width |
| TextMazes.RaggedLinesAccepted | src/text_maze/maze_impl.rs:100-109 | a text with a line longer than the first passes the parser's test, and North from that line's end stays on the same line |
| TextMazes.ScanRect | src/text_maze/maze_impl.rs:92-129 | the corrected parse succeeds exactly on rectangular texts with an 'S', and yields the same start and width |
| TextMazes.Marked | src/text_maze/maze_impl.rs:132-148 | the display has the length of the text, 'X' at the robot's index and the text's character everywhere else |
| TextMazes.TextMaze.LookDir | src/text_maze/maze_impl.rs:66-71 | Wall exactly when the neighbouring index is missing or holds '+' or a line break; Finish exactly when it holds 'F' |
| TextMazes.TextMaze.MoveDir | src/text_maze/maze_impl.rs:73-86 | the move succeeds exactly when the look in that direction is not Wall, and then stands on the neighbouring index; a failed move leaves the position and reports the direction and the display |
| TextMazes.TryFrom | src/text_maze/maze_impl.rs:92-129 | builds a fresh maze standing on a non-wall character exactly when the text is rectangular and has an 'S', with the text, the last 'S' and the row width |
| TextRobot.RobotMatchesMaze | src/text_maze/maze_impl.rs:66-86 | the robot's peek is look_dir, and its step succeeds exactly when move_dir does and lands where move_dir lands |
| TextRobot.MazeRobotCoherent | src/text_maze/maze_impl.rs:22-86 | every text maze is a coherent robot: an open peek can be stepped into, onto a non-wall index, and the reverse step leads back |
| Bfs.FindDirectionToNeighbor | src/bfs.rs:157-173 | None exactly when no slot holds the target; otherwise the direction of the lowest slot holding it |
| Bfs.NavigateBfs | src/bfs.rs:118-155 | the walk's outcome and final robot state are those of the step-by-step definition Navigate |
| Bfs.NavigateReachesTarget | src/bfs.rs:118-155 | a successful walk returns the target, and a walk that starts at the target returns it without moving |
| Bfs.ParentDirection | src/bfs.rs:33-52 | None for the start or a cell without a recorded parent row holding it; otherwise the parent, and a direction whose reverse is the parent's slot holding the cell |
| Bfs.InitNeighbors | src/bfs.rs:54-60 | the pre-seeded row holds the parent exactly in the slot of the parent direction, and nothing else |
| Bfs.ScanNeighbors | src/bfs.rs:65-111 | the loop over DIR_ARR computes the row, counter, parent map, queue and finish mark of the fold ScanFold |
| Bfs.ScanSlotEffect | src/bfs.rs:66-110 | one slot step changes only its own slot, and hands out the current counter exactly when the slot was empty and the peek saw no wall |
| Bfs.ScanRows | src/bfs.rs:65-111 | the fold keeps pre-seeded slots, leaves an empty slot empty exactly at a wall, and gives new slots fresh numbers |
| Bfs.ScanOrder | src/bfs.rs:72-74 | numbers handed out in one row increase with the slot index |
| Bfs.ScanParents | src/bfs.rs:72-103 | the parent map gains exactly the new numbers, each with the visited cell as parent and in its row; old entries are unchanged |
| Bfs.ScanQueue | src/bfs.rs:81-83 | the queue only grows at the back, by increasing fresh numbers |
| Bfs.ScanQueuesOpen | src/bfs.rs:70-105 | a new slot's number is queued exactly when the peek saw an Open cell |
| Bfs.ScanFinish | src/bfs.rs:91-104 | the finish mark is set only by a Finish peek, to a number in the row that is not queued |
| Bfs.ScanAll | src/bfs.rs:65-111 | the fold over all four slots gives the guarantees `Scanned` gathers: pre-seeded slots kept, empty slots empty exactly at walls, fresh rising numbers, their parent entries, and a queue grown only at the back |
| Bfs.VisitKeepsNumbering | src/bfs.rs:21-113 | after a visit the rows are keyed by the visited set, every number is below the counter, parents are visited and smaller, and parent entries are written once |
| Bfs.VisitKeepsRows | src/bfs.rs:33-112 | after a visit every slot holds a child or the parent, and every non-start row holds its parent |
| Bfs.VisitKeepsQueueRising | src/bfs.rs:81-83 | after a visit the queue is still strictly increasing |
| Bfs.VisitKeepsQueued | src/bfs.rs:21-112 | after a visit every queued cell is numbered, unvisited and in its parent's row |
| Bfs.VisitKeepsInv | src/bfs.rs:21-113 | one iteration of the discovery loop preserves the loop invariant Inv |
| Bfs.RowsBelowCounter | src/bfs.rs:72-95 | every number in a row is below the counter |
| Bfs.VisitRow | src/bfs.rs:27-112 | the new row holds the parent in the pre-seeded slot and fresh, increasing numbers where the peek saw no wall, and every number handed out in the visit is in it; older rows are unchanged |
| Bfs.VisitKeepsLocated | src/bfs.rs:65-112 | with a coherent robot, every numbered cell keeps a standable place and every slot of every row stays a step the robot can take between the places of its two cells |
| Bfs.Visit | src/bfs.rs:27-112 | one visit of the queue head computes AfterVisit (the state `Visited` after the fold `ScanFold` from `VisitStart`), marks the head visited, keeps Inv, and with a coherent robot keeps the cells placed |
| Bfs.ChainReachesStart | src/bfs.rs:78-80 | parent links from any visited or sighted cell lead to the start cell 0 |
| Bfs.NavigateInEngine | src/bfs.rs:118-155 | the walk from a visited cell to a queued one succeeds exactly when the target's parent is on the chain above the current cell, and otherwise fails at 0 for lack of a parent; with a coherent robot no step is refused and a success leaves the robot at the target |
| Bfs.FindSolutionBfs | src/bfs.rs:3-116 | every run ends in an error: an empty queue, the iteration bound, no parent at the start, or a refused step, which a coherent robot never gives |
| Bfs.AfterVisitKeepsInv | src/bfs.rs:21-113 | the state after a visit of the queue head meets the loop invariant Inv again |
| Bfs.StartInv | src/bfs.rs:7-18 | the initial state (counter 1, queue [0], nothing visited, empty graph and parent map, location 0) meets Inv |
| Bfs.RunErrors | src/bfs.rs:21-115 | the loop as the function Run, built from Navigate and AfterVisit, never returns a solution: it ends with NoSolution, OutOfFuel, NoParent(0) or a refused step |
| Bfs.RunIterations | src/bfs.rs:21-113 | iterations whose walks succeed keep Inv, and the loop's outcome before them is its outcome after them with the bound reduced by their number |
| Bfs.RunAfter | src/bfs.rs:21-115 | after n successful iterations the state reached decides the outcome: an empty queue gives NoSolution, a used-up bound OutOfFuel, and a failing walk to the head of the queue that walk's error |
| Bfs.ExploreAfter | src/bfs.rs:3-115 | from the initial state, after n successful iterations, a failing walk to the head of the queue is the outcome of the whole run |
| TextRobot.BlockPeeks | src/text_maze/maze_impl.rs:66-86 | on the two-by-two open block, what look_dir sees and where move_dir goes from indices 0, 1 and 3 |
| TextRobot.BlockVisitFirst | src/bfs.rs:27-112 | visiting 0 on the block numbers its east neighbour 1 and its south neighbour 2 and queues both |
| TextRobot.BlockVisitSecond | src/bfs.rs:27-112 | visiting 1 pre-seeds 0 west of it and numbers the cell south of it (index 4) as 3 |
| TextRobot.BlockVisitThird | src/bfs.rs:27-112 | visiting 2 pre-seeds 0 north of it and numbers the same index 4, east of it, again, as 4 |
| TextRobot.BlockSecondWalk | src/bfs.rs:127-154 | the walk from 0 to 1 goes east and ends on index 1 |
| TextRobot.BlockThirdWalk | src/bfs.rs:127-154 | the walk from 1 to 2 climbs west to the parent 0, then goes south and ends on index 3 |
| TextRobot.BlockLastWalk | src/bfs.rs:134-141 | the walk from 2 to 3 climbs to 0, whose row does not hold 3, and fails there because 0 has no parent, the robot on index 0 |
| TextRobot.BlockThirdIteration | src/bfs.rs:21-112 | from the second state, the walk to 2 succeeds and its visit gives the third state |
| TextRobot.BlockSecondIteration | src/bfs.rs:21-112 | from the first state, two iterations succeed and end in the third state |
| TextRobot.BlockThreeIterations | src/bfs.rs:21-112 | from the initial state, three iterations succeed and end in the third state, with 3 and 4 queued |
| TextRobot.BlockStopsAtStart | src/bfs.rs:21-24 | on the block, with any bound of four iterations or more, the discovery loop ends in NoParent(0) after three visits while 3 and 4 are still queued |
| LegacyMaze.FromPrivate | src/maze.rs:67-76 | an out-of-bounds error keeps its direction, an invalid location becomes an unknown error with a fixed message, and it is never a navigation error |
| LegacyMaze.CellOf | src/maze.rs:121-129 | '+' is Wall, 'F' is Finish, everything else is Open, each as an if-and-only-if |
| LegacyMaze.CellOfAgreesWithTextCell | src/maze.rs:121-129 | the older map agrees with the text-cell map on every character except the line break |
| LegacyMaze.StartOf | src/maze.rs:99-101 | the start is the index of the last 'S', or 0 when there is none |
| LegacyMaze.WidthOf | src/maze.rs:103-105 | the width is the first line break after index 0, or 0 when there is none |
| LegacyMaze.New | src/maze.rs:87-118 | the fold yields the text unchanged, its start, its width and its line count |
| LegacyMaze.LineCountBreaks | src/maze.rs:93 | the height is the number of line breaks, plus one when the text is non-empty and does not end in one |
| LegacyMaze.LocInDirFrom | src/maze.rs:135-186 | per direction, the exact out-of-bounds conditions as if-and-only-ifs and the index reached; every error is OutOfBounds of the direction asked |
| LegacyMaze.StepUndone | src/maze.rs:135-186 | a step from a non-break index is undone by the opposite step |
| LegacyMaze.StepInside | src/maze.rs:135-186 | a step from inside the text stays inside it |
| LegacyMaze.LookUpCases | src/maze.rs:225-239 | the tabulated Up cases |
| LegacyMaze.LookDownCases | src/maze.rs:241-255 | the tabulated Down cases |
| LegacyMaze.LookRightCases | src/maze.rs:257-271 | the tabulated Right cases |
| LegacyMaze.LookLeftCases | src/maze.rs:273-287 | the tabulated Left cases |
| Solution.FromPairsLookup | src/solution.rs:130-140 | the graph has exactly the keys of the pairs, each with the row of its last pair |
| Solution.Somes | src/solution.rs:119-124 | the filter keeps exactly the Some entries and never lengthens the row |
| Solution.SomesAppend | src/solution.rs:119-124 | the filter keeps slot order: it distributes over concatenation |
| Solution.GetNeighbors | src/solution.rs:113-127 | fails exactly for a key without a row; otherwise yields exactly the neighbours in its row |
| Solution.DfsHelper | src/solution.rs:49-68 | the recursive helper's result, keys handed to the visitor and visited set are those of DfsFrom |
| Solution.Dfs | src/solution.rs:39-47 | the traversal is DfsFrom from an empty visited set; the root is handed over first and no key twice |
| Solution.DfsFacts | src/solution.rs:49-68 | the helper only appends to the trace, starting with its key; it hands out only unvisited keys and no key twice, and on success all of them are marked |
| Solution.DfsAnswers | src/solution.rs:56-64 | on success the visitor accepted every key; on failure it accepted all but the last, and the error is its answer to the last key or that key's missing row |
| Solution.ChainGraphOrder | src/solution.rs:146-170 | the chain test graph is traversed in the order 0, 3, 2, 1 |
| Solution.CycleGraphOrder | src/solution.rs:172-197 | the cyclic test graph is traversed in the order 0, 3, 2, 1, 4 |
| Tokenizer.ValueDigits | src/lang/tokenizer.rs:59 | the decimal value of the digits of a number is the number |
| Tokenizer.MatchInt | src/lang/tokenizer.rs:65-70 | the match is the longest prefix of the form -?[0-9]+, and None exactly when no prefix has that form |
| Tokenizer.ParseIsize | src/lang/tokenizer.rs:59 | a parsed value lies in the range of a 64-bit isize |
| Tokenizer.Show | src/lang/tokenizer.rs:59 | the decimal form of an integer matches the Int pattern |
| Tokenizer.ParseShow | src/lang/tokenizer.rs:59 | every isize parses back from its decimal form |
| Tokenizer.TokenFrom | src/lang/tokenizer.rs:55-63 | returns normally exactly for matcher 0 and a text that parses as an isize, giving its value; panics otherwise |
| Tokenizer.TakeFrom | src/lang/tokenizer.rs:72-86 | nothing exactly when the matcher fails, a panic exactly when the match overflows isize, and otherwise the token of the match and its length |
| Tokenizer.TakeShown | src/lang/tokenizer.rs:72-86 | an isize in decimal, followed by a non-digit or nothing, is taken whole with its own value |
| Tokenizer.NextStep | src/lang/tokenizer.rs:117-140 | nothing, with the state unchanged, after an error or at the end; a token is the longest `-?[0-9]+` match at the cursor, with its value, and the cursor moves past exactly that match; an error, Invalid at the unmoved cursor and setting the flag, comes exactly when nothing matches; a panic comes exactly when the end lies past the text or the match overflows `isize` |
| Tokenizer.ErrorIsLast | src/lang/tokenizer.rs:131-137 | after a call yields an error, the next call yields nothing |
| Tokenizer.TokenIter.New | src/lang/tokenizer.rs:96-103 | the iterator starts at cursor 0 without error, over the given text and end |
| Tokenizer.TokenIter.From | src/lang/tokenizer.rs:106-112 | the iterator runs over the whole text, from cursor 0 without error |
| Tokenizer.TokenIter.Next | src/lang/tokenizer.rs:117-140 | the call's result and new cursor and flag are those of NextStep |
| Tokenizer.RunErrorLast | src/lang/tokenizer.rs:117-140 | draining the iterator yields at most one error, and only as the last item |
| Tokenizer.Collect | src/lang/tokenizer.rs:165-174 | collecting gives all the tokens when every item is one, otherwise the first error |
| Tokenizer.CollectAfter | src/lang/tokenizer.rs:165-174 | collecting after tokens already gathered keeps them in front |
| Tokenizer.CollectTokens | src/lang/tokenizer.rs:24-26 | draining the iterator over a text gives the collection of everything it yields, or a panic |
| Tokenizer.TokenizeOne | src/lang/tokenizer.rs:165-174 | tokenizing "1" yields exactly the token Int(1) |

## Left out

- Tracing output (`println!`), the anyhow context messages of src/bfs.rs and every `Display` of an error are I/O and formatting only. The errors keep only their kind and their data.
- Bfs.FindSolutionBfs: bounded by an iteration count `fuel`, returning `OutOfFuel` when the count is used up, because the model does not prove that the source loop ends. A cell on a cycle is numbered again from each of its neighbours. On the two-by-two open block the walk to the first such copy climbs to 0, and the loop stops there with `NoParent(0)` while cells are still queued (TextRobot.BlockStopsAtStart). A robot with unboundedly many states, such as an endless corridor, queues a fresh cell at every visit, and there the bound is what ends the run.
- Bfs.FindSolutionBfs: its contract states the possible outcomes, not that it returns `Explore`'s value. Explore, the loop as the function Run over Navigate and AfterVisit, is built from what NavigateBfs and Visit are proved to compute, and RunErrors and the block lemmas are stated about it. A loop invariant tying the method to Run exceeded the verifier's resource bound.
- Bfs.NavigateBfs: requires recorded parents to be smaller than their children. In the discovery loop this always holds (`Inv`), but a caller could hand the source a parent map with a cycle, and the source walk would then not end.
- Bfs.FindSolutionBfs: the tuple the source would return on success is kept as a type only, because the function never returns `Ok`.
- The robot (`Robot<M>`, src/text_maze/robot_impl.rs, src/controller/) is the abstract pair `peek` and `go` over a robot state passed by value. Its `RefCell` sharing and dynamic dispatch are not modelled.
- `peek` and `go` must be consistent with each other (`Coherent`) before navigation is proved never to be refused. The engine itself does not assume it.
- LegacyMaze: `look_direction`, `move_direction`, `get_value`, `get_location` and `set_location` (src/maze.rs:31-45, 188-198) are left out. The last three are unimplemented (`todo!()`), and the first two only call them.
- LegacyMaze: the older `Display` (src/maze.rs:201-217) is left out. It is string formatting only.
- LegacyMaze.New: the source counts lines with `str::lines`, which also strips a carriage return before a line break. That changes line contents, not their count, so only the count is modelled.
- TextMazes.TryFrom: builds the maze with the corrected line test of `ScanRect` (see Findings). The parse as written is `TextMazes.Scan`.
- TextMazes.PosnInDir: its own contract states only that the step stays inside the text. The exact index per direction is stated by StepReversible and the grid lemmas instead.
- `render_path_bfs`, `render_solution`, `find_solution` and `MazeSolver::get_neighbors` in src/solution.rs are unimplemented (`todo!()`).
- The files src/dfs.rs, src/robot.rs, src/graph.rs, src/graph-old.rs, src/lang/parser.rs, src/lang.rs, src/fun_tools/ and src/main.rs are not part of this model. They are unfinished drafts, declarations only, or command-line and file I/O.
- Solution: the visitor is a pure function of the keys handed to it before and the key. A visitor's other side effects are outside the model.
- Solution.GetNeighbors: it returns the missing-key error as a value, which `dfs_helper` propagates. The source draft does not compile at this point; this reading follows its `?`.
- Tokenizer: texts are taken to be ASCII, so the source's mix of character counts and byte offsets agrees. `isize` is taken to be 64 bits wide.
- Tokenizer: the regex engine is replaced by the single pattern `-?[0-9]+`, written out by hand.
- Tokenizer: a panic (an out-of-range literal, or an `end` past the text) is the explicit outcome `Panic`. The panic message is not modelled.
- Integer widths: `usize` arithmetic in the mazes and the engine is unbounded in the model. Indices into a text never come near the limit.

## Findings

| source | as written | input that shows it | evidently intended | confidence | as-written member | corrected member |
|---|---|---|---|---|---|---|
| src/text_maze/maze_impl.rs:100-109 | a text passes when each later line break `i` has `(i + 1) % (width + 1) == 0`, so a line may be a multiple of the first line's length plus one character longer, and the last line's length is never checked | `"S \n  +  \n  "`: the second line is five characters wide, the first two; North from index 7 lands on index 4 of the same line | every line has the width of the first, as the error message "all lines with equal lengths" says | not executed | TextMazes.Scan, TextMazes.RaggedLinesAccepted | TextMazes.ScanRect |
