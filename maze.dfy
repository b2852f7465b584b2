/**
 * The older text-grid maze (src/maze.rs).
 *
 * `TextMaze::new` folds over the characters of the text, keeping them in
 * order and noting the start (the last `S`) and the row width (the first
 * line break seen while the width is still 0); the height is the number of
 * lines of the text. `get_loc_in_dir_from` is index arithmetic on the text,
 * with line breaks as the right-hand and left-hand borders of a row.
 */
module LegacyMaze {
  import opened Wrappers
  import opened Cells
  import TextCells
  import TextMazes

  /** This file's own direction type, in the order Up, Right, Down, Left. */
  datatype Direction = Up | Right | Down | Left

  /** The public error type. */
  datatype MazeError =
    | DirectionOutOfBounds(dir: Direction)
    | NavigationError(dir: Direction)
    | UnknownError(message: string)

  /** The error type of the index arithmetic, over the index type. */
  datatype PrivateMazeError =
    | OutOfBounds(dir: Direction)
    | LocationInvalid(loc: nat)

  const LocationMessage: string := "Error occurred while working with current location."

  /** `MazeError::from`: an out-of-bounds direction keeps its direction, an
      invalid location becomes an unknown error with a fixed message. */
  function FromPrivate(e: PrivateMazeError): (r: MazeError)
    ensures r.DirectionOutOfBounds? <==> e.OutOfBounds?
    ensures e.OutOfBounds? ==> r.dir == e.dir
    ensures e.LocationInvalid? ==> r == UnknownError(LocationMessage)
    ensures !r.NavigationError?
  {
    match e
    case LocationInvalid(_) => UnknownError(LocationMessage)
    case OutOfBounds(d) => DirectionOutOfBounds(d)
  }

  /** `Into<Cell> for char`. */
  function CellOf(c: char): (cell: Cell)
    ensures cell == Wall <==> c == '+'
    ensures cell == Finish <==> c == 'F'
    ensures cell == Open <==> c != '+' && c != 'F'
  {
    match c
    case '+' => Wall
    case 'F' => Finish
    case _ => Open
  }

  /** The older map and the text-cell classification agree on every character
      but the line break, which is open here and a wall there. */
  lemma CellOfAgreesWithTextCell(c: char)
    ensures CellOf(c) == TextCells.Classify(c) <==> c != '\n'
  {
  }

  // ---------------------------------------------------------------------------
  // TextMaze::new
  // ---------------------------------------------------------------------------

  /** `TextMaze { chars, loc, width, height }`. */
  datatype LegacyTextMaze = LegacyTextMaze(chars: seq<char>, loc: nat, width: nat, height: nat)

  /** The start: the index of the last `S`, or 0 when there is none. */
  function StartOf(s: seq<char>): (r: nat)
    ensures 'S' in s ==> r < |s| && s[r] == 'S' && forall j :: r < j < |s| ==> s[j] != 'S'
    ensures 'S' !in s ==> r == 0
  {
    match TextMazes.LastIndex(s, 'S')
    case Some(i) => i
    case None => 0
  }

  /** The width: the index of the first line break after the first
      character, or 0 when there is none (a break at index 0 leaves the width
      at 0, so the next break still sets it). */
  function WidthOf(s: seq<char>): (r: nat)
    ensures r > 0 ==> r < |s| && s[r] == '\n' && forall j :: 0 < j < r ==> s[j] != '\n'
    ensures r == 0 ==> forall j :: 0 < j < |s| ==> s[j] != '\n'
  {
    if s == [] then 0
    else
      match TextMazes.FirstIndex(s[1..], '\n')
      case Some(i) => i + 1
      case None => 0
  }

  /** `lines().count()`: each line runs up to and including its line break;
      a last line without a break still counts, an empty text has none. */
  function LineCount(s: seq<char>): nat
    decreases |s|
  {
    if s == [] then 0
    else
      match TextMazes.FirstIndex(s, '\n')
      case None => 1
      case Some(i) => 1 + LineCount(s[i + 1..])
  }

  /** The maze `new` builds from a text. */
  function Parsed(maze: string): LegacyTextMaze
  {
    LegacyTextMaze(maze, StartOf(maze), WidthOf(maze), LineCount(maze))
  }

  lemma StartSnoc(s: seq<char>, c: char)
    ensures StartOf(s + [c]) == if c == 'S' then |s| else StartOf(s)
  {
    TextMazes.LastIndexSnoc(s, c, 'S');
  }

  lemma WidthSnoc(s: seq<char>, c: char)
    ensures WidthOf(s + [c]) == if c == '\n' && WidthOf(s) == 0 then |s| else WidthOf(s)
  {
    var t := s + [c];
    var w := WidthOf(t);
    if WidthOf(s) > 0 {
      assert t[WidthOf(s)] == '\n';
    } else if c == '\n' && s != [] {
      assert t[|s|] == '\n';
    }
  }

  /** `TextMaze::new`: the fold over the characters, pushing each one and
      noting every `S` and the first line break while the width is 0. */
  method New(maze: string) returns (m: LegacyTextMaze)
    ensures m == Parsed(maze)
  {
    var chars: seq<char> := [];
    var loc: nat := 0;
    var width: nat := 0;
    var height := LineCount(maze);
    for idx := 0 to |maze|
      invariant chars == maze[..idx]
      invariant loc == StartOf(chars)
      invariant width == WidthOf(chars)
    {
      var chr := maze[idx];
      if chr == 'S' {
        loc := idx;
      } else if chr == '\n' && width == 0 {
        width := idx;
      }
      StartSnoc(chars, chr);
      WidthSnoc(chars, chr);
      chars := chars + [chr];
      assert chars == maze[..idx + 1];
    }
    assert maze[..|maze|] == maze;
    m := LegacyTextMaze(chars, loc, width, height);
  }

  /** The number of line breaks in a text. */
  function Breaks(s: seq<char>): nat
  {
    multiset(s)['\n']
  }

  /** The height is the number of line breaks, plus one for a last line that
      does not end in a break. */
  lemma {:induction false} LineCountBreaks(s: seq<char>)
    ensures LineCount(s) == Breaks(s) + (if s != [] && s[|s| - 1] != '\n' then 1 else 0)
    decreases |s|
  {
    if s != [] {
      match TextMazes.FirstIndex(s, '\n')
      case None =>
        assert Breaks(s) == 0;
      case Some(i) =>
        var rest := s[i + 1..];
        assert s == s[..i] + ['\n'] + rest;
        assert multiset(s) == multiset(s[..i]) + multiset(['\n']) + multiset(rest);
        assert '\n' !in s[..i];
        assert Breaks(s) == 1 + Breaks(rest);
        LineCountBreaks(rest);
        if rest != [] {
          assert s[|s| - 1] == rest[|rest| - 1];
        }
    }
  }

  // ---------------------------------------------------------------------------
  // get_loc_in_dir_from
  // ---------------------------------------------------------------------------

  /** `get_loc_in_dir_from`: the index one step from `from` in a direction. */
  function LocInDirFrom(m: LegacyTextMaze, from: nat, d: Direction): (r: Result<nat, PrivateMazeError>)
    ensures r.Err? ==> r.error == OutOfBounds(d)
    ensures d == Up ==> (r.Err? <==> from <= m.width) && (r.Ok? ==> r.value + m.width + 1 == from)
    ensures d == Right ==>
              && (r.Err? <==> from + 1 >= |m.chars| || m.chars[from + 1] == '\n')
              && (r.Ok? ==> r.value == from + 1)
    ensures d == Down ==> (r.Err? <==> from + m.width + 1 >= |m.chars|) && (r.Ok? ==> r.value == from + m.width + 1)
    ensures d == Left ==>
              && (r.Err? <==> from == 0 || (from - 1 < |m.chars| && m.chars[from - 1] == '\n'))
              && (r.Ok? ==> r.value + 1 == from)
  {
    match d
    case Up =>
      if from <= m.width then Err(OutOfBounds(d)) else Ok(from - m.width - 1)
    case Right =>
      var res := from + 1;
      if res >= |m.chars| || m.chars[res] == '\n' then Err(OutOfBounds(d)) else Ok(res)
    case Down =>
      var res := from + m.width + 1;
      if res >= |m.chars| then Err(OutOfBounds(d)) else Ok(res)
    case Left =>
      if from == 0 then Err(OutOfBounds(d))
      else
        var res := from - 1;
        if res < |m.chars| && m.chars[res] == '\n' then Err(OutOfBounds(d)) else Ok(res)
  }

  function Opposite(d: Direction): Direction
  {
    match d
    case Up => Down
    case Down => Up
    case Right => Left
    case Left => Right
  }

  /** A step from an index of the text that is not a line break can always be
      undone by the opposite step. */
  lemma StepUndone(m: LegacyTextMaze, from: nat, d: Direction)
    requires from < |m.chars| && m.chars[from] != '\n'
    requires LocInDirFrom(m, from, d).Ok?
    ensures LocInDirFrom(m, LocInDirFrom(m, from, d).value, Opposite(d)) == Ok(from)
  {
  }

  /** A step from an index inside the text stays inside it. */
  lemma StepInside(m: LegacyTextMaze, from: nat, d: Direction)
    requires from < |m.chars|
    requires LocInDirFrom(m, from, d).Ok?
    ensures LocInDirFrom(m, from, d).value < |m.chars|
  {
  }

  // ---------------------------------------------------------------------------
  // The tabulated cases of the source's tests
  // ---------------------------------------------------------------------------

  /** Up in a 2 x 4 maze: the top row is out of bounds. */
  lemma LookUpCases()
    ensures var m := Parsed("FB+D\nSACE");
      && LocInDirFrom(m, 5, Up) == Ok(0)
      && LocInDirFrom(m, 8, Up) == Ok(3)
      && LocInDirFrom(m, 0, Up) == Err(OutOfBounds(Up))
      && LocInDirFrom(m, 4, Up) == Err(OutOfBounds(Up))
      && LocInDirFrom(m, 7, Up) == Ok(2)
  {
    var s := "FB+D\nSACE";
    assert s[4] == '\n';
    assert WidthOf(s) == 4;
  }

  /** Down in a 2 x 4 maze: the bottom row is out of bounds. */
  lemma LookDownCases()
    ensures var m := Parsed("FBCD\nSA+E");
      && LocInDirFrom(m, 0, Down) == Ok(5)
      && LocInDirFrom(m, 3, Down) == Ok(8)
      && LocInDirFrom(m, 5, Down) == Err(OutOfBounds(Down))
      && LocInDirFrom(m, 8, Down) == Err(OutOfBounds(Down))
      && LocInDirFrom(m, 2, Down) == Ok(7)
  {
    var s := "FBCD\nSA+E";
    assert s[4] == '\n';
    assert WidthOf(s) == 4;
  }

  /** Right in a 4 x 2 maze: a line break or the end of the text is out of bounds. */
  lemma LookRightCases()
    ensures var m := Parsed("SA\nCB\nD+\nEF");
      && LocInDirFrom(m, 0, Right) == Ok(1)
      && LocInDirFrom(m, 1, Right) == Err(OutOfBounds(Right))
      && LocInDirFrom(m, 10, Right) == Err(OutOfBounds(Right))
      && LocInDirFrom(m, 6, Right) == Ok(7)
  {
    var s := "SA\nCB\nD+\nEF";
    assert |s| == 11 && s[1] == 'A' && s[2] == '\n' && s[7] == '+';
  }

  /** Left in a 4 x 2 maze: index 0 or a line break is out of bounds. */
  lemma LookLeftCases()
    ensures var m := Parsed("SA\nCB\n+D\nEF");
      && LocInDirFrom(m, 1, Left) == Ok(0)
      && LocInDirFrom(m, 0, Left) == Err(OutOfBounds(Left))
      && LocInDirFrom(m, 3, Left) == Err(OutOfBounds(Left))
      && LocInDirFrom(m, 7, Left) == Ok(6)
  {
    var s := "SA\nCB\n+D\nEF";
    assert |s| == 11 && s[0] == 'S' && s[2] == '\n' && s[6] == '+';
  }
}
