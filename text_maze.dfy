/**
 * The text-grid environment (src/text_maze/maze_impl.rs).
 *
 * A maze is its text as characters, newline-separated rows of `width`
 * characters each, and the robot's position `loc`, an index into the text.
 * Moving one row up or down is a jump of `width + 1` characters (the row plus
 * its line break).
 */
module TextMazes {
  import opened Wrappers
  import opened Direction
  import opened Cells
  import opened TextCells

  datatype MazeError = CreationError(msg: string) | MoveError(dir: Cardinal, state: string)

  const UnequalLines: string := "TextMaze must have all lines with equal lengths."
  const NoStart: string := "TextMaze must specify start location w/ 'S'"
  const EmptyLines: string := "TextMaze cannot have empty lines"

  /** The three values the parser computes before it builds a maze. */
  datatype Layout = Layout(chars: seq<char>, loc: nat, width: nat)

  // ---------------------------------------------------------------------------
  // Reference definitions over the text
  // ---------------------------------------------------------------------------

  /** Index of the first occurrence of `c` in `s`. */
  function FirstIndex(s: seq<char>, c: char): (r: Option<nat>)
    ensures r.None? <==> c !in s
    ensures r.Some? ==> r.value < |s| && s[r.value] == c
    ensures r.Some? ==> forall j :: 0 <= j < r.value ==> s[j] != c
  {
    if s == [] then None
    else
      var before := FirstIndex(s[..|s| - 1], c);
      assert s == s[..|s| - 1] + [s[|s| - 1]];
      if before.Some? then before
      else if s[|s| - 1] == c then Some(|s| - 1)
      else None
  }

  /** Index of the last occurrence of `c` in `s`. */
  function LastIndex(s: seq<char>, c: char): (r: Option<nat>)
    ensures r.None? <==> c !in s
    ensures r.Some? ==> r.value < |s| && s[r.value] == c
    ensures r.Some? ==> forall j :: r.value < j < |s| ==> s[j] != c
  {
    if s == [] then None
    else if s[|s| - 1] == c then Some(|s| - 1)
    else
      assert s == s[..|s| - 1] + [s[|s| - 1]];
      LastIndex(s[..|s| - 1], c)
  }

  /** The line-length test the parser applies: once the first line break fixes
      the width, every later line break at index `i` has `(i + 1) % (width + 1) == 0`. */
  ghost predicate NewlinesAligned(s: seq<char>)
  {
    FirstIndex(s, '\n').Some? ==> AlignedFrom(s, FirstIndex(s, '\n').value)
  }

  /** Every line break after index `w` ends a stretch of whole rows of `w + 1` characters. */
  ghost predicate AlignedFrom(s: seq<char>, w: nat)
  {
    forall i :: w < i < |s| && s[i] == '\n' ==> (i + 1) % (w + 1) == 0
  }

  /** The row width the parser settles on: the index of the first line break,
      or the whole length when there is none. */
  function RowWidth(s: seq<char>): nat
  {
    match FirstIndex(s, '\n')
    case Some(w) => w
    case None => |s|
  }

  /** A rectangular grid of rows `w` characters wide: a character is a line
      break exactly when it stands in column `w`, and the text ends with a full
      row (with or without a final line break). */
  ghost predicate Rectangular(s: seq<char>, w: nat)
  {
    RowsAligned(s, w) && ((|s| + 1) % (w + 1) == 0 || |s| % (w + 1) == 0)
  }

  /** Once the first line break fixes the width, every character is a line
      break exactly in the last column of its row. */
  ghost predicate LinesAligned(s: seq<char>)
  {
    FirstIndex(s, '\n').Some? ==> RowsAligned(s, FirstIndex(s, '\n').value)
  }

  /** Every line break stands in column `w` and every character in column `w` is a line break. */
  ghost predicate RowsAligned(s: seq<char>, w: nat)
  {
    forall i :: 0 <= i < |s| ==> (s[i] == '\n' <==> i % (w + 1) == w)
  }

  /** The text line that index `p` lies on: the number of line breaks before it. */
  function LineOf(s: seq<char>, p: nat): nat
    requires p <= |s|
  {
    if p == 0 then 0 else LineOf(s, p - 1) + (if s[p - 1] == '\n' then 1 else 0)
  }

  /** The column of index `p` on its text line: its distance from the last line break before it. */
  function ColumnOf(s: seq<char>, p: nat): nat
    requires p <= |s|
  {
    if p == 0 then 0 else if s[p - 1] == '\n' then 0 else ColumnOf(s, p - 1) + 1
  }

  // ---------------------------------------------------------------------------
  // Positions
  // ---------------------------------------------------------------------------

  /** `get_posn_in_dir`: the index one step away from `loc`, if the arithmetic stays in the text. */
  function PosnInDir(chars: seq<char>, width: nat, loc: nat, d: Cardinal): (r: Option<nat>)
    ensures loc < |chars| && r.Some? ==> r.value < |chars|
  {
    match d
    case North => if loc <= width then None else Some(loc - width - 1)
    case South => if loc + width + 1 >= |chars| then None else Some(loc + width + 1)
    case East => if loc + 1 >= |chars| then None else Some(loc + 1)
    case West => if loc == 0 then None else Some(loc - 1)
  }

  /** What `look_dir` reports for a position: a wall when there is no such character. */
  function CellAt(chars: seq<char>, pos: Option<nat>): Cell
  {
    if pos.Some? && pos.value < |chars| then Classify(chars[pos.value]) else Wall
  }

  /** Every step can be undone: stepping back in the reverse direction returns to the start. */
  lemma {:induction false} StepReversible(chars: seq<char>, width: nat, loc: nat, d: Cardinal)
    requires loc < |chars|
    requires PosnInDir(chars, width, loc, d).Some?
    ensures PosnInDir(chars, width, PosnInDir(chars, width, loc, d).value, Reverse(d)) == Some(loc)
  {
    match d
    case North =>
    case South =>
    case East =>
    case West =>
  }

  /** In a rectangular grid the line of an index is its quotient by the row
      length and the column its remainder. */
  lemma {:induction false} RectangularCoordinates(s: seq<char>, w: nat, p: nat)
    requires Rectangular(s, w)
    requires p <= |s|
    ensures LineOf(s, p) == p / (w + 1)
    ensures ColumnOf(s, p) == p % (w + 1)
  {
    if p == 0 {
      DivRemainder(0, w + 1, 0);
    } else {
      RectangularCoordinates(s, w, p - 1);
      assert s[p - 1] == '\n' <==> (p - 1) % (w + 1) == w;
      NextIndex(p - 1, p, w + 1, s[p - 1] == '\n');
    }
  }

  /** The quotient and remainder of the next index: the remainder wraps to 0
      exactly after the last column. */
  lemma NextIndex(q: nat, p: nat, m: nat, wraps: bool)
    requires m > 0 && p == q + 1
    requires wraps <==> q % m == m - 1
    ensures p / m == (if wraps then q / m + 1 else q / m)
    ensures p % m == (if wraps then 0 else q % m + 1)
  {
    var a, b := q / m, q % m;
    assert q == a * m + b && 0 <= b < m;
    if wraps {
      assert p == (a + 1) * m;
      DivMultiple(a + 1, m);
    } else {
      DivRemainder(a, m, b + 1);
    }
  }

  lemma DivMultiple(k: nat, m: nat)
    requires m > 0
    ensures (k * m) / m == k && (k * m) % m == 0
  {
    DivRemainder(k, m, 0);
  }

  lemma DivRemainder(k: nat, m: nat, r: nat)
    requires r < m
    ensures (k * m + r) / m == k && (k * m + r) % m == r
  {
    var n := k * m + r;
    var q, s := n / m, n % m;
    assert q * m + s == k * m + r;
    if q < k {
      MulMonotone(q + 1, k, m);
      assert false;
    }
    if q > k {
      MulMonotone(k + 1, q, m);
      assert false;
    }
  }

  lemma MulMonotone(a: int, b: int, m: nat)
    requires a <= b
    ensures a * m <= b * m
  {
  }

  /** Adding one row length moves one row down and keeps the column. */
  lemma ShiftRow(q: nat, p: nat, m: nat)
    requires m > 0 && p == q + m
    ensures p / m == q / m + 1 && p % m == q % m
  {
    var a, b := q / m, q % m;
    assert q == a * m + b && 0 <= b < m;
    assert p == (a + 1) * m + b;
    DivRemainder(a + 1, m, b);
  }

  /** On a rectangular grid, North from an ordinary cell reaches the same column of the line above. */
  lemma NorthKeepsColumn(s: seq<char>, w: nat, p: nat)
    requires Rectangular(s, w)
    requires p < |s| && s[p] != '\n'
    requires PosnInDir(s, w, p, North).Some?
    ensures var q := PosnInDir(s, w, p, North).value;
      LineOf(s, q) + 1 == LineOf(s, p) && ColumnOf(s, q) == ColumnOf(s, p)
  {
    var q := p - w - 1;
    assert PosnInDir(s, w, p, North) == Some(q);
    RectangularCoordinates(s, w, p);
    RectangularCoordinates(s, w, q);
    ShiftRow(q, p, w + 1);
  }

  /** On a rectangular grid, South from an ordinary cell reaches the same column of the line below. */
  lemma SouthKeepsColumn(s: seq<char>, w: nat, p: nat)
    requires Rectangular(s, w)
    requires p < |s| && s[p] != '\n'
    requires PosnInDir(s, w, p, South).Some?
    ensures var q := PosnInDir(s, w, p, South).value;
      LineOf(s, p) + 1 == LineOf(s, q) && ColumnOf(s, q) == ColumnOf(s, p)
  {
    var q := p + w + 1;
    assert PosnInDir(s, w, p, South) == Some(q);
    ShiftRow(p, q, w + 1);
    assert p % (w + 1) != w;
    assert s[q] != '\n';
    assert PosnInDir(s, w, q, North) == Some(p);
    NorthKeepsColumn(s, w, q);
  }

  /** On a rectangular grid, East and West move along the line, and a step
      that leaves the line lands on a line break, which `look_dir` reports as a wall. */
  lemma SidewaysKeepsLine(s: seq<char>, w: nat, p: nat, d: Cardinal)
    requires Rectangular(s, w)
    requires p < |s| && s[p] != '\n'
    requires d == East || d == West
    requires CellAt(s, PosnInDir(s, w, p, d)) != Wall
    ensures var q := PosnInDir(s, w, p, d).value;
      LineOf(s, q) == LineOf(s, p) && ColumnOf(s, q) == (if d == East then ColumnOf(s, p) + 1 else ColumnOf(s, p) - 1)
  {
    var q := PosnInDir(s, w, p, d).value;
    if d == East {
      assert q == p + 1 && s[p] != '\n';
    } else {
      assert p == q + 1 && s[q] != '\n';
    }
  }

  /** Under the parser's own test, a line may be longer than the first as long
      as its line break lands on a multiple of the row length, and North from
      the end of such a line stays on that line. */
  lemma RaggedLinesAccepted()
    ensures var s := "S \n  +  \n  ";
      && NewlinesAligned(s) && 'S' in s && RowWidth(s) == 2
      && !Rectangular(s, 2)
      && PosnInDir(s, 2, 7, North) == Some(4)
      && LineOf(s, 7) == 1 && LineOf(s, 4) == 1
  {
    var s := "S \n  +  \n  ";
    assert s[2] == '\n' && s[0] != '\n' && s[1] != '\n';
    assert FirstIndex(s, '\n') == Some(2);
    assert s[8] == '\n';
    assert forall i :: 2 < i < |s| && s[i] == '\n' ==> i == 8;
    assert s[5] != '\n' && 5 % 3 == 2;
    assert LineOf(s, 4) == 1;
    assert LineOf(s, 7) == 1;
  }

  // ---------------------------------------------------------------------------
  // Parsing (`TryFrom<&str> for TextMaze`)
  // ---------------------------------------------------------------------------

  /** The `try_fold` of `try_from`: the characters in order, the last 'S'
      and the first line break, failing at the first later line break that is
      off the grid. */
  method Fold(value: string) returns (r: Result<(seq<char>, Option<nat>, Option<nat>), MazeError>)
    ensures r.Ok? <==> NewlinesAligned(value)
    ensures r.Err? ==> r.error == CreationError(UnequalLines)
    ensures r.Ok? ==> r.value == (value, LastIndex(value, 'S'), FirstIndex(value, '\n'))
  {
    var chars: seq<char> := [];
    var maybeLoc: Option<nat> := None;
    var maybeWidth: Option<nat> := None;
    for idx := 0 to |value|
      invariant chars == value[..idx]
      invariant maybeLoc == LastIndex(chars, 'S')
      invariant maybeWidth == FirstIndex(chars, '\n')
      invariant maybeWidth.Some? ==> AlignedFrom(chars, maybeWidth.value)
    {
      var chr := value[idx];
      ghost var loc0, width0 := maybeLoc, maybeWidth;
      if chr == 'S' {
        maybeLoc := Some(idx);
      } else if chr == '\n' {
        match maybeWidth {
          case Some(width) =>
            if (idx + 1) % (width + 1) != 0 {
              AlignedPrefix(value, idx, width);
              return Err(CreationError(UnequalLines));
            }
          case None =>
            maybeWidth := Some(idx);
        }
      }
      ScanStep(value, idx, chars, loc0, width0);
      chars := chars + [chr];
    }
    assert chars == value;
    r := Ok((chars, maybeLoc, maybeWidth));
  }

  /** `try_from` without building the object: the fold, then a start is
      required and the width is the first line break, or the length of a text
      without one. Accepts exactly the texts with a start whose line breaks
      pass the alignment test. */
  method Scan(value: string) returns (r: Result<Layout, MazeError>)
    ensures r.Ok? <==> NewlinesAligned(value) && 'S' in value
    ensures r.Err? ==> r.error == CreationError(if NewlinesAligned(value) then NoStart else UnequalLines)
    ensures r.Ok? ==> && r.value.chars == value
                      && Some(r.value.loc) == LastIndex(value, 'S')
                      && r.value.width == RowWidth(value)
  {
    var folded := Fold(value);
    if folded.Err? {
      return Err(folded.error);
    }
    var (chars, maybeLoc, maybeWidth) := folded.value;
    ScanFinal(value, maybeWidth);
    if maybeLoc.None? {
      return Err(CreationError(NoStart));
    }
    var width: nat;
    match maybeWidth {
      case Some(w) =>
        width := w;
      case None =>
        if exists c :: c in chars && c != '\n' {
          width := |chars|;
        } else {
          return Err(CreationError(EmptyLines));
        }
    }
    r := Ok(Layout(chars, maybeLoc.value, width));
  }

  lemma FirstIndexSnoc(s: seq<char>, c: char, x: char)
    ensures FirstIndex(s + [c], x) ==
      if FirstIndex(s, x).Some? then FirstIndex(s, x) else if c == x then Some(|s|) else None
  {
    assert (s + [c])[..|s|] == s;
  }

  lemma LastIndexSnoc(s: seq<char>, c: char, x: char)
    ensures LastIndex(s + [c], x) == if c == x then Some(|s|) else LastIndex(s, x)
  {
    assert (s + [c])[..|s|] == s;
  }

  /** One character of the parse fold: the start, the width and the alignment
      test of the text read so far extend to one more character. */
  lemma ScanStep(value: string, idx: nat, chars: seq<char>, loc: Option<nat>, width: Option<nat>)
    requires idx < |value| && chars == value[..idx]
    requires loc == LastIndex(chars, 'S') && width == FirstIndex(chars, '\n')
    requires width.Some? ==> AlignedFrom(chars, width.value)
    requires value[idx] == '\n' && width.Some? ==> (idx + 1) % (width.value + 1) == 0
    ensures var c := value[idx];
      var chars' := chars + [c];
      var width' := if c == '\n' && width.None? then Some(idx) else width;
      && chars' == value[..idx + 1]
      && (if c == 'S' then Some(idx) else loc) == LastIndex(chars', 'S')
      && width' == FirstIndex(chars', '\n')
      && (width'.Some? ==> AlignedFrom(chars', width'.value))
  {
    var c := value[idx];
    assert value[..idx + 1] == chars + [c];
    FirstIndexSnoc(chars, c, '\n');
    LastIndexSnoc(chars, c, 'S');
    if width.Some? {
      AlignedFromSnoc(chars, c, width.value);
    }
  }

  /** Appending a character keeps the rows after index `w` aligned unless it
      is a line break off the grid. */
  lemma AlignedFromSnoc(s: seq<char>, c: char, w: nat)
    requires AlignedFrom(s, w)
    requires c == '\n' && w < |s| ==> (|s| + 1) % (w + 1) == 0
    ensures AlignedFrom(s + [c], w)
  {
    var t := s + [c];
    forall i | w < i < |t| && t[i] == '\n' ensures (i + 1) % (w + 1) == 0 {
      if i < |s| {
        assert t[i] == s[i];
      }
    }
  }

  /** A line break off the grid after the first one fails the whole text. */
  lemma AlignedPrefix(value: seq<char>, idx: nat, w: nat)
    requires idx < |value| && value[idx] == '\n'
    requires FirstIndex(value[..idx], '\n') == Some(w)
    requires (idx + 1) % (w + 1) != 0
    ensures !NewlinesAligned(value)
  {
    FirstIndexPrefix(value, idx, '\n');
    assert w < idx;
  }

  lemma FirstIndexPrefix(value: seq<char>, n: nat, c: char)
    requires n <= |value|
    requires FirstIndex(value[..n], c).Some?
    ensures FirstIndex(value, c) == FirstIndex(value[..n], c)
  {
    var w := FirstIndex(value[..n], c).value;
    assert value[..n][w] == value[w];
    forall j | 0 <= j < w ensures value[j] != c {
      assert value[..n][j] == value[j];
    }
  }

  /** A text whose only line break ends it is aligned to its first row. */
  lemma FirstRowAligned(t: seq<char>)
    requires t != [] && t[|t| - 1] == '\n' && '\n' !in t[..|t| - 1]
    ensures RowsAligned(t, |t| - 1)
  {
    forall i | 0 <= i < |t| ensures (t[i] == '\n' <==> i % |t| == |t| - 1) {
      DivRemainder(0, |t|, i);
      if i < |t| - 1 {
        assert t[i] == t[..|t| - 1][i];
      }
    }
  }

  lemma RowsAlignedSnoc(s: seq<char>, c: char, w: nat)
    requires RowsAligned(s, w)
    requires (c == '\n') == (|s| % (w + 1) == w)
    ensures RowsAligned(s + [c], w)
  {
    var t := s + [c];
    forall i | 0 <= i < |t| ensures (t[i] == '\n' <==> i % (w + 1) == w) {
      if i < |s| {
        assert t[i] == s[i];
      }
    }
  }

  /** A line break in the wrong column, or a missing one, anywhere after the
      first line break rules the whole text out. */
  lemma MisalignedRejected(value: seq<char>, idx: nat, w: nat)
    requires idx < |value|
    requires FirstIndex(value[..idx], '\n') == Some(w)
    requires (value[idx] == '\n') != (idx % (w + 1) == w)
    ensures !LinesAligned(value)
  {
    FirstIndexPrefix(value, idx, '\n');
    assert !((value[idx] == '\n') <==> idx % (w + 1) == w);
  }

  /** Once every line break is in place, only the length of the last row is left to check. */
  lemma LastRowDecides(value: seq<char>, w: nat)
    requires FirstIndex(value, '\n') == Some(w)
    requires RowsAligned(value, w)
    ensures Rectangular(value, RowWidth(value)) <==> ((|value| + 1) % (w + 1) == 0 || |value| % (w + 1) == 0)
  {
  }

  /** At the end of the corrected fold: the width is the first line break or
      the length, and only the last row's length is left to check. */
  lemma RectFinal(value: seq<char>, width: Option<nat>)
    requires width == FirstIndex(value, '\n')
    requires width.Some? ==> RowsAligned(value, width.value)
    ensures RowWidth(value) == if width.Some? then width.value else |value|
    ensures Rectangular(value, RowWidth(value)) <==>
              (width.None? || (|value| + 1) % (width.value + 1) == 0 || |value| % (width.value + 1) == 0)
  {
    match width {
      case Some(w) =>
        LastRowDecides(value, w);
      case None =>
        SingleRowRectangular(value);
    }
  }

  /** At the end of the fold as written: the text passed the test, and a text
      with a start has a character that is not a line break. */
  lemma ScanFinal(value: seq<char>, width: Option<nat>)
    requires width == FirstIndex(value, '\n')
    requires width.Some? ==> AlignedFrom(value, width.value)
    ensures NewlinesAligned(value)
    ensures RowWidth(value) == if width.Some? then width.value else |value|
    ensures 'S' in value ==> exists c :: c in value && c != '\n'
  {
    if 'S' in value {
      assert 'S' != '\n';
    }
  }

  /** A text without line breaks is a single full row. */
  lemma SingleRowRectangular(s: seq<char>)
    requires '\n' !in s
    ensures Rectangular(s, |s|)
  {
    forall i | 0 <= i < |s| ensures (s[i] == '\n' <==> i % (|s| + 1) == |s|) {
      DivRemainder(0, |s| + 1, i);
    }
    DivMultiple(1, |s| + 1);
  }

  /** One character of the corrected fold: the start, the width and the row
      alignment of the text read so far extend to one more character. */
  lemma RectStep(value: string, idx: nat, chars: seq<char>, loc: Option<nat>, width: Option<nat>)
    requires idx < |value| && chars == value[..idx]
    requires loc == LastIndex(chars, 'S') && width == FirstIndex(chars, '\n')
    requires width.Some? ==> RowsAligned(chars, width.value)
    requires width.Some? ==> ((value[idx] == '\n') == (idx % (width.value + 1) == width.value))
    ensures var c := value[idx];
      var chars' := chars + [c];
      var width' := if c == '\n' && width.None? then Some(idx) else width;
      && chars' == value[..idx + 1]
      && (if c == 'S' then Some(idx) else loc) == LastIndex(chars', 'S')
      && width' == FirstIndex(chars', '\n')
      && (width'.Some? ==> RowsAligned(chars', width'.value))
  {
    var c := value[idx];
    assert value[..idx + 1] == chars + [c];
    FirstIndexSnoc(chars, c, '\n');
    LastIndexSnoc(chars, c, 'S');
    match width {
      case Some(w) =>
        RowsAlignedSnoc(chars, c, w);
      case None =>
        if c == '\n' {
          FirstRowAligned(chars + [c]);
        }
    }
  }

  /** The fold with the line test the error message promises: every
      character after the first line break is a line break exactly in the
      last column of its row. */
  method FoldRect(value: string) returns (r: Result<(seq<char>, Option<nat>, Option<nat>), MazeError>)
    ensures r.Ok? <==> LinesAligned(value)
    ensures r.Err? ==> r.error == CreationError(UnequalLines)
    ensures r.Ok? ==> r.value == (value, LastIndex(value, 'S'), FirstIndex(value, '\n'))
  {
    var chars: seq<char> := [];
    var maybeLoc: Option<nat> := None;
    var maybeWidth: Option<nat> := None;
    for idx := 0 to |value|
      invariant chars == value[..idx]
      invariant maybeLoc == LastIndex(chars, 'S')
      invariant maybeWidth == FirstIndex(chars, '\n')
      invariant maybeWidth.Some? ==> RowsAligned(chars, maybeWidth.value)
    {
      var chr := value[idx];
      ghost var loc0, width0 := maybeLoc, maybeWidth;
      match maybeWidth {
        case Some(width) =>
          if (chr == '\n') != (idx % (width + 1) == width) {
            MisalignedRejected(value, idx, width);
            return Err(CreationError(UnequalLines));
          }
        case None =>
          if chr == '\n' {
            maybeWidth := Some(idx);
          }
      }
      if chr == 'S' {
        maybeLoc := Some(idx);
      }
      RectStep(value, idx, chars, loc0, width0);
      chars := chars + [chr];
    }
    assert chars == value;
    r := Ok((chars, maybeLoc, maybeWidth));
  }

  /** The parser with the line test its error message promises: every line
      has the width of the first one, the last line included. */
  method ScanRect(value: string) returns (r: Result<Layout, MazeError>)
    ensures r.Ok? <==> Rectangular(value, RowWidth(value)) && 'S' in value
    ensures r.Err? ==> r.error == CreationError(if Rectangular(value, RowWidth(value)) then NoStart else UnequalLines)
    ensures r.Ok? ==> && r.value.chars == value
                      && Some(r.value.loc) == LastIndex(value, 'S')
                      && r.value.width == RowWidth(value)
  {
    var folded := FoldRect(value);
    if folded.Err? {
      return Err(folded.error);
    }
    var (chars, maybeLoc, maybeWidth) := folded.value;
    RectFinal(value, maybeWidth);
    var width: nat;
    match maybeWidth {
      case Some(w) =>
        if !((|chars| + 1) % (w + 1) == 0 || |chars| % (w + 1) == 0) {
          return Err(CreationError(UnequalLines));
        }
        width := w;
      case None =>
        width := |chars|;
    }
    if maybeLoc.None? {
      return Err(CreationError(NoStart));
    }
    r := Ok(Layout(chars, maybeLoc.value, width));
  }

  // ---------------------------------------------------------------------------
  // The maze object
  // ---------------------------------------------------------------------------

  /** Index-wise copy of the text with the robot's position shown as 'X'. */
  function Marked(chars: seq<char>, loc: nat): (s: string)
    ensures |s| == |chars|
    ensures forall i :: 0 <= i < |s| ==> s[i] == if i == loc then 'X' else chars[i]
  {
    if chars == [] then []
    else
      var last := |chars| - 1;
      Marked(chars[..last], loc) + [if last == loc then 'X' else chars[last]]
  }

  class TextMaze {
    const chars: seq<char>
    const width: nat
    var loc: nat

    constructor (layout: Layout)
      ensures chars == layout.chars && width == layout.width && loc == layout.loc
    {
      chars := layout.chars;
      width := layout.width;
      loc := layout.loc;
    }

    /** The robot stands on a character that is not a wall. */
    ghost predicate Valid()
      reads this
    {
      loc < |chars| && Classify(chars[loc]) != Wall
    }

    /** `look_dir`: the classification of the neighbouring character, a wall if there is none. */
    function LookDir(d: Cardinal): (c: Cell)
      reads this
      ensures var pos := PosnInDir(chars, width, loc, d);
        && (c == Wall <==> pos.None? || pos.value >= |chars| || chars[pos.value] in {'+', '\n'})
        && (c == Finish <==> pos.Some? && pos.value < |chars| && chars[pos.value] == 'F')
    {
      CellAt(chars, PosnInDir(chars, width, loc, d))
    }

    /** `Display`: the text with the robot's position marked. */
    function Display(): string
      reads this
    {
      Marked(chars, loc)
    }

    /** `move_dir`: step into the neighbouring character unless it is a wall or missing. */
    method MoveDir(d: Cardinal) returns (r: Result<(), MazeError>)
      modifies this
      ensures r.Ok? <==> old(LookDir(d)) != Wall
      ensures r.Ok? ==> Some(loc) == old(PosnInDir(chars, width, loc, d)) && Valid()
      ensures r.Err? ==> loc == old(loc) && r.error == MoveError(d, Display())
    {
      var pos := PosnInDir(chars, width, loc, d);
      var next: Option<nat> := None;
      if pos.Some? && pos.value < |chars| {
        var cell := Unwrap(FromChar(chars[pos.value]));
        if cell != Wall {
          next := Some(pos.value);
        }
      }
      if next.None? {
        return Err(MoveError(d, Display()));
      }
      loc := next.value;
      r := Ok(());
    }
  }

  /** `TextMaze::try_from`: parse the text and build the maze, the robot on
      the last 'S'. The parse is the one with the full line test (`ScanRect`). */
  method TryFrom(value: string) returns (r: Result<TextMaze, MazeError>)
    ensures r.Ok? <==> Rectangular(value, RowWidth(value)) && 'S' in value
    ensures r.Err? ==> r.error == CreationError(if Rectangular(value, RowWidth(value)) then NoStart else UnequalLines)
    ensures r.Ok? ==> && fresh(r.value) && r.value.Valid()
                      && r.value.chars == value
                      && Some(r.value.loc) == LastIndex(value, 'S')
                      && r.value.width == RowWidth(value)
  {
    var scanned := ScanRect(value);
    match scanned {
      case Err(e) =>
        r := Err(e);
      case Ok(layout) =>
        var maze := new TextMaze(layout);
        r := Ok(maze);
    }
  }
}
