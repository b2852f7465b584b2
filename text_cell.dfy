/**
 * The character classification of the text maze (src/text_maze/cell_impl.rs):
 * 'F' is the finish, '+' and the line break are walls, everything else
 * (the start 'S' and the space included) is open.
 */
module TextCells {
  import opened Cells

  /** The newtype wrapper `TextCell(Cell)`. */
  datatype TextCell = TextCell(cell: Cell)

  /** `TextCell::from(&char)`. */
  function FromChar(c: char): (t: TextCell)
    ensures t.cell == Finish <==> c == 'F'
    ensures t.cell == Wall <==> c == '+' || c == '\n'
    ensures t.cell == Open <==> c != 'F' && c != '+' && c != '\n'
  {
    match c
    case 'F' => TextCell(Finish)
    case '+' => TextCell(Wall)
    case '\n' => TextCell(Wall)
    case _ => TextCell(Open)
  }

  /** `TextCell::from(Cell)`: wrap. */
  function Wrap(c: Cell): TextCell
  {
    TextCell(c)
  }

  /** `Into<Cell> for TextCell`: unwrap. */
  function Unwrap(t: TextCell): Cell
  {
    t.cell
  }

  /** The classification composed with the unwrap, as `look_dir` uses it. */
  function Classify(c: char): Cell
  {
    FromChar(c).cell
  }

  /** Wrapping and unwrapping are inverse to each other. */
  lemma WrapUnwrap(c: Cell, t: TextCell)
    ensures Unwrap(Wrap(c)) == c
    ensures Wrap(Unwrap(t)) == t
  {
  }
}
