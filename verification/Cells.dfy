/** Cells and rows of the terminal grid, and the pairing of wide characters.

    A character of width two takes two cells: a lead, which holds its text, and a
    continuation to its right. Editing a row breaks pairs; `Sanitized` and
    `Overwritten` say what repairs them. */
module Cells {
  import opened Wrappers

  /** A character together with the display width a Unicode table gives it
      (`None` for control characters), so that any such table is covered. */
  datatype Glyph = Glyph(code: nat, width: Option<nat>)

  /** Colours are kept by name; which red `Ansi(31)` stands for is not modelled. */
  datatype Color = Black | White | Ansi(code: nat) | Indexed(index: nat) | Rgb(r: nat, g: nat, b: nat)

  datatype Style = Style(fg: Color, bg: Option<Color>, bold: bool, italic: bool)

  datatype Cell = Cell(text: seq<Glyph>, style: Style, continuation: bool)

  const DEFAULT_STYLE := Style(White, None, false, false)

  const SPACE := Glyph(32, Some(1))

  function BlankStyled(style: Style): Cell {
    Cell([SPACE], style, false)
  }

  function Blank(): Cell {
    BlankStyled(DEFAULT_STYLE)
  }

  function Continuation(style: Style): Cell {
    Cell([SPACE], style, true)
  }

  function BlankRow(cols: nat): seq<Cell> {
    seq(cols, i => Blank())
  }

  /** How many columns printing a character takes: 0, 1 or 2. */
  function CharWidth(c: Glyph): (w: nat)
    ensures w <= 2
  {
    match c.width
    case None => 0
    case Some(w) => Min(w, 2)
  }

  predicate IsWideLead(cell: Cell) {
    && !cell.continuation
    && cell.text != []
    && cell.text[0].width.Some?
    && cell.text[0].width.value >= 2
  }

  predicate PairedAt(row: seq<Cell>, i: nat)
    requires i < |row|
  {
    && (row[i].continuation ==> i > 0 && IsWideLead(row[i - 1]))
    && (IsWideLead(row[i]) ==> i + 1 < |row| && row[i + 1].continuation)
  }

  /** Every continuation has a wide lead on its left, every wide lead a
      continuation on its right. */
  ghost predicate Paired(row: seq<Cell>) {
    forall i | 0 <= i < |row| :: PairedAt(row, i)
  }

  /** The cell that one left-to-right repair pass leaves in column `i`. */
  function SanitizedAt(row: seq<Cell>, i: nat): (cell: Cell)
    requires i < |row|
    decreases i
  {
    var orphaned := if row[i].continuation || (IsWideLead(row[i]) && i + 1 == |row|) then Blank() else row[i];
    if i == 0 then orphaned
    else
      var left := SanitizedAt(row, i - 1);
      if !IsWideLead(left) then orphaned
      else if row[i].continuation then row[i]
      else Continuation(left.style)
  }

  function Sanitized(row: seq<Cell>): seq<Cell> {
    seq(|row|, i requires 0 <= i < |row| => SanitizedAt(row, i))
  }

  /** Column `i` of a repaired row, from the column before it. */
  lemma SanitizedUnfolds(row: seq<Cell>, i: nat)
    requires i < |row|
    ensures
      var fixed, orphaned := Sanitized(row),
        if row[i].continuation || (IsWideLead(row[i]) && i + 1 == |row|) then Blank() else row[i];
      fixed[i] == if i == 0 || !IsWideLead(fixed[i - 1]) then orphaned
                  else if row[i].continuation then row[i]
                  else Continuation(fixed[i - 1].style)
  {
    assert Sanitized(row)[i] == SanitizedAt(row, i);
    if i > 0 { assert Sanitized(row)[i - 1] == SanitizedAt(row, i - 1); }
  }

  /** The repair pass pairs up any row whatever. */
  lemma SanitizedIsPaired(row: seq<Cell>)
    ensures |Sanitized(row)| == |row| && Paired(Sanitized(row))
  {
    var fixed := Sanitized(row);
    forall i | 0 <= i < |fixed|
      ensures PairedAt(fixed, i)
    {
      assert fixed[i] == SanitizedAt(row, i);
      if i > 0 { assert fixed[i - 1] == SanitizedAt(row, i - 1); }
      if i + 1 < |row| { assert fixed[i + 1] == SanitizedAt(row, i + 1); }
    }
  }

  lemma {:induction false} SanitizedAtKeepsPaired(row: seq<Cell>, i: nat)
    requires Paired(row) && i < |row|
    ensures SanitizedAt(row, i) == row[i]
    decreases i
  {
    assert PairedAt(row, i);
    if i > 0 {
      SanitizedAtKeepsPaired(row, i - 1);
      assert PairedAt(row, i - 1);
    }
  }

  /** The rows the pass leaves alone are exactly the paired ones. */
  lemma SanitizedIdentityIffPaired(row: seq<Cell>)
    ensures Sanitized(row) == row <==> Paired(row)
    ensures Sanitized(Sanitized(row)) == Sanitized(row)
  {
    if Paired(row) { SanitizedKeepsPaired(row); }
    SanitizedIsPaired(row);
    SanitizedKeepsPaired(Sanitized(row));
  }

  lemma SanitizedKeepsPaired(row: seq<Cell>)
    requires Paired(row)
    ensures Sanitized(row) == row
  {
    forall i | 0 <= i < |row| ensures Sanitized(row)[i] == row[i] {
      SanitizedAtKeepsPaired(row, i);
    }
  }

  /** What clearing one cell does to its row: its other half goes with it. */
  function ClearedOverlap(row: seq<Cell>, col: nat): (r: seq<Cell>)
    requires col < |row|
    ensures |r| == |row|
  {
    if row[col].continuation then
      var r := row[col := Blank()];
      if col > 0 && IsWideLead(r[col - 1]) then r[col - 1 := Blank()] else r
    else
      var r := if IsWideLead(row[col]) && col + 1 < |row| && row[col + 1].continuation
               then row[col + 1 := Blank()] else row;
      r[col := Blank()]
  }

  /** `row` with `cell` put over the columns `col..col + width`; a half of a wide
      character that loses its other half to it becomes a blank. */
  function Overwritten(row: seq<Cell>, col: nat, cell: Cell, width: nat): (r: seq<Cell>)
    requires 1 <= width <= 2 && col + width <= |row|
    ensures |r| == |row|
  {
    seq(|row|, i requires 0 <= i < |row| =>
      if i == col then cell
      else if col < i < col + width then Continuation(cell.style)
      else if i + 1 == col && IsWideLead(row[i]) then Blank()
      else if i == col + width && row[i].continuation then Blank()
      else row[i])
  }

  lemma OverwrittenIsPaired(row: seq<Cell>, col: nat, cell: Cell, width: nat)
    requires Paired(row)
    requires 1 <= width <= 2 && col + width <= |row|
    requires !cell.continuation && (IsWideLead(cell) <==> width == 2)
    ensures Paired(Overwritten(row, col, cell, width))
  {
    var r := Overwritten(row, col, cell, width);
    forall i | 0 <= i < |row| ensures PairedAt(r, i) {
      assert PairedAt(row, i);
      if i > 0 { assert PairedAt(row, i - 1); }
      if i + 1 < |row| { assert PairedAt(row, i + 1); }
    }
  }

  /** Clearing and writing the two halves one after the other, as printing does,
      has the effect `Overwritten` describes. */
  lemma ClearThenWriteOverwrites(row: seq<Cell>, col: nat, cell: Cell, width: nat)
    requires Paired(row)
    requires 1 <= width <= 2 && col + width <= |row|
    requires !cell.continuation && (IsWideLead(cell) <==> width == 2)
    ensures
      var lead := ClearedOverlap(row, col)[col := cell];
      Overwritten(row, col, cell, width)
      == if width == 1 then lead
         else ClearedOverlap(lead, col + 1)[col + 1 := Continuation(cell.style)]
  {
    assert PairedAt(row, col);
    if col > 0 { assert PairedAt(row, col - 1); }
    if col + 1 < |row| { assert PairedAt(row, col + 1); }
    if col + 2 < |row| { assert PairedAt(row, col + 2); }
  }

  /** The columns `start..end` blanked in `style`. */
  function Erased(row: seq<Cell>, start: nat, end: nat, style: Style): (r: seq<Cell>)
    ensures |r| == |row|
  {
    seq(|row|, i requires 0 <= i < |row| => if start <= i < end then BlankStyled(style) else row[i])
  }

  /** The cells from `col` on moved `count` places right, blanks moving in. */
  function ShiftedRight(row: seq<Cell>, col: nat, count: nat, style: Style): (r: seq<Cell>)
    ensures |r| == |row|
  {
    seq(|row|, i requires 0 <= i < |row| =>
      if i < col then row[i] else if i < col + count then BlankStyled(style) else row[i - count])
  }

  /** The cells from `col + count` on moved `count` places left, blanks moving in. */
  function ShiftedLeft(row: seq<Cell>, col: nat, count: nat, style: Style): (r: seq<Cell>)
    ensures |r| == |row|
  {
    seq(|row|, i requires 0 <= i < |row| =>
      if i < col then row[i] else if i + count < |row| then row[i + count] else BlankStyled(style))
  }

  /** The column holding the text of the character that ends just before `end`. */
  function BaseBefore(row: seq<Cell>, end: nat): (col: nat)
    requires 0 < end <= |row|
    ensures col < end
  {
    if row[end - 1].continuation && end >= 2 then end - 2 else end - 1
  }

  function WithCombining(row: seq<Cell>, col: nat, c: Glyph): (r: seq<Cell>)
    requires col < |row|
    ensures |r| == |row|
  {
    row[col := row[col].(text := row[col].text + [c])]
  }

  lemma WithCombiningIsPaired(row: seq<Cell>, col: nat, c: Glyph)
    requires Paired(row) && col < |row| && CharWidth(c) == 0
    ensures Paired(WithCombining(row, col, c))
  {
    forall i | 0 <= i < |row| ensures PairedAt(WithCombining(row, col, c), i) {
      assert PairedAt(row, i);
    }
  }
}
