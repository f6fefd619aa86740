/** The column loops of the emulator, each editing one row from left to right or
    right to left, and the row each is proved to leave. */
module RowEdits {
  import opened Wrappers
  import opened Cells

  method ClearOverlappedCell(line: seq<Cell>, col: nat) returns (r: seq<Cell>)
    requires col < |line|
    ensures r == ClearedOverlap(line, col)
  {
    r := line;
    if r[col].continuation {
      r := r[col := Blank()];
      if col > 0 && IsWideLead(r[col - 1]) {
        r := r[col - 1 := Blank()];
      }
      return;
    }
    if IsWideLead(r[col]) && col + 1 < |r| && r[col + 1].continuation {
      r := r[col + 1 := Blank()];
    }
    r := r[col := Blank()];
  }

  /** What the pass has put into column `col` before it gets there. */
  function Arriving(line: seq<Cell>, fixed: seq<Cell>, col: nat): Cell
    requires col < |line| == |fixed|
  {
    if col > 0 && IsWideLead(fixed[col - 1]) && !line[col].continuation
    then Continuation(fixed[col - 1].style) else line[col]
  }

  method SanitizeRow(line: seq<Cell>) returns (r: seq<Cell>)
    ensures r == Sanitized(line)
    ensures Paired(r)
  {
    ghost var fixed := Sanitized(line);
    r := line;
    for col := 0 to |line|
      invariant |r| == |line|
      invariant forall k | 0 <= k < col :: r[k] == fixed[k]
      invariant forall k | col < k < |line| :: r[k] == line[k]
      invariant col < |line| ==> r[col] == Arriving(line, fixed, col)
    {
      SanitizedUnfolds(line, col);
      if r[col].continuation {
        if col == 0 || !IsWideLead(r[col - 1]) {
          r := r[col := Blank()];
        }
        continue;
      }
      if IsWideLead(r[col]) {
        if col + 1 >= |r| {
          r := r[col := Blank()];
          continue;
        }
        if !r[col + 1].continuation {
          r := r[col + 1 := Continuation(r[col].style)];
        }
      }
    }
    SanitizedIsPaired(line);
  }

  method ClearRange(line: seq<Cell>, startCol: nat, endCol: nat, style: Style) returns (r: seq<Cell>)
    requires Paired(line)
    ensures r == Sanitized(Erased(line, startCol, endCol, style))
  {
    r := line;
    var start, end := Min(startCol, |line|), Min(endCol, |line|);
    if start >= end {
      SanitizedKeepsPaired(line);
      assert Erased(line, startCol, endCol, style) == line;
      return;
    }
    for col := start to end
      invariant r == Erased(line, start, col, style)
    {
      r := r[col := BlankStyled(style)];
    }
    assert r == Erased(line, startCol, endCol, style);
    r := SanitizeRow(r);
  }

  method InsertBlanks(line: seq<Cell>, col: nat, count: nat, style: Style) returns (r: seq<Cell>)
    requires Paired(line) && col < |line|
    ensures r == Sanitized(ShiftedRight(line, col, count, style))
  {
    hide Sanitized, Paired;
    r := line;
    var n := Min(count, |line| - col);
    if n == 0 {
      SanitizedKeepsPaired(line);
      assert ShiftedRight(line, col, count, style) == line;
      return;
    }
    for idx := |line| - n downto col
      invariant |r| == |line|
      invariant forall k | 0 <= k < idx + n :: r[k] == line[k]
      invariant forall k | idx + n <= k < |line| :: r[k] == line[k - n]
    {
      r := r[idx + n := r[idx]];
    }
    for idx := col to col + n
      invariant |r| == |line|
      invariant forall k | 0 <= k < col :: r[k] == line[k]
      invariant forall k | col <= k < idx :: r[k] == BlankStyled(style)
      invariant forall k | col + n <= k < |line| :: r[k] == line[k - n]
    {
      r := r[idx := BlankStyled(style)];
    }
    assert r == ShiftedRight(line, col, count, style);
    r := SanitizeRow(r);
  }

  method DeleteCells(line: seq<Cell>, col: nat, count: nat, style: Style) returns (r: seq<Cell>)
    requires Paired(line) && col < |line|
    ensures r == Sanitized(ShiftedLeft(line, col, count, style))
  {
    hide Sanitized, Paired;
    r := line;
    var n := Min(count, |line| - col);
    if n == 0 {
      SanitizedKeepsPaired(line);
      assert ShiftedLeft(line, col, count, style) == line;
      return;
    }
    for idx := col to |line| - n
      invariant |r| == |line|
      invariant forall k | 0 <= k < col || idx <= k < |line| :: r[k] == line[k]
      invariant forall k | col <= k < idx :: r[k] == line[k + n]
    {
      r := r[idx := r[idx + n]];
    }
    for idx := |line| - n to |line|
      invariant |r| == |line|
      invariant forall k | 0 <= k < col :: r[k] == line[k]
      invariant forall k | col <= k < |line| - n :: r[k] == line[k + n]
      invariant forall k | |line| - n <= k < idx :: r[k] == BlankStyled(style)
    {
      r := r[idx := BlankStyled(style)];
    }
    assert r == ShiftedLeft(line, col, count, style);
    r := SanitizeRow(r);
  }

  /** Unlike `ClearRange`, erasing repairs the row even where nothing is erased. */
  method EraseCells(line: seq<Cell>, col: nat, count: nat, style: Style) returns (r: seq<Cell>)
    requires col < |line|
    ensures r == Sanitized(Erased(line, col, col + count, style))
  {
    r := line;
    var end := Min(col + count, |line|);
    for idx := col to end
      invariant r == Erased(line, col, idx, style)
    {
      r := r[idx := BlankStyled(style)];
    }
    assert r == Erased(line, col, col + count, style);
    r := SanitizeRow(r);
  }

  /** Writing one character of width one or two over a paired row. */
  method WriteCell(line: seq<Cell>, col: nat, c: Glyph, style: Style) returns (r: seq<Cell>)
    requires Paired(line) && CharWidth(c) >= 1 && col + CharWidth(c) <= |line|
    ensures r == Overwritten(line, col, Cell([c], style, false), CharWidth(c))
    ensures Paired(r)
  {
    var cell := Cell([c], style, false);
    r := ClearOverlappedCell(line, col);
    r := r[col := cell];
    if CharWidth(c) == 2 {
      r := ClearOverlappedCell(r, col + 1);
      r := r[col + 1 := Continuation(style)];
    }
    ClearThenWriteOverwrites(line, col, cell, CharWidth(c));
    OverwrittenIsPaired(line, col, cell, CharWidth(c));
  }

  /** The backward search for a cell that can take a combining character. */
  method FindBase(line: seq<Cell>) returns (found: Option<nat>)
    requires Paired(line) && |line| >= 1
    ensures found == Some(BaseBefore(line, |line|))
  {
    ghost var base := BaseBefore(line, |line|);
    assert PairedAt(line, |line| - 1) && PairedAt(line, base);
    found := None;
    for col := |line| downto 0
      invariant base < col
    {
      if !line[col].continuation {
        return Some(col);
      }
    }
  }
}
