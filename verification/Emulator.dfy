/** The emulator itself: a grid edited in place, cell by cell and row by row.

    `View` is the state as a value. Each method is proved to take it where the
    function of the same name in `Screens` says. */
module Emulator {
  import opened Wrappers
  import opened Cells
  import opened Screens
  import RowEdits

  class Terminal {
    const cols: nat
    const rows: nat
    var buffer: Grid
    var cursorRow: nat
    var cursorCol: nat
    var style: Style
    var savedCursor: (nat, nat)
    var scrollTop: nat
    var scrollBottom: nat
    var alternateScreen: bool
    var savedMainScreen: Option<SavedScreen>

    ghost function View(): Screen
      reads this
    {
      Screen(rows, cols, buffer, cursorRow, cursorCol, style, savedCursor, scrollTop, scrollBottom,
             savedMainScreen)
    }

    ghost predicate Valid()
      reads this
    {
      Inv(View()) && (alternateScreen <==> savedMainScreen.Some?)
    }

    constructor (cols: nat, rows: nat)
      ensures Valid() && View() == Initial(cols, rows)
    {
      var c, r := if cols == 0 then 1 else cols, if rows == 0 then 1 else rows;
      this.cols, this.rows := c, r;
      buffer := BlankGrid(r, c);
      cursorRow, cursorCol := 0, 0;
      style := DEFAULT_STYLE;
      savedCursor := (0, 0);
      scrollTop, scrollBottom := 0, r - 1;
      alternateScreen, savedMainScreen := false, None;
    }

    /* ---------- erasing and shifting within rows ---------- */

    method ClearRowRange(row: nat, startCol: nat, endCol: nat, style: Style)
      requires row < |buffer| == rows && RowOk(buffer[row], cols)
      modifies this`buffer
      ensures buffer == old(buffer)[row := Sanitized(Erased(old(buffer)[row], startCol, endCol, style))]
    {
      var line := RowEdits.ClearRange(buffer[row], startCol, endCol, style);
      buffer := buffer[row := line];
    }

    /** Whole rows of blanks: the screen is erased one row after the other. */
    method ClearRows(first: nat, end: nat)
      requires Valid() && first <= end <= rows
      modifies this`buffer
      ensures Valid() && View() == WithBlankRows(old(View()), first, end)
    {
      ghost var s := View();
      for r := first to end
        invariant Valid() && View() == WithBlankRows(s, first, r)
      {
        assert Erased(buffer[r], 0, cols, style) == StyledRow(cols, style);
        SanitizedKeepsPaired(StyledRow(cols, style));
        ClearRowRange(r, 0, cols, style);
        assert buffer == WithBlankRows(s, first, r + 1).buffer;
      }
    }

    method ClearInRow(startCol: nat, endCol: nat)
      requires Valid()
      modifies this`buffer
      ensures Valid() && View() == EraseInRow(old(View()), startCol, endCol)
    {
      ClearRowRange(cursorRow, startCol, endCol, style);
    }

    method ClearScreenAll()
      requires Valid()
      modifies this`buffer
      ensures Valid() && View() == EraseInDisplay(old(View()), 2)
    {
      ClearRows(0, rows);
    }

    method ClearToEndOfScreen()
      requires Valid()
      modifies this`buffer
      ensures Valid() && View() == EraseInDisplay(old(View()), 0)
    {
      ClearInRow(cursorCol, cols);
      ClearRows(cursorRow + 1, rows);
    }

    method ClearToStartOfScreen()
      requires Valid()
      modifies this`buffer
      ensures Valid() && View() == EraseInDisplay(old(View()), 1)
    {
      ghost var s := View();
      ClearRows(0, cursorRow);
      ClearInRow(0, cursorCol + 1);
      assert buffer == EraseInDisplay(s, 1).buffer;
    }

    method InsertBlankChars(count: nat)
      requires Valid()
      modifies this`buffer
      ensures Valid() && View() == Screens.InsertBlankChars(old(View()), count)
    {
      var line := RowEdits.InsertBlanks(buffer[cursorRow], cursorCol, count, style);
      buffer := buffer[cursorRow := line];
    }

    method DeleteChars(count: nat)
      requires Valid()
      modifies this`buffer
      ensures Valid() && View() == Screens.DeleteChars(old(View()), count)
    {
      var line := RowEdits.DeleteCells(buffer[cursorRow], cursorCol, count, style);
      buffer := buffer[cursorRow := line];
    }

    method EraseChars(count: nat)
      requires Valid()
      modifies this`buffer
      ensures Valid() && View() == EraseInRow(old(View()), cursorCol, cursorCol + count)
    {
      var line := RowEdits.EraseCells(buffer[cursorRow], cursorCol, count, style);
      buffer := buffer[cursorRow := line];
    }

    /* ---------- scrolling ---------- */

    method ShiftRowsUp(top: nat, bottom: nat)
      requires |buffer| == rows && top <= bottom < rows
      modifies this`buffer
      ensures buffer == ScrolledUp(old(buffer), top, bottom, 1, cols)
    {
      ghost var g := buffer;
      for row := top to bottom
        invariant |buffer| == |g|
        invariant forall r | 0 <= r < top || row <= r < |g| :: buffer[r] == g[r]
        invariant forall r | top <= r < row :: buffer[r] == g[r + 1]
      {
        buffer := buffer[row := buffer[row + 1]];
      }
      buffer := buffer[bottom := BlankRow(cols)];
    }

    method ShiftRowsDown(top: nat, bottom: nat)
      requires |buffer| == rows && top <= bottom < rows
      modifies this`buffer
      ensures buffer == ScrolledDown(old(buffer), top, bottom, 1, cols)
    {
      ghost var g := buffer;
      for row := bottom + 1 downto top + 1
        invariant |buffer| == |g|
        invariant forall r | 0 <= r < row || bottom < r < |g| :: buffer[r] == g[r]
        invariant forall r | row <= r <= bottom :: buffer[r] == g[r - 1]
      {
        buffer := buffer[row := buffer[row - 1]];
      }
      buffer := buffer[top := BlankRow(cols)];
    }

    method ScrollUpRegion(top: nat, bottom: nat, count: nat)
      requires |buffer| == rows && top <= bottom < rows
      modifies this`buffer
      ensures buffer == ScrolledUp(old(buffer), top, bottom, count, cols)
    {
      var n := Min(count, bottom - top + 1);
      ghost var g := buffer;
      for k := 0 to n
        invariant buffer == ScrolledUp(g, top, bottom, k, cols)
      {
        ScrolledUpComposes(g, top, bottom, k, 1, cols);
        ShiftRowsUp(top, bottom);
      }
      ScrolledUpComposes(g, top, bottom, count, 0, cols);
    }

    method ScrollDownRegion(top: nat, bottom: nat, count: nat)
      requires |buffer| == rows && top <= bottom < rows
      modifies this`buffer
      ensures buffer == ScrolledDown(old(buffer), top, bottom, count, cols)
    {
      var n := Min(count, bottom - top + 1);
      ghost var g := buffer;
      for k := 0 to n
        invariant buffer == ScrolledDown(g, top, bottom, k, cols)
      {
        ScrolledDownComposes(g, top, bottom, k, 1, cols);
        ShiftRowsDown(top, bottom);
      }
      ScrolledDownComposes(g, top, bottom, count, 0, cols);
    }

    method InsertLines(count: nat)
      requires Valid()
      modifies this`buffer
      ensures Valid() && View() == Screens.InsertLines(old(View()), count)
    {
      var row := cursorRow;
      if row < scrollTop || row > scrollBottom {
        return;
      }
      ghost var g := buffer;
      var n := Min(count, scrollBottom - row + 1);
      for k := 0 to n
        invariant buffer == ScrolledDown(g, row, scrollBottom, k, cols)
      {
        ScrolledDownComposes(g, row, scrollBottom, k, 1, cols);
        ShiftRowsDown(row, scrollBottom);
      }
      ScrolledDownComposes(g, row, scrollBottom, count, 0, cols);
    }

    method DeleteLines(count: nat)
      requires Valid()
      modifies this`buffer
      ensures Valid() && View() == Screens.DeleteLines(old(View()), count)
    {
      var row := cursorRow;
      if row < scrollTop || row > scrollBottom {
        return;
      }
      ghost var g := buffer;
      var n := Min(count, scrollBottom - row + 1);
      for k := 0 to n
        invariant buffer == ScrolledUp(g, row, scrollBottom, k, cols)
      {
        ScrolledUpComposes(g, row, scrollBottom, k, 1, cols);
        ShiftRowsUp(row, scrollBottom);
      }
      ScrolledUpComposes(g, row, scrollBottom, count, 0, cols);
    }

    /* ---------- cursor, printing, screens ---------- */

    method Linefeed()
      requires Valid()
      modifies this`buffer, this`cursorRow
      ensures Valid() && View() == Screens.Linefeed(old(View()))
    {
      if cursorRow == scrollBottom {
        ScrollUpRegion(scrollTop, scrollBottom, 1);
      } else if cursorRow < rows - 1 {
        cursorRow := cursorRow + 1;
      } else {
        ScrollUpRegion(0, rows - 1, 1);
      }
    }

    method ReverseIndex()
      requires Valid()
      modifies this`buffer, this`cursorRow
      ensures Valid() && View() == Screens.ReverseIndex(old(View()))
    {
      if cursorRow == scrollTop {
        ScrollDownRegion(scrollTop, scrollBottom, 1);
      } else if cursorRow > 0 {
        cursorRow := cursorRow - 1;
      }
    }

    method PutChar(c: Glyph)
      requires Valid() && Printable(cols, c)
      modifies this`buffer, this`cursorRow, this`cursorCol
      ensures Valid() && View() == Screens.PutChar(old(View()), c)
    {
      hide Screens.Linefeed, AppendCombining, Overwritten;
      var width := CharWidth(c);
      if width == 0 {
        AppendCombiningChar(c);
        return;
      }
      if width == 2 && cursorCol == cols - 1 {
        cursorCol := 0;
        Linefeed();
      }
      var line := RowEdits.WriteCell(buffer[cursorRow], cursorCol, c, style);
      buffer := buffer[cursorRow := line];
      var next := cursorCol + width;
      if next < cols {
        cursorCol := next;
      } else {
        cursorCol := 0;
        Linefeed();
      }
    }

    method AppendCombiningChar(c: Glyph)
      requires Valid() && CharWidth(c) == 0
      modifies this`buffer
      ensures Valid() && View() == Screens.AppendCombining(old(View()), c)
    {
      ghost var s := View();
      var row := cursorRow;
      if cursorCol > 0 {
        var col := cursorCol - 1;
        ghost var line := buffer[row];
        assert PairedAt(line, col);
        if buffer[row][col].continuation && col > 0 {
          col := col - 1;
        }
        if !buffer[row][col].continuation {
          WithCombiningIsPaired(line, col, c);
          buffer := buffer[row := WithCombining(buffer[row], col, c)];
          return;
        }
      }
      if row > 0 {
        WithCombiningIsPaired(buffer[row - 1], BaseBefore(buffer[row - 1], cols), c);
        var found := RowEdits.FindBase(buffer[row - 1]);
        buffer := buffer[row - 1 := WithCombining(buffer[row - 1], found.value, c)];
      }
    }

    method SetScrollRegion(top: nat, bottom: nat)
      requires Valid()
      modifies this`scrollTop, this`scrollBottom, this`cursorRow, this`cursorCol
      ensures Valid() && View() == Screens.SetScrollRegion(old(View()), top, bottom)
    {
      if top < bottom && bottom < rows {
        scrollTop, scrollBottom := top, bottom;
      } else {
        scrollTop, scrollBottom := 0, rows - 1;
      }
      cursorRow := scrollTop;
      cursorCol := 0;
    }

    method EnterAlternateScreen()
      requires Valid()
      modifies this
      ensures Valid() && View() == EnterAlternate(old(View()))
    {
      if alternateScreen {
        return;
      }
      savedMainScreen := Some(SavedScreen(buffer, cursorRow, cursorCol, style, savedCursor,
                                          scrollTop, scrollBottom));
      alternateScreen := true;
      BlankAllRows();
      cursorRow, cursorCol := 0, 0;
      savedCursor := (0, 0);
      scrollTop, scrollBottom := 0, rows - 1;
    }

    method BlankAllRows()
      requires |buffer| == rows
      modifies this`buffer
      ensures buffer == BlankGrid(rows, cols)
    {
      for row := 0 to rows
        invariant |buffer| == rows
        invariant forall r | 0 <= r < row :: buffer[r] == BlankRow(cols)
      {
        buffer := buffer[row := BlankRow(cols)];
      }
    }

    method LeaveAlternateScreen()
      requires Valid()
      modifies this
      ensures Valid() && View() == LeaveAlternate(old(View()))
    {
      if !alternateScreen {
        return;
      }
      var saved := savedMainScreen.value;
      savedMainScreen := None;
      buffer := saved.buffer;
      cursorRow := Min(saved.row, rows - 1);
      cursorCol := Min(saved.col, cols - 1);
      style := saved.style;
      savedCursor := saved.saved;
      scrollTop := Min(saved.top, rows - 1);
      scrollBottom := Min(saved.bottom, rows - 1);
      if scrollTop >= scrollBottom {
        scrollTop, scrollBottom := 0, rows - 1;
      }
      alternateScreen := false;
    }

    method ResetTerminal()
      requires Valid()
      modifies this
      ensures Valid() && View() == Screens.Reset(old(View()))
    {
      style := DEFAULT_STYLE;
      savedCursor := (0, 0);
      scrollTop, scrollBottom := 0, rows - 1;
      cursorRow, cursorCol := 0, 0;
      BlankAllRows();
    }

    /* ---------- dispatch ---------- */

    method SelectGraphicRendition(values: seq<nat>)
      requires Valid()
      modifies this`style
      ensures style == if values == [] then DEFAULT_STYLE else SgrFrom(old(style), values, 0)
    {
      if values == [] {
        style := DEFAULT_STYLE;
        return;
      }
      var i := 0;
      while i < |values|
        invariant SgrFrom(style, values, i) == SgrFrom(old(style), values, 0)
      {
        var (next, used) := SgrStep(style, values, i);
        style := next;
        i := i + used;
      }
    }

    method HandlePrivateModes(values: seq<nat>, on: bool)
      requires Valid()
      modifies this
      ensures Valid() && View() == PrivateModes(old(View()), values, on)
    {
      for i := 0 to |values|
        invariant Valid()
        invariant PrivateModes(View(), values[i..], on) == PrivateModes(old(View()), values, on)
      {
        assert values[i..][1..] == values[i + 1..];
        if values[i] == 1049 {
          if on {
            EnterAlternateScreen();
          } else {
            LeaveAlternateScreen();
          }
        }
      }
    }

    method MoveCursor(row: nat, col: nat)
      requires Valid()
      modifies this`cursorRow, this`cursorCol
      ensures Valid() && View() == MoveTo(old(View()), row, col)
    {
      cursorRow := Min(row, rows - 1);
      cursorCol := Min(col, cols - 1);
    }

    method ExecuteControl(byte: nat)
      requires Valid()
      modifies this
      ensures Valid() && View() == Control(old(View()), byte)
    {
      match byte {
        case 10 => Linefeed();
        case 13 => cursorCol := 0;
        case 9 => cursorCol := Min((cursorCol + 8) / 8 * 8, cols - 1);
        case 8 =>
          if cursorCol > 0 {
            cursorCol := cursorCol - 1;
          }
        case _ =>
      }
    }

    method CsiMotion(params: seq<seq<nat>>, ghost intermediates: seq<char>, action: char)
      requires Valid() && IsMotion(action)
      modifies this`cursorRow, this`cursorCol, this`savedCursor
      ensures View() == CsiStep(old(View()), params, intermediates, action)
    {
      var n := ParamAt(params, 0, 1);
      match action {
        case 'H' => MoveCursor(SatSub(n, 1), SatSub(ParamAt(params, 1, 1), 1));
        case 'f' => MoveCursor(SatSub(n, 1), SatSub(ParamAt(params, 1, 1), 1));
        case 'A' => cursorRow := SatSub(cursorRow, n);
        case 'B' => cursorRow := Min(cursorRow + n, rows - 1);
        case 'C' => cursorCol := Min(cursorCol + n, cols - 1);
        case 'D' => cursorCol := SatSub(cursorCol, n);
        case 'E' => cursorRow := Min(cursorRow + n, rows - 1); cursorCol := 0;
        case 'F' => cursorRow := SatSub(cursorRow, n); cursorCol := 0;
        case 'G' => cursorCol := Min(SatSub(n, 1), cols - 1);
        case 'd' => cursorRow := Min(SatSub(n, 1), rows - 1);
        case 's' => savedCursor := (cursorRow, cursorCol);
        case 'u' => MoveCursor(savedCursor.0, savedCursor.1);
      }
    }

    method CsiEdit(params: seq<seq<nat>>, intermediates: seq<char>, action: char)
      requires Valid() && !IsMotion(action)
      modifies this
      ensures Valid() && View() == CsiStep(old(View()), params, intermediates, action)
    {
      var n := ParamAt(params, 0, 1);
      match action {
        case 'm' => SelectGraphicRendition(Flat(params));
        case 'J' => EraseDisplay(ParamAt(params, 0, 0));
        case 'K' => EraseLine(ParamAt(params, 0, 0));
        case '@' => InsertBlankChars(n);
        case 'P' => DeleteChars(n);
        case 'X' => EraseChars(n);
        case 'L' => InsertLines(n);
        case 'M' => DeleteLines(n);
        case 'S' => ScrollUpRegion(scrollTop, scrollBottom, n);
        case 'T' => ScrollDownRegion(scrollTop, scrollBottom, n);
        case 'r' => SetScrollRegion(SatSub(n, 1), SatSub(ParamAt(params, 1, rows % 0x1_0000), 1));
        case 'h' => if '?' in intermediates { HandlePrivateModes(Flat(params), true); }
        case 'l' => if '?' in intermediates { HandlePrivateModes(Flat(params), false); }
        case _ =>
      }
    }

    method CsiDispatch(params: seq<seq<nat>>, intermediates: seq<char>, action: char)
      requires Valid()
      modifies this
      ensures Valid() && View() == CsiStep(old(View()), params, intermediates, action)
    {
      hide CsiStep, Inv;
      if IsMotion(action) {
        CsiMotion(params, intermediates, action);
      } else {
        CsiEdit(params, intermediates, action);
      }
    }

    method EraseDisplay(param: nat)
      requires Valid()
      modifies this`buffer
      ensures Valid() && View() == EraseInDisplay(old(View()), param)
    {
      match param {
        case 0 => ClearToEndOfScreen();
        case 1 => ClearToStartOfScreen();
        case 2 => ClearScreenAll();
        case 3 => ClearScreenAll();
        case _ =>
      }
    }

    method EraseLine(param: nat)
      requires Valid()
      modifies this`buffer
      ensures Valid() && View() == EraseInLine(old(View()), param)
    {
      match param {
        case 0 => ClearInRow(cursorCol, cols);
        case 1 => ClearInRow(0, cursorCol + 1);
        case 2 => ClearInRow(0, cols);
        case _ =>
      }
    }

    method EscDispatch(intermediates: seq<char>, final: char)
      requires Valid()
      modifies this
      ensures Valid() && View() == EscStep(old(View()), intermediates, final)
    {
      if intermediates != [] {
        return;
      }
      match final {
        case '7' => savedCursor := (cursorRow, cursorCol);
        case '8' => MoveCursor(savedCursor.0, savedCursor.1);
        case 'D' => Linefeed();
        case 'E' => Linefeed(); cursorCol := 0;
        case 'M' => ReverseIndex();
        case 'c' => ResetTerminal();
        case _ =>
      }
    }

    /** Feeding a stretch of output runs its events in order. */
    method Feed(evs: seq<Event>)
      requires Valid() && AllAccepted(cols, evs)
      modifies this
      ensures Valid() && View() == Run(old(View()), evs)
    {
      for i := 0 to |evs|
        invariant Valid() && Run(View(), evs[i..]) == Run(old(View()), evs)
      {
        assert evs[i..][0] == evs[i] && evs[i..][1..] == evs[i + 1..];
        assert Accepts(cols, evs[i]);
        match evs[i] {
          case Print(c) => PutChar(c);
          case Execute(byte) => ExecuteControl(byte);
          case Csi(params, intermediates, action) => CsiDispatch(params, intermediates, action);
          case Esc(intermediates, final) => EscDispatch(intermediates, final);
          case Inert =>
        }
      }
    }
  }
}
