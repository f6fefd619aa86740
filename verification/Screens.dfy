/** The terminal as a value, and what each escape sequence does to it.

    Every operation is stated on whole rows and whole grids, without the loops and
    repairs of the emulator; the class in `Emulator` is proved to compute it. Each
    function's postcondition is the invariant `Inv`, so any run keeps it. */
module Screens {
  import opened Wrappers
  import opened Cells

  type Grid = seq<seq<Cell>>

  /** The main screen as put aside while the alternate screen is shown. */
  datatype SavedScreen = SavedScreen(buffer: Grid, row: nat, col: nat, style: Style,
                                     saved: (nat, nat), top: nat, bottom: nat)

  datatype Screen = Screen(rows: nat, cols: nat, buffer: Grid, row: nat, col: nat, style: Style,
                           saved: (nat, nat), top: nat, bottom: nat, main: Option<SavedScreen>)

  ghost predicate RowOk(row: seq<Cell>, cols: nat) {
    |row| == cols && Paired(row)
  }

  ghost predicate GridOk(g: Grid, rows: nat, cols: nat) {
    |g| == rows && forall r | 0 <= r < rows :: RowOk(g[r], cols)
  }

  /** The scroll region is a proper range of rows; a one-row screen has only one. */
  predicate RegionOk(top: nat, bottom: nat, rows: nat) {
    bottom < rows && (top < bottom || (top == 0 && rows == 1))
  }

  ghost predicate SavedOk(m: SavedScreen, rows: nat, cols: nat) {
    && GridOk(m.buffer, rows, cols)
    && m.row < rows && m.col < cols
    && m.saved.0 < rows && m.saved.1 < cols
    && RegionOk(m.top, m.bottom, rows)
  }

  ghost predicate Inv(s: Screen) {
    && s.rows >= 1 && s.cols >= 1
    && GridOk(s.buffer, s.rows, s.cols)
    && s.row < s.rows && s.col < s.cols
    && s.saved.0 < s.rows && s.saved.1 < s.cols
    && RegionOk(s.top, s.bottom, s.rows)
    && (s.main.Some? ==> SavedOk(s.main.value, s.rows, s.cols))
  }

  /** What every operation keeps. */
  ghost predicate Keeps(s: Screen, t: Screen) {
    Inv(t) && t.rows == s.rows && t.cols == s.cols
  }

  /** An edit changes nothing but the grid. */
  ghost predicate OnlyEdits(s: Screen, t: Screen) {
    Keeps(s, t) && t == s.(buffer := t.buffer)
  }

  function BlankGrid(rows: nat, cols: nat): (g: Grid)
    ensures GridOk(g, rows, cols)
  {
    var g := seq(rows, i => BlankRow(cols));
    assert forall i | 0 <= i < cols :: PairedAt(BlankRow(cols), i);
    assert forall r | 0 <= r < rows :: g[r] == BlankRow(cols);
    g
  }

  /** A new terminal has at least one row and one column. */
  function Initial(cols: nat, rows: nat): (s: Screen)
    ensures Inv(s) && s.main.None?
  {
    var c, r := if cols == 0 then 1 else cols, if rows == 0 then 1 else rows;
    Screen(r, c, BlankGrid(r, c), 0, 0, DEFAULT_STYLE, (0, 0), 0, r - 1, None)
  }

  /** Rows `top..=bottom` moved up by `n`, blank rows moving in at the bottom. */
  function ScrolledUp(g: Grid, top: nat, bottom: nat, n: nat, cols: nat): (r: Grid)
    requires bottom < |g|
    ensures |r| == |g|
    ensures GridOk(g, |g|, cols) ==> GridOk(r, |g|, cols)
  {
    var blank := BlankGrid(1, cols)[0];
    seq(|g|, i requires 0 <= i < |g| =>
      if !(top <= i <= bottom) then g[i] else if i + n <= bottom then g[i + n] else blank)
  }

  /** Rows `top..=bottom` moved down by `n`, blank rows moving in at the top. */
  function ScrolledDown(g: Grid, top: nat, bottom: nat, n: nat, cols: nat): (r: Grid)
    requires bottom < |g|
    ensures |r| == |g|
    ensures GridOk(g, |g|, cols) ==> GridOk(r, |g|, cols)
  {
    var blank := BlankGrid(1, cols)[0];
    seq(|g|, i requires 0 <= i < |g| =>
      if !(top <= i <= bottom) then g[i] else if top + n <= i then g[i - n] else blank)
  }

  /** Scrolling twice is scrolling by the sum, up to the height of the region. */
  lemma ScrolledUpComposes(g: Grid, top: nat, bottom: nat, n: nat, m: nat, cols: nat)
    requires bottom < |g|
    ensures ScrolledUp(ScrolledUp(g, top, bottom, n, cols), top, bottom, m, cols)
         == ScrolledUp(g, top, bottom, n + m, cols)
    ensures n >= bottom + 1 - top ==>
              ScrolledUp(g, top, bottom, n, cols) == ScrolledUp(g, top, bottom, SatSub(bottom + 1, top), cols)
  {
  }

  lemma ScrolledDownComposes(g: Grid, top: nat, bottom: nat, n: nat, m: nat, cols: nat)
    requires bottom < |g|
    ensures ScrolledDown(ScrolledDown(g, top, bottom, n, cols), top, bottom, m, cols)
         == ScrolledDown(g, top, bottom, n + m, cols)
    ensures n >= bottom + 1 - top ==>
              ScrolledDown(g, top, bottom, n, cols) == ScrolledDown(g, top, bottom, SatSub(bottom + 1, top), cols)
  {
  }

  function Linefeed(s: Screen): (t: Screen)
    requires Inv(s)
    ensures Keeps(s, t)
  {
    if s.row == s.bottom then s.(buffer := ScrolledUp(s.buffer, s.top, s.bottom, 1, s.cols))
    else if s.row + 1 < s.rows then s.(row := s.row + 1)
    else s.(buffer := ScrolledUp(s.buffer, 0, s.rows - 1, 1, s.cols))
  }

  function ReverseIndex(s: Screen): (t: Screen)
    requires Inv(s)
    ensures Keeps(s, t)
  {
    if s.row == s.top then s.(buffer := ScrolledDown(s.buffer, s.top, s.bottom, 1, s.cols))
    else s.(row := SatSub(s.row, 1))
  }

  function WithRow(s: Screen, r: nat, row: seq<Cell>): (t: Screen)
    requires Inv(s) && r < s.rows && RowOk(row, s.cols)
    ensures OnlyEdits(s, t)
  {
    s.(buffer := s.buffer[r := row])
  }

  /** Printing indexes the column right of the screen when a wide character meets a
      one-column terminal; on every other input it is in range. */
  predicate Printable(cols: nat, c: Glyph) {
    CharWidth(c) == 2 ==> cols >= 2
  }

  /** Where the next character of width `w` goes: a wide one does not fit the last column. */
  function BeforePrinting(s: Screen, w: nat): (t: Screen)
    requires Inv(s) && 1 <= w <= 2
    ensures Keeps(s, t)
    ensures s.cols >= w ==> t.col + w <= t.cols
  {
    if w == 2 && s.col == s.cols - 1 then Linefeed(s.(col := 0)) else s
  }

  function PutChar(s: Screen, c: Glyph): (t: Screen)
    requires Inv(s) && Printable(s.cols, c)
    ensures Keeps(s, t)
  {
    var w := CharWidth(c);
    if w == 0 then AppendCombining(s, c)
    else
      var at := BeforePrinting(s, w);
      var cell := Cell([c], s.style, false);
      OverwrittenIsPaired(at.buffer[at.row], at.col, cell, w);
      var put := WithRow(at, at.row, Overwritten(at.buffer[at.row], at.col, cell, w));
      if put.col + w < put.cols then put.(col := put.col + w) else Linefeed(put.(col := 0))
  }

  /** A combining character joins the text of the character before the cursor,
      which at the left margin is the last one of the row above. */
  function AppendCombining(s: Screen, c: Glyph): (t: Screen)
    requires Inv(s) && CharWidth(c) == 0
    ensures OnlyEdits(s, t)
  {
    if s.col == 0 && s.row == 0 then s
    else
      var (r, end) := if s.col > 0 then (s.row, s.col) else (s.row - 1, s.cols);
      var col := BaseBefore(s.buffer[r], end);
      WithCombiningIsPaired(s.buffer[r], col, c);
      WithRow(s, r, WithCombining(s.buffer[r], col, c))
  }

  function Repaired(s: Screen, row: seq<Cell>): (t: Screen)
    requires Inv(s) && |row| == s.cols
    ensures OnlyEdits(s, t)
  {
    SanitizedIsPaired(row);
    WithRow(s, s.row, Sanitized(row))
  }

  function EraseInRow(s: Screen, start: nat, end: nat): (t: Screen)
    requires Inv(s)
    ensures OnlyEdits(s, t)
  {
    Repaired(s, Erased(s.buffer[s.row], start, end, s.style))
  }

  function InsertBlankChars(s: Screen, count: nat): (t: Screen)
    requires Inv(s)
    ensures OnlyEdits(s, t)
  {
    Repaired(s, ShiftedRight(s.buffer[s.row], s.col, count, s.style))
  }

  function DeleteChars(s: Screen, count: nat): (t: Screen)
    requires Inv(s)
    ensures OnlyEdits(s, t)
  {
    Repaired(s, ShiftedLeft(s.buffer[s.row], s.col, count, s.style))
  }

  function StyledRow(cols: nat, style: Style): (row: seq<Cell>)
    ensures RowOk(row, cols)
  {
    var row := seq(cols, i => BlankStyled(style));
    assert forall i | 0 <= i < cols :: PairedAt(row, i);
    row
  }

  /** Rows `first..end` all blank in the current style. */
  function WithBlankRows(s: Screen, first: nat, end: nat): (t: Screen)
    requires Inv(s)
    ensures OnlyEdits(s, t)
  {
    var blank := StyledRow(s.cols, s.style);
    var g := seq(s.rows, r requires 0 <= r < s.rows => if first <= r < end then blank else s.buffer[r]);
    s.(buffer := g)
  }

  /** Erase in display: 0 to the end, 1 to the start, 2 and 3 all of it. */
  function EraseInDisplay(s: Screen, param: nat): (t: Screen)
    requires Inv(s)
    ensures OnlyEdits(s, t)
  {
    match param
    case 0 => WithBlankRows(EraseInRow(s, s.col, s.cols), s.row + 1, s.rows)
    case 1 => WithBlankRows(EraseInRow(s, 0, s.col + 1), 0, s.row)
    case 2 => WithBlankRows(s, 0, s.rows)
    case 3 => WithBlankRows(s, 0, s.rows)
    case _ => s
  }

  /** Erase in line: 0 to the end, 1 to the start, 2 all of it. */
  function EraseInLine(s: Screen, param: nat): (t: Screen)
    requires Inv(s)
    ensures OnlyEdits(s, t)
  {
    match param
    case 0 => EraseInRow(s, s.col, s.cols)
    case 1 => EraseInRow(s, 0, s.col + 1)
    case 2 => EraseInRow(s, 0, s.cols)
    case _ => s
  }

  /** Inserting lines scrolls the part of the region below the cursor. */
  function InsertLines(s: Screen, count: nat): (t: Screen)
    requires Inv(s)
    ensures OnlyEdits(s, t)
  {
    if s.top <= s.row <= s.bottom
    then s.(buffer := ScrolledDown(s.buffer, s.row, s.bottom, count, s.cols)) else s
  }

  function DeleteLines(s: Screen, count: nat): (t: Screen)
    requires Inv(s)
    ensures OnlyEdits(s, t)
  {
    if s.top <= s.row <= s.bottom
    then s.(buffer := ScrolledUp(s.buffer, s.row, s.bottom, count, s.cols)) else s
  }

  function SetScrollRegion(s: Screen, top: nat, bottom: nat): (t: Screen)
    requires Inv(s)
    ensures Keeps(s, t)
  {
    var (t, b) := if top < bottom < s.rows then (top, bottom) else (0, s.rows - 1);
    s.(top := t, bottom := b, row := t, col := 0)
  }

  function EnterAlternate(s: Screen): (t: Screen)
    requires Inv(s)
    ensures Keeps(s, t) && t.main.Some?
  {
    if s.main.Some? then s
    else
      var m := SavedScreen(s.buffer, s.row, s.col, s.style, s.saved, s.top, s.bottom);
      s.(main := Some(m), buffer := BlankGrid(s.rows, s.cols), row := 0, col := 0,
         saved := (0, 0), top := 0, bottom := s.rows - 1)
  }

  function LeaveAlternate(s: Screen): (t: Screen)
    requires Inv(s)
    ensures Keeps(s, t) && t.main.None?
  {
    match s.main
    case None => s
    case Some(m) =>
      s.(main := None, buffer := m.buffer, row := m.row, col := m.col, style := m.style,
         saved := m.saved, top := m.top, bottom := m.bottom)
  }

  /** A reset clears the screen that is shown; it does not leave the alternate one. */
  function Reset(s: Screen): (t: Screen)
    requires Inv(s)
    ensures Keeps(s, t)
  {
    s.(style := DEFAULT_STYLE, saved := (0, 0), top := 0, bottom := s.rows - 1, row := 0, col := 0,
       buffer := BlankGrid(s.rows, s.cols))
  }

  /* ---------- events ---------- */

  /** What the byte parser hands to the terminal. `Inert` stands for the operating
      system commands and device control strings, which are ignored. */
  datatype Event =
    | Print(c: Glyph)
    | Execute(byte: nat)
    | Csi(params: seq<seq<nat>>, intermediates: seq<char>, action: char)
    | Esc(intermediates: seq<char>, final: char)
    | Inert

  /** The first value of the parameter at `index`; absent or zero means `default`. */
  function ParamAt(params: seq<seq<nat>>, index: nat, default: nat): nat {
    if index < |params| && params[index] != [] && params[index][0] != 0
    then params[index][0] else default
  }

  function Flat(params: seq<seq<nat>>): seq<nat> {
    if params == [] then [] else params[0] + Flat(params[1..])
  }

  function PaletteColor(n: nat): Color {
    if n == 30 then Black else if n == 37 || n == 97 then White else Ansi(n)
  }

  /** One select-graphic-rendition step at `values[i]`: the style and how many values it used. */
  function SgrStep(style: Style, values: seq<nat>, i: nat): (r: (Style, nat))
    requires i < |values|
    ensures r.1 >= 1
  {
    var v := values[i];
    if v == 0 then (DEFAULT_STYLE, 1)
    else if v == 1 then (style.(bold := true), 1)
    else if v == 3 then (style.(italic := true), 1)
    else if v == 22 then (style.(bold := false), 1)
    else if v == 23 then (style.(italic := false), 1)
    else if 30 <= v <= 37 || 90 <= v <= 97 then (style.(fg := PaletteColor(v)), 1)
    else if v == 39 then (style.(fg := White), 1)
    else if 40 <= v <= 47 || 100 <= v <= 107 then (style.(bg := Some(PaletteColor(v - 10))), 1)
    else if v == 49 then (style.(bg := None), 1)
    else if v == 38 || v == 48 then
      if i + 2 < |values| && values[i + 1] == 5 then
        var color := Indexed(values[i + 2]);
        (if v == 38 then style.(fg := color) else style.(bg := Some(color)), 3)
      else if i + 4 < |values| && values[i + 1] == 2 then
        var color := Rgb(Min(values[i + 2], 255), Min(values[i + 3], 255), Min(values[i + 4], 255));
        (if v == 38 then style.(fg := color) else style.(bg := Some(color)), 5)
      else (style, 1)
    else (style, 1)
  }

  function SgrFrom(style: Style, values: seq<nat>, i: nat): Style
    decreases |values| - i
  {
    if i >= |values| then style
    else
      var (next, used) := SgrStep(style, values, i);
      SgrFrom(next, values, i + used)
  }

  /** Private modes set or reset one after the other; only 1049 means anything. */
  function PrivateModes(s: Screen, values: seq<nat>, on: bool): (t: Screen)
    requires Inv(s)
    ensures Keeps(s, t)
    decreases |values|
  {
    if values == [] then s
    else
      var t := if values[0] != 1049 then s else if on then EnterAlternate(s) else LeaveAlternate(s);
      PrivateModes(t, values[1..], on)
  }

  function MoveTo(s: Screen, row: nat, col: nat): (t: Screen)
    requires Inv(s)
    ensures Keeps(s, t)
  {
    s.(row := Min(row, s.rows - 1), col := Min(col, s.cols - 1))
  }

  function Control(s: Screen, byte: nat): (t: Screen)
    requires Inv(s)
    ensures Keeps(s, t)
  {
    match byte
    case 10 => Linefeed(s)
    case 13 => s.(col := 0)
    case 9 => MoveTo(s, s.row, (s.col + 8) / 8 * 8)
    case 8 => s.(col := SatSub(s.col, 1))
    case _ => s
  }

  /** The control sequences that only move, save or restore the cursor. */
  predicate IsMotion(action: char) {
    action in ['A', 'B', 'C', 'D', 'E', 'F', 'G', 'H', 'f', 'd', 's', 'u']
  }

  function CsiStep(s: Screen, params: seq<seq<nat>>, intermediates: seq<char>, action: char): (t: Screen)
    requires Inv(s)
    ensures Keeps(s, t)
  {
    var n := ParamAt(params, 0, 1);
    match action
    case 'H' => MoveTo(s, SatSub(n, 1), SatSub(ParamAt(params, 1, 1), 1))
    case 'f' => MoveTo(s, SatSub(n, 1), SatSub(ParamAt(params, 1, 1), 1))
    case 'A' => MoveTo(s, SatSub(s.row, n), s.col)
    case 'B' => MoveTo(s, s.row + n, s.col)
    case 'C' => MoveTo(s, s.row, s.col + n)
    case 'D' => MoveTo(s, s.row, SatSub(s.col, n))
    case 'E' => MoveTo(s, s.row + n, 0)
    case 'F' => MoveTo(s, SatSub(s.row, n), 0)
    case 'G' => MoveTo(s, s.row, SatSub(n, 1))
    case 'd' => MoveTo(s, SatSub(n, 1), s.col)
    case 'm' => s.(style := if Flat(params) == [] then DEFAULT_STYLE else SgrFrom(s.style, Flat(params), 0))
    case 'J' => EraseInDisplay(s, ParamAt(params, 0, 0))
    case 'K' => EraseInLine(s, ParamAt(params, 0, 0))
    case '@' => InsertBlankChars(s, n)
    case 'P' => DeleteChars(s, n)
    case 'X' => EraseInRow(s, s.col, s.col + n)
    case 'L' => InsertLines(s, n)
    case 'M' => DeleteLines(s, n)
    case 'S' => s.(buffer := ScrolledUp(s.buffer, s.top, s.bottom, n, s.cols))
    case 'T' => s.(buffer := ScrolledDown(s.buffer, s.top, s.bottom, n, s.cols))
    case 'r' => SetScrollRegion(s, SatSub(n, 1), SatSub(ParamAt(params, 1, s.rows % 0x1_0000), 1))
    case 's' => s.(saved := (s.row, s.col))
    case 'u' => MoveTo(s, s.saved.0, s.saved.1)
    case 'h' => if '?' in intermediates then PrivateModes(s, Flat(params), true) else s
    case 'l' => if '?' in intermediates then PrivateModes(s, Flat(params), false) else s
    case _ => s
  }

  function EscStep(s: Screen, intermediates: seq<char>, final: char): (t: Screen)
    requires Inv(s)
    ensures Keeps(s, t)
  {
    if intermediates != [] then s
    else
      match final
      case '7' => s.(saved := (s.row, s.col))
      case '8' => MoveTo(s, s.saved.0, s.saved.1)
      case 'D' => Linefeed(s)
      case 'E' => Linefeed(s).(col := 0)
      case 'M' => ReverseIndex(s)
      case 'c' => Reset(s)
      case _ => s
  }

  /** Does the event set (`h`) or reset (`l`) mode 1049, the alternate screen? */
  predicate Switches(ev: Event, action: char) {
    ev.Csi? && ev.action == action && '?' in ev.intermediates && 1049 in Flat(ev.params)
  }

  predicate Accepts(cols: nat, ev: Event) {
    ev.Print? ==> Printable(cols, ev.c)
  }

  function Step(s: Screen, ev: Event): (t: Screen)
    requires Inv(s) && Accepts(s.cols, ev)
    ensures Keeps(s, t)
  {
    match ev
    case Print(c) => PutChar(s, c)
    case Execute(byte) => Control(s, byte)
    case Csi(params, intermediates, action) => CsiStep(s, params, intermediates, action)
    case Esc(intermediates, final) => EscStep(s, intermediates, final)
    case Inert => s
  }

  ghost predicate AllAccepted(cols: nat, evs: seq<Event>) {
    forall i | 0 <= i < |evs| :: Accepts(cols, evs[i])
  }

  ghost function Run(s: Screen, evs: seq<Event>): (t: Screen)
    requires Inv(s) && AllAccepted(s.cols, evs)
    ensures Keeps(s, t)
    decreases |evs|
  {
    if evs == [] then s
    else Run(Step(s, evs[0]), evs[1..])
  }
}
