/** What erasing, inserting, deleting, styling and moving do to any screen, cell by cell. */
module EditLaws {
  import opened Wrappers
  import opened Cells
  import opened Screens
  import opened ScreenLaws
  import opened RowLaws

  /* ---------- cells of an edited row ---------- */

  function SpaceIn(style: Style): Cell {
    Cell([Glyph(32, Some(1))], style, false)
  }

  function RightHalfIn(style: Style): Cell {
    Cell([Glyph(32, Some(1))], style, true)
  }

  /** The character left of `col` is a wide one that reaches into it. */
  predicate Straddles(row: seq<Cell>, col: nat) {
    0 < col < |row| && IsWideLead(row[col - 1])
  }

  /** Erasing leaves spaces in the style. A wide character that reaches in from the left
      stays whole, one that reaches out at the right loses its right half to a blank. */
  function ErasedCell(row: seq<Cell>, start: nat, end: nat, style: Style, c: nat): Cell
    requires c < |row|
  {
    if end <= start || c < start || end < c then row[c]
    else if c == end then (if row[c].continuation then EMPTY else row[c])
    else if c == start && Straddles(row, c) then RightHalfIn(row[c - 1].style)
    else SpaceIn(style)
  }

  /** Inserting `n` moves what is there to the right. A wide character that is split stays
      whole; the right half of one that is moved away from its left becomes a blank, and so
      does a left half at the right edge. */
  function InsertedCell(row: seq<Cell>, col: nat, n: nat, style: Style, c: nat): Cell
    requires c < |row| && n >= 1
  {
    if c < col then row[c]
    else if c == col && Straddles(row, c) then RightHalfIn(row[c - 1].style)
    else if c < col + n then SpaceIn(style)
    else if c == col + n && row[col].continuation then EMPTY
    else if c + 1 == |row| && IsWideLead(row[c - n]) then EMPTY
    else row[c - n]
  }

  /** Deleting `n` moves what is behind them to the left. */
  function DeletedCell(row: seq<Cell>, col: nat, n: nat, style: Style, c: nat): Cell
    requires c < |row| && n >= 1
  {
    var moved := if c + n < |row| then row[c + n] else SpaceIn(style);
    if c < col then row[c]
    else if c == col && Straddles(row, c) then
      (if moved.continuation then moved else RightHalfIn(row[c - 1].style))
    else if c == col && moved.continuation then EMPTY
    else if c == col + 1 && moved.continuation && Straddles(row, col) then EMPTY
    else moved
  }

  lemma Spaces(style: Style)
    ensures BlankStyled(style) == SpaceIn(style) && Continuation(style) == RightHalfIn(style) && Blank() == EMPTY
    ensures !IsWideLead(SpaceIn(style)) && !IsWideLead(RightHalfIn(style)) && !IsWideLead(EMPTY)
  {
    assert [SPACE] == [Glyph(32, Some(1))];
  }

  lemma {:induction false} ErasedCells(row: seq<Cell>, start: nat, end: nat, style: Style, c: nat)
    requires Paired(row) && c < |row|
    ensures Sanitized(Erased(row, start, end, style))[c] == ErasedCell(row, start, end, style, c)
    decreases c
  {
    var raw := Erased(row, start, end, style);
    Spaces(style);
    if c > 0 { Spaces(row[c - 1].style); }
    SanitizedUnfolds(raw, c);
    assert PairedAt(row, c);
    if c > 0 {
      ErasedCells(row, start, end, style, c - 1);
      assert PairedAt(row, c - 1);
    }
    hide Sanitized;
  }

  lemma {:induction false} InsertedCells(row: seq<Cell>, col: nat, n: nat, style: Style, c: nat)
    requires Paired(row) && c < |row| && col < |row| && n >= 1
    ensures Sanitized(ShiftedRight(row, col, n, style))[c] == InsertedCell(row, col, n, style, c)
    decreases c
  {
    Spaces(style);
    if c > 0 { Spaces(row[c - 1].style); }
    SanitizedUnfolds(ShiftedRight(row, col, n, style), c);
    assert PairedAt(row, c) && PairedAt(row, col);
    if c >= n { assert PairedAt(row, c - n); }
    if c > 0 {
      InsertedCells(row, col, n, style, c - 1);
      assert PairedAt(row, c - 1);
      if c >= n + 1 { assert PairedAt(row, c - n - 1); }
    }
    hide Sanitized;
  }

  lemma {:induction false} DeletedCells(row: seq<Cell>, col: nat, n: nat, style: Style, c: nat)
    requires Paired(row) && c < |row| && col < |row| && n >= 1
    ensures Sanitized(ShiftedLeft(row, col, n, style))[c] == DeletedCell(row, col, n, style, c)
    decreases c
  {
    Spaces(style);
    if c > 0 { Spaces(row[c - 1].style); }
    SanitizedUnfolds(ShiftedLeft(row, col, n, style), c);
    assert PairedAt(row, c);
    if c + n < |row| { assert PairedAt(row, c + n); }
    if c > 0 {
      DeletedCells(row, col, n, style, c - 1);
      assert PairedAt(row, c - 1);
      if c + n - 1 < |row| { assert PairedAt(row, c + n - 1); }
    }
    hide Sanitized;
  }

  /* ---------- rows of the screen ---------- */

  /** The grid is the same but for one row. */
  predicate OnlyRow(s: Screen, t: Screen, r: nat) {
    OnlyGrid(s, t) && forall q | 0 <= q < |s.buffer| && q != r :: t.buffer[q] == s.buffer[q]
  }

  ghost predicate RowErased(s: Screen, t: Screen, r: nat, start: nat, end: nat) {
    && r < |s.buffer| && r < |t.buffer| && |t.buffer[r]| == |s.buffer[r]|
    && forall c | 0 <= c < |s.buffer[r]| :: t.buffer[r][c] == ErasedCell(s.buffer[r], start, end, s.style, c)
  }

  lemma EraseInRowLaw(s: Screen, start: nat, end: nat)
    requires Inv(s)
    ensures OnlyRow(s, EraseInRow(s, start, end), s.row) && RowErased(s, EraseInRow(s, start, end), s.row, start, end)
  {
    var row, t := s.buffer[s.row], EraseInRow(s, start, end);
    assert RowOk(row, s.cols);
    forall c | 0 <= c < |row| ensures t.buffer[s.row][c] == ErasedCell(row, start, end, s.style, c) {
      ErasedCells(row, start, end, s.style, c);
    }
    hide Sanitized, Erased, ErasedCell, Paired;
  }

  /** Erasing characters and in the line: which cells of the cursor's row go. */
  lemma EraseInLineLaw(s: Screen, p: nat)
    requires Inv(s)
    ensures
      var t, u := Step(s, Csi([[p]], [], 'X')), Step(s, Csi([[p]], [], 'K'));
      && OnlyRow(s, t, s.row) && RowErased(s, t, s.row, s.col, s.col + Count(p))
      && (p == 0 ==> OnlyRow(s, u, s.row) && RowErased(s, u, s.row, s.col, s.cols))
      && (p == 1 ==> OnlyRow(s, u, s.row) && RowErased(s, u, s.row, 0, s.col + 1))
      && (p == 2 ==> OnlyRow(s, u, s.row) && RowErased(s, u, s.row, 0, s.cols))
      && (p > 2 ==> u == s)
  {
    EraseInRowLaw(s, s.col, s.col + Count(p));
    EraseInRowLaw(s, s.col, s.cols);
    EraseInRowLaw(s, 0, s.col + 1);
    EraseInRowLaw(s, 0, s.cols);
    hide EraseInRow, OnlyRow, RowErased, GridOk, SavedOk;
  }

  /** A whole row of spaces in the style. */
  predicate RowCleared(s: Screen, t: Screen, r: nat) {
    && r < |t.buffer| && |t.buffer[r]| == s.cols
    && forall c | 0 <= c < s.cols :: t.buffer[r][c] == SpaceIn(s.style)
  }

  lemma BlankRowsLaw(s: Screen, first: nat, end: nat)
    requires Inv(s)
    ensures
      var t := WithBlankRows(s, first, end);
      && OnlyGrid(s, t)
      && forall r | 0 <= r < s.rows :: if first <= r < end then RowCleared(s, t, r) else t.buffer[r] == s.buffer[r]
  {
    Spaces(s.style);
    hide Paired, SavedOk;
  }

  /** Erasing in the display: to its end, to its start, or all of it. */
  lemma EraseInDisplayLaw(s: Screen, p: nat)
    requires Inv(s)
    ensures
      var t := Step(s, Csi([[p]], [], 'J'));
      && OnlyGrid(s, t)
      && (p > 3 ==> t == s)
      && (forall r | 0 <= r < s.rows ::
            if p == 2 || p == 3 || (p == 0 && r > s.row) || (p == 1 && r < s.row) then RowCleared(s, t, r)
            else if p == 0 && r == s.row then RowErased(s, t, r, s.col, s.cols)
            else if p == 1 && r == s.row then RowErased(s, t, r, 0, s.col + 1)
            else t.buffer[r] == s.buffer[r])
  {
    var t := Step(s, Csi([[p]], [], 'J'));
    assert t == EraseInDisplay(s, p) by { DisplayStep(s, p); }
    var start, end := if p == 0 then s.col else 0, if p == 0 then s.cols else s.col + 1;
    EraseInRowLaw(s, start, end);
    var u := if p <= 1 then EraseInRow(s, start, end) else s;
    var first, last := if p == 0 then s.row + 1 else 0, if p == 1 then s.row else s.rows;
    BlankRowsLaw(u, first, last);
    hide Step, EraseInRow, WithBlankRows, ErasedCell, SpaceIn, GridOk, SavedOk;
  }

  lemma DisplayStep(s: Screen, p: nat)
    requires Inv(s)
    ensures Step(s, Csi([[p]], [], 'J')) == EraseInDisplay(s, p)
  {
    hide EraseInDisplay;
  }

  /** Inserting and deleting characters: where each cell of the row comes from. */
  lemma InsertDeleteLaw(s: Screen, n: nat)
    requires Inv(s)
    ensures
      var t, u, row := Step(s, Csi([[n]], [], '@')), Step(s, Csi([[n]], [], 'P')), s.buffer[s.row];
      && OnlyRow(s, t, s.row) && |row| == s.cols == |t.buffer[s.row]| == |u.buffer[s.row]| && OnlyRow(s, u, s.row)
      && (forall c | 0 <= c < s.cols ::
            && t.buffer[s.row][c] == InsertedCell(row, s.col, Count(n), s.style, c)
            && u.buffer[s.row][c] == DeletedCell(row, s.col, Count(n), s.style, c))
  {
    var row := s.buffer[s.row];
    assert RowOk(row, s.cols);
    forall c | 0 <= c < s.cols
      ensures Sanitized(ShiftedRight(row, s.col, Count(n), s.style))[c]
           == InsertedCell(row, s.col, Count(n), s.style, c)
      ensures Sanitized(ShiftedLeft(row, s.col, Count(n), s.style))[c]
           == DeletedCell(row, s.col, Count(n), s.style, c)
    {
      InsertedCells(row, s.col, Count(n), s.style, c);
      DeletedCells(row, s.col, Count(n), s.style, c);
    }
    hide Sanitized, ShiftedRight, ShiftedLeft, InsertedCell, DeletedCell, Paired;
  }

  /* ---------- combining characters ---------- */

  /** The accent joins the text of the character before the cursor. */
  lemma CombiningLaw(s: Screen, c: Glyph)
    requires Inv(s) && CharWidth(c) == 0
    ensures s.row == 0 && s.col == 0 ==> Step(s, Print(c)) == s
    ensures
      var r, end := if s.col > 0 then s.row else SatSub(s.row, 1), if s.col > 0 then s.col else s.cols;
      s.row > 0 || s.col > 0 ==>
        && |s.buffer[r]| == s.cols
        && var k := if s.buffer[r][end - 1].continuation then end - 2 else end - 1;
        && 0 <= k && !s.buffer[r][k].continuation
        && Step(s, Print(c))
           == s.(buffer := s.buffer[r := s.buffer[r][k := s.buffer[r][k].(text := s.buffer[r][k].text + [c])]])
  {
    var r, end := if s.col > 0 then s.row else SatSub(s.row, 1), if s.col > 0 then s.col else s.cols;
    assert RowOk(s.buffer[r], s.cols) && PairedAt(s.buffer[r], end - 1);
    if end >= 2 { assert PairedAt(s.buffer[r], end - 2); }
    hide Paired, SavedOk;
  }

  /** Text stays between the margins exactly if it is no accent that joins the row above. */
  lemma PrintStaysInsideIff(s: Screen, c: Glyph)
    requires Inv(s) && Inside(s) && Printable(s.cols, c)
    ensures SameOutside(s, Step(s, Print(c))) <==> Local(s, Print(c))
  {
    if Local(s, Print(c)) {
      PrintSameOutside(s, c);
    } else {
      AccentJoinsAbove(s, c);
    }
    hide Inv, Inside, SameOutside;
  }

  lemma AccentJoinsAbove(s: Screen, c: Glyph)
    requires Inv(s) && CharWidth(c) == 0 && s.col == 0 && s.row == s.top > 0
    ensures !SameOutside(s, Step(s, Print(c)))
  {
    CombiningLaw(s, c);
    var above := s.buffer[s.row - 1];
    var k := if above[s.cols - 1].continuation then s.cols - 2 else s.cols - 1;
    assert |(above[k].text + [c])| != |above[k].text|;
    hide Step, Inv;
    assert Step(s, Print(c)).buffer[s.row - 1][k] != above[k];
  }

  /* ---------- styles ---------- */

  function Named(v: nat): Color {
    if v == 30 then Black else if v == 37 || v == 97 then White else Ansi(v)
  }

  /** What one number selects: which set and which clear what. */
  function Selected(style: Style, v: nat): Style {
    match v
    case 0 => Style(White, None, false, false)
    case 1 => style.(bold := true)
    case 3 => style.(italic := true)
    case 22 => style.(bold := false)
    case 23 => style.(italic := false)
    case 39 => style.(fg := White)
    case 49 => style.(bg := None)
    case _ =>
      if 30 <= v <= 37 || 90 <= v <= 97 then style.(fg := Named(v))
      else if 40 <= v <= 47 || 100 <= v <= 107 then style.(bg := Some(Named(v - 10)))
      else style
  }

  lemma StyleLaw(s: Screen, v: nat)
    requires Inv(s)
    ensures Step(s, Csi([[v]], [], 'm')) == s.(style := Selected(s.style, v))
    ensures Step(s, Csi([], [], 'm')) == s.(style := Style(White, None, false, false))
  {
    OneSelection(s.style, v);
    hide GridOk, SavedOk, SgrFrom, SgrStep, Flat;
    StyleTable(s.style, v);
  }

  lemma OneSelection(style: Style, v: nat)
    ensures Flat([[v]]) == [v] && Flat([]) == [] && SgrFrom(style, [v], 0) == SgrStep(style, [v], 0).0
  {
    FlatOne(v, []);
    assert [[v]] + [] == [[v]] && [v] + [] == [v];
  }

  lemma StyleTable(style: Style, v: nat)
    ensures SgrStep(style, [v], 0).0 == Selected(style, v)
  {
  }

  lemma FlatOne(v: nat, rest: seq<seq<nat>>)
    ensures Flat([[v]] + rest) == [v] + Flat(rest) && Flat([]) == []
  {
    assert ([[v]] + rest)[0] == [v] && ([[v]] + rest)[1..] == rest;
  }

  lemma {:induction false} SgrFromShifts(style: Style, v: nat, rest: seq<nat>, i: nat)
    requires v != 38 && v != 48
    ensures SgrFrom(style, [v] + rest, i + 1) == SgrFrom(style, rest, i)
    decreases |rest| - i
  {
    if i < |rest| {
      var values := [v] + rest;
      assert values[i + 1] == rest[i];
      if i + 1 < |rest| { assert values[i + 2] == rest[i + 1]; }
      if i + 2 < |rest| { assert values[i + 3] == rest[i + 2]; }
      if i + 3 < |rest| { assert values[i + 4] == rest[i + 3]; }
      if i + 4 < |rest| { assert values[i + 5] == rest[i + 4]; }
      var (next, used) := SgrStep(style, rest, i);
      assert SgrStep(style, values, i + 1) == (next, used);
      hide SgrStep;
      SgrFromShifts(next, v, rest, i + used);
    }
  }

  lemma StyleStep(s: Screen, params: seq<seq<nat>>)
    requires Inv(s) && Flat(params) != []
    ensures Step(s, Csi(params, [], 'm')) == s.(style := SgrFrom(s.style, Flat(params), 0))
  {
    hide GridOk, SavedOk, SgrFrom, Flat;
  }

  /** Selections follow one another; only the two that open an extended colour reach on. */
  lemma StylesFollow(s: Screen, v: nat, rest: seq<seq<nat>>)
    requires Inv(s) && v != 38 && v != 48 && Flat(rest) != []
    ensures Step(s, Csi([[v]] + rest, [], 'm')) == Step(Step(s, Csi([[v]], [], 'm')), Csi(rest, [], 'm'))
  {
    var t := Step(s, Csi([[v]], [], 'm'));
    StyleLaw(s, v);
    FlatOne(v, rest);
    SgrFromShifts(Selected(s.style, v), v, Flat(rest), 0);
    StyleFirst(s.style, v, Flat(rest));
    hide *;
    StyleStep(s, [[v]] + rest);
    StyleStep(t, rest);
  }

  lemma StyleFirst(style: Style, v: nat, rest: seq<nat>)
    requires v != 38 && v != 48
    ensures SgrFrom(style, [v] + rest, 0) == SgrFrom(Selected(style, v), [v] + rest, 1)
  {
    assert ([v] + rest)[0] == v;
    assert SgrStep(style, [v] + rest, 0) == (Selected(style, v), 1);
  }

  /** Extended colours: one of the palette, or red, green and blue up to 255 each. */
  lemma ExtendedColours(s: Screen, n: nat, r: nat, g: nat, b: nat)
    requires Inv(s)
    ensures Step(s, Csi([[38, 5, n]], [], 'm')) == s.(style := s.style.(fg := Indexed(n)))
    ensures Step(s, Csi([[48, 5, n]], [], 'm')) == s.(style := s.style.(bg := Some(Indexed(n))))
    ensures
      var rgb := Rgb(if r < 255 then r else 255, if g < 255 then g else 255, if b < 255 then b else 255);
      && Step(s, Csi([[38, 2, r, g, b]], [], 'm')) == s.(style := s.style.(fg := rgb))
      && Step(s, Csi([[48, 2, r, g, b]], [], 'm')) == s.(style := s.style.(bg := Some(rgb)))
  {
    FlatList([38, 5, n]);
    FlatList([48, 5, n]);
    FlatList([38, 2, r, g, b]);
    FlatList([48, 2, r, g, b]);
    IndexedColour(s.style, n);
    RgbColour(s.style, r, g, b);
    hide GridOk, SavedOk, SgrFrom, Flat;
  }

  lemma FlatList(values: seq<nat>)
    ensures Flat([values]) == values
  {
    assert [values][1..] == [] && values + [] == values && Flat([]) == [];
  }

  lemma IndexedColour(style: Style, n: nat)
    ensures SgrFrom(style, [38, 5, n], 0) == style.(fg := Indexed(n))
    ensures SgrFrom(style, [48, 5, n], 0) == style.(bg := Some(Indexed(n)))
  {
    assert SgrStep(style, [38, 5, n], 0) == (style.(fg := Indexed(n)), 3);
    assert SgrStep(style, [48, 5, n], 0) == (style.(bg := Some(Indexed(n))), 3);
  }

  lemma RgbColour(style: Style, r: nat, g: nat, b: nat)
    ensures
      var rgb := Rgb(if r < 255 then r else 255, if g < 255 then g else 255, if b < 255 then b else 255);
      && SgrFrom(style, [38, 2, r, g, b], 0) == style.(fg := rgb)
      && SgrFrom(style, [48, 2, r, g, b], 0) == style.(bg := Some(rgb))
  {
    var rgb := Rgb(Min(r, 255), Min(g, 255), Min(b, 255));
    assert SgrStep(style, [38, 2, r, g, b], 0) == (style.(fg := rgb), 5);
    assert SgrStep(style, [48, 2, r, g, b], 0) == (style.(bg := Some(rgb)), 5);
  }

  /* ---------- screens and margins ---------- */

  predicate AllEmpty(t: Screen) {
    |t.buffer| == t.rows && forall r | 0 <= r < t.rows :: IsEmptyRow(t.buffer[r], t.cols)
  }

  /** The alternate screen and a reset one are empty, with the cursor and the saved cursor
      at the origin and the margins wide open; a reset also forgets the style. */
  lemma EmptyScreens(s: Screen)
    requires Inv(s)
    ensures
      var t, u := Step(s, Csi([[1049]], ['?'], 'h')), Step(s, Esc([], 'c'));
      && (s.main.None? ==>
            && AllEmpty(t)
            && t == s.(buffer := t.buffer, row := 0, col := 0, saved := (0, 0), top := 0, bottom := s.rows - 1,
                       main := Some(SavedScreen(s.buffer, s.row, s.col, s.style, s.saved, s.top, s.bottom))))
      && (s.main.Some? ==> t == s)
      && AllEmpty(u)
      && u == s.(buffer := u.buffer, row := 0, col := 0, saved := (0, 0), top := 0, bottom := s.rows - 1,
                 style := Style(White, None, false, false))
  {
    FlatOne(1049, []);
    assert [[1049]] + [] == [[1049]] && [1049] + [] == [1049];
    SwitchedOnce(s, [1049], true);
    GridIsEmpty(s.rows, s.cols);
    hide PrivateModes, Paired, SavedOk, IsEmptyRow, BlankGrid;
  }

  lemma GridIsEmpty(rows: nat, cols: nat)
    ensures |BlankGrid(rows, cols)| == rows && forall r | 0 <= r < rows :: IsEmptyRow(BlankGrid(rows, cols)[r], cols)
  {
    BlankRowIsEmpty(BlankRow(cols), cols);
    hide IsEmptyRow;
  }

  /** Margins are counted from one and must leave at least two rows between them; anything
      else opens them wide. The cursor goes to the upper one. */
  lemma MarginsLaw(s: Screen, a: nat, b: nat)
    requires Inv(s)
    ensures
      var t := Step(s, Csi([[a], [b]], [], 'r'));
      && t == s.(top := t.top, bottom := t.bottom, row := t.top, col := 0)
      && var first, last := Count(a), if b == 0 then s.rows % 0x1_0000 else b;
      && if first < last <= s.rows then t.top + 1 == first && t.bottom + 1 == last
         else t.top == 0 && t.bottom + 1 == s.rows
  {
    hide GridOk, SavedOk;
  }

  /* ---------- the cursor ---------- */

  function Less1(n: nat): nat {
    if n == 0 then 0 else n - 1
  }

  function Cut(n: nat, size: nat): nat
    requires size > 0
  {
    if n < size then n else size - 1
  }

  /** Where each motion takes the cursor. */
  lemma MotionsLaw(s: Screen, n: nat)
    requires Inv(s)
    ensures
      var k := Count(n);
      && Step(s, Csi([[n]], [], 'A')) == s.(row := if k < s.row then s.row - k else 0)
      && Step(s, Csi([[n]], [], 'B')) == s.(row := Cut(s.row + k, s.rows))
      && Step(s, Csi([[n]], [], 'C')) == s.(col := Cut(s.col + k, s.cols))
      && Step(s, Csi([[n]], [], 'D')) == s.(col := if k < s.col then s.col - k else 0)
      && Step(s, Csi([[n]], [], 'E')) == s.(row := Cut(s.row + k, s.rows), col := 0)
      && Step(s, Csi([[n]], [], 'F')) == s.(row := if k < s.row then s.row - k else 0, col := 0)
  {
    hide GridOk, SavedOk;
  }

  lemma PositionsLaw(s: Screen, n: nat, m: nat)
    requires Inv(s)
    ensures
      && Step(s, Csi([[n]], [], 'G')) == s.(col := Cut(Less1(n), s.cols))
      && Step(s, Csi([[n]], [], 'd')) == s.(row := Cut(Less1(n), s.rows))
      && Step(s, Csi([[n], [m]], [], 'H')) == s.(row := Cut(Less1(n), s.rows), col := Cut(Less1(m), s.cols))
      && Step(s, Csi([[n], [m]], [], 'f')) == s.(row := Cut(Less1(n), s.rows), col := Cut(Less1(m), s.cols))
  {
    hide GridOk, SavedOk;
  }

  /** Saving, restoring and the control characters. */
  lemma ControlsLaw(s: Screen)
    requires Inv(s)
    ensures Step(s, Csi([], [], 's')) == Step(s, Esc([], '7')) == s.(saved := (s.row, s.col))
    ensures Step(s, Csi([], [], 'u')) == Step(s, Esc([], '8')) == s.(row := s.saved.0, col := s.saved.1)
    ensures Step(s, Execute(13)) == s.(col := 0) && Step(s, Execute(8)) == s.(col := Less1(s.col))
    ensures Step(s, Execute(9)) == s.(col := Cut(s.col - s.col % 8 + 8, s.cols))
  {
    hide GridOk, SavedOk;
  }
}
