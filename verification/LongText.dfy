/** Text of any length: it wraps at the right edge and scrolls at the bottom margin, and
    the rows between the margins show the end of what it would be on paper. */
module LongText {
  import opened Wrappers
  import opened Cells
  import opened Screens
  import opened ScreenLaws

  /** Lines laid out one below the other without end; `current` is the last one. */
  datatype Paper = Paper(done: seq<seq<Cell>>, current: seq<Cell>)

  function NextLine(p: Paper): Paper {
    Paper(p.done + [p.current], [])
  }

  /** A character goes on the current line, or on the next one if it does not fit there;
      a line that is full is done. */
  function Put(p: Paper, c: Glyph, style: Style, cols: nat): Paper {
    var cells := CellsOf(c, style);
    var q := if |p.current| + |cells| > cols then NextLine(p) else p;
    var r := q.(current := q.current + cells);
    if |r.current| >= cols then NextLine(r) else r
  }

  function Laid(p: Paper, text: seq<Glyph>, style: Style, cols: nat): Paper
    decreases |text|
  {
    if text == [] then p else Laid(Put(p, text[0], style, cols), text[1..], style, cols)
  }

  /** A line filled up with blanks. */
  function Padded(line: seq<Cell>, cols: nat): seq<Cell> {
    seq(cols, i requires 0 <= i < cols => if i < |line| then line[i] else Blank())
  }

  function PaperRow(p: Paper, j: nat, cols: nat): seq<Cell> {
    if j < |p.done| then Padded(p.done[j], cols)
    else if j == |p.done| then Padded(p.current, cols)
    else BlankRow(cols)
  }

  /** How many rows scroll. */
  function Height(s: Screen): nat
    requires Inv(s)
  {
    s.bottom + 1 - s.top
  }

  /** How many lines have left those rows at their top. */
  function Gone(p: Paper, rows: nat): nat {
    SatSub(|p.done| + 1, rows)
  }

  /** The line that row `r` between the margins shows. */
  function LineIn(s: Screen, p: Paper, r: nat): nat
    requires Inv(s) && s.top <= r
  {
    Gone(p, Height(s)) + (r - s.top)
  }

  /** The rows between the margins show the last lines of the paper, and are blank below;
      the cursor is in the row of the last line. */
  ghost predicate ShowsEnd(s: Screen, p: Paper) {
    && Inv(s) && |p.current| <= s.cols
    && s.top + |p.done| == s.row + Gone(p, Height(s))
    && forall r | s.top <= r <= s.bottom :: s.buffer[r] == PaperRow(p, LineIn(s, p, r), s.cols)
  }

  /** And the cursor is behind the last character. */
  ghost predicate Displays(s: Screen, p: Paper) {
    ShowsEnd(s, p) && s.col == |p.current| < s.cols
  }

  /** Nothing outside the margins has changed. */
  ghost predicate OutsideKept(s: Screen, t: Screen) {
    && t.rows == s.rows && t.cols == s.cols && t.top == s.top && t.bottom == s.bottom && t.style == s.style
    && |t.buffer| == |s.buffer|
    && forall r | 0 <= r < |s.buffer| && !(s.top <= r <= s.bottom) :: t.buffer[r] == s.buffer[r]
  }

  lemma LinefeedShows(s: Screen, p: Paper)
    requires ShowsEnd(s, p)
    ensures Displays(Linefeed(s.(col := 0)), NextLine(p)) && OutsideKept(s, Linefeed(s.(col := 0)))
  {
    var t, q, h := Linefeed(s.(col := 0)), NextLine(p), Height(s);
    var k, m := Gone(p, h), Gone(q, h);
    hide Paired, SavedOk, Padded;
    assert Padded([], s.cols) == BlankRow(s.cols) by { EmptyLine(s.cols); }
    if s.row == s.bottom {
      assert m == k + 1;
      forall r | s.top <= r <= s.bottom ensures t.buffer[r] == PaperRow(q, LineIn(t, q, r), s.cols) {
        if r < s.bottom { assert t.buffer[r] == s.buffer[r + 1] == PaperRow(p, LineIn(s, p, r + 1), s.cols); }
      }
    } else {
      assert m == k == 0;
      forall r | s.top <= r <= s.bottom ensures t.buffer[r] == PaperRow(q, LineIn(t, q, r), s.cols) {
        assert t.buffer[r] == s.buffer[r] == PaperRow(p, LineIn(s, p, r), s.cols);
      }
    }
  }

  lemma EmptyLine(cols: nat)
    ensures Padded([], cols) == BlankRow(cols)
  {
  }

  /** Writing behind a line in a row that is blank from there on. */
  lemma WrittenRow(line: seq<Cell>, c: Glyph, style: Style, cols: nat)
    requires CharWidth(c) >= 1 && |line| + CharWidth(c) <= cols && Paired(Padded(line, cols))
    ensures Overwritten(Padded(line, cols), |line|, Cell([c], style, false), CharWidth(c))
         == Padded(line + CellsOf(c, style), cols)
  {
    var row := Padded(line, cols);
    assert PairedAt(row, |line|);
    if line != [] { assert PairedAt(row, |line| - 1); }
    if |line| + CharWidth(c) < cols { assert PairedAt(row, |line| + CharWidth(c)); }
  }

  lemma WriteShows(s: Screen, p: Paper, c: Glyph)
    requires Displays(s, p) && CharWidth(c) >= 1 && s.col + CharWidth(c) <= s.cols
    ensures
      var row := Overwritten(s.buffer[s.row], s.col, Cell([c], s.style, false), CharWidth(c));
      && |row| == s.cols && RowOk(row, s.cols)
      && ShowsEnd(WithRow(s, s.row, row), p.(current := p.current + CellsOf(c, s.style)))
      && OutsideKept(s, WithRow(s, s.row, row))
  {
    var cell, w := Cell([c], s.style, false), CharWidth(c);
    assert LineIn(s, p, s.row) == |p.done| && s.top <= s.row <= s.bottom;
    assert RowOk(s.buffer[s.row], s.cols) && s.buffer[s.row] == PaperRow(p, |p.done|, s.cols);
    WrittenRow(p.current, c, s.style, s.cols);
    OverwrittenIsPaired(s.buffer[s.row], s.col, cell, w);
    var row, q := Overwritten(s.buffer[s.row], s.col, cell, w), p.(current := p.current + CellsOf(c, s.style));
    hide Overwritten, Padded, SavedOk;
    var t := WithRow(s, s.row, row);
    forall r | s.top <= r <= s.bottom ensures t.buffer[r] == PaperRow(q, LineIn(t, q, r), s.cols) {
      assert s.buffer[r] == PaperRow(p, LineIn(s, p, r), s.cols);
    }
  }

  /** A character for which there is room on the line. */
  lemma FittingCharDisplayed(s: Screen, p: Paper, c: Glyph)
    requires Displays(s, p) && CharWidth(c) >= 1 && s.col + CharWidth(c) <= s.cols
    ensures Displays(PutChar(s, c), Put(p, c, s.style, s.cols)) && OutsideKept(s, PutChar(s, c))
  {
    var w := CharWidth(c);
    assert s.row < |s.buffer|;
    hide Linefeed, Overwritten, WithRow, Inv, Paired;
    assert |CellsOf(c, s.style)| == w;
    WriteShows(s, p, c);
    var row := Overwritten(s.buffer[s.row], s.col, Cell([c], s.style, false), w);
    var put, r := WithRow(s, s.row, row), p.(current := p.current + CellsOf(c, s.style));
    LinefeedShows(put, r);
  }

  lemma CharDisplayed(s: Screen, p: Paper, c: Glyph)
    requires Displays(s, p) && CharWidth(c) >= 1 && s.cols >= 2
    ensures Displays(PutChar(s, c), Put(p, c, s.style, s.cols)) && OutsideKept(s, PutChar(s, c))
  {
    if s.col + CharWidth(c) <= s.cols {
      FittingCharDisplayed(s, p, c);
    } else {
      LinefeedShows(s, p);
      hide Linefeed, Overwritten, WithRow, Inv, ShowsEnd;
      FittingCharDisplayed(Linefeed(s.(col := 0)), NextLine(p), c);
    }
  }

  /** Text of any length and of characters narrow and wide, with any margins: the rows
      between them display the end of what is laid out, and the others stay. */
  lemma {:induction false} LongTextIsShown(s: Screen, p: Paper, text: seq<Glyph>)
    requires Displays(s, p) && s.cols >= 2 && forall c | c in text :: CharWidth(c) >= 1
    ensures Inv(s) && AllAccepted(s.cols, Prints(text))
    ensures Displays(Run(s, Prints(text)), Laid(p, text, s.style, s.cols))
    ensures OutsideKept(s, Run(s, Prints(text)))
    decreases |text|
  {
    if text == [] {
      assert Prints(text) == [];
    } else {
      var c, rest := text[0], text[1..];
      assert c in text && forall d | d in rest :: d in text;
      CharDisplayed(s, p, c);
      assert Keeps(s, PutChar(s, c));
      hide PutChar, Put, Displays, Run;
      LongTextIsShown(PutChar(s, c), Put(p, c, s.style, s.cols), rest);
      assert Inv(s) by { DisplaysInv(s, p); }
      RunPrints(s, text);
    }
  }

  lemma DisplaysInv(s: Screen, p: Paper)
    requires Displays(s, p)
    ensures Inv(s)
  {
  }

  /** On a new terminal the paper is empty at first. */
  lemma NewTerminalDisplays(cols: nat, rows: nat)
    ensures Displays(Initial(cols, rows), Paper([], []))
  {
    EmptyLine(Initial(cols, rows).cols);
  }

  /** Any screen with the cursor between the margins and blank from there on down to the
      bottom margin shows the end of some paper: its own rows. */
  lemma BlankFromCursorDisplays(s: Screen)
    requires Inv(s) && s.top <= s.row <= s.bottom && |s.buffer[s.row]| == s.cols
    requires forall j | s.col <= j < s.cols :: s.buffer[s.row][j] == Blank()
    requires forall r | s.row < r <= s.bottom :: s.buffer[r] == BlankRow(s.cols)
    ensures Displays(s, Paper(s.buffer[s.top..s.row], s.buffer[s.row][..s.col]))
  {
    var p := Paper(s.buffer[s.top..s.row], s.buffer[s.row][..s.col]);
    forall r | s.top <= r <= s.bottom ensures s.buffer[r] == PaperRow(p, LineIn(s, p, r), s.cols) {
      assert RowOk(s.buffer[r], s.cols);
    }
  }

  /** Nothing is lost or invented on paper: the lines hold the text in order. */
  lemma {:induction false} LaidHoldsText(p: Paper, text: seq<Glyph>, style: Style, cols: nat)
    requires forall c | c in text :: CharWidth(c) >= 1
    ensures Joined(Laid(p, text, style, cols)) == Joined(p) + LaidOut(text, style)
    decreases |text|
  {
    if text != [] {
      assert forall d | d in text[1..] :: d in text;
      PutHoldsChar(p, text[0], style, cols);
      LaidHoldsText(Put(p, text[0], style, cols), text[1..], style, cols);
      LaidOutSplits(text, style);
      assert LaidOut(text, style) == CellsOf(text[0], style) + LaidOut(text[1..], style);
      hide Put, Joined;
      assert Joined(p) + CellsOf(text[0], style) + LaidOut(text[1..], style) == Joined(p) + LaidOut(text, style);
    }
  }

  function Concat(lines: seq<seq<Cell>>, n: nat): seq<Cell>
    requires n <= |lines|
  {
    if n == 0 then [] else Concat(lines, n - 1) + lines[n - 1]
  }

  function Joined(p: Paper): seq<Cell> {
    Concat(p.done, |p.done|) + p.current
  }

  lemma {:induction false} ConcatPrefix(a: seq<seq<Cell>>, b: seq<seq<Cell>>, n: nat)
    requires n <= |a| && n <= |b| && forall i | 0 <= i < n :: a[i] == b[i]
    ensures Concat(a, n) == Concat(b, n)
  {
    if n > 0 { ConcatPrefix(a, b, n - 1); }
  }

  lemma NextLineHolds(p: Paper)
    ensures Joined(NextLine(p)) == Joined(p)
  {
    ConcatPrefix(NextLine(p).done, p.done, |p.done|);
  }

  lemma PutHoldsChar(p: Paper, c: Glyph, style: Style, cols: nat)
    ensures Joined(Put(p, c, style, cols)) == Joined(p) + CellsOf(c, style)
  {
    var cells := CellsOf(c, style);
    var q := if |p.current| + |cells| > cols then NextLine(p) else p;
    var r := q.(current := q.current + cells);
    NextLineHolds(p);
    NextLineHolds(r);
    assert Joined(r) == Joined(q) + cells;
    hide Joined, NextLine;
  }

  /** No line is longer than the screen is wide, and the last one has room. */
  ghost predicate LinesFit(p: Paper, cols: nat) {
    |p.current| < cols && forall i | 0 <= i < |p.done| :: |p.done[i]| <= cols
  }

  function LineAfter(p: Paper, j: nat): seq<Cell>
    requires j < |p.done|
  {
    if j + 1 < |p.done| then p.done[j + 1] else p.current
  }

  /** A line is full, or one cell short of it before a wide character. */
  predicate Filled(p: Paper, j: nat, cols: nat)
    requires j < |p.done|
  {
    || |p.done[j]| == cols
    || (|p.done[j]| + 1 == cols && |LineAfter(p, j)| >= 2 && LineAfter(p, j)[1].continuation)
  }

  /** The lines done before are the same, and those done since are filled. */
  ghost predicate FilledSince(p: Paper, q: Paper, cols: nat) {
    && |p.done| <= |q.done| && q.done[..|p.done|] == p.done
    && forall j | |p.done| <= j < |q.done| :: Filled(q, j, cols)
  }

  lemma PutFills(p: Paper, q: Paper, c: Glyph, style: Style, cols: nat)
    requires LinesFit(q, cols) && FilledSince(p, q, cols) && cols >= 2
    ensures LinesFit(Put(q, c, style, cols), cols) && FilledSince(p, Put(q, c, style, cols), cols)
  {
    var r, cells := Put(q, c, style, cols), CellsOf(c, style);
    forall j | |p.done| <= j < |r.done| ensures Filled(r, j, cols) {
      if j < |q.done| { assert Filled(q, j, cols); }
    }
  }

  /** Every line that the text finishes is full, but for one cell where a wide character
      did not fit. */
  lemma {:induction false} LaidFills(p: Paper, q: Paper, text: seq<Glyph>, style: Style, cols: nat)
    requires LinesFit(q, cols) && FilledSince(p, q, cols) && cols >= 2
    ensures LinesFit(Laid(q, text, style, cols), cols) && FilledSince(p, Laid(q, text, style, cols), cols)
    decreases |text|
  {
    if text != [] {
      PutFills(p, q, text[0], style, cols);
      hide Put, LinesFit, FilledSince;
      LaidFills(p, Put(q, text[0], style, cols), text[1..], style, cols);
    }
  }

  lemma LaidFits(p: Paper, text: seq<Glyph>, style: Style, cols: nat)
    requires LinesFit(p, cols) && cols >= 2
    ensures LinesFit(Laid(p, text, style, cols), cols) && FilledSince(p, Laid(p, text, style, cols), cols)
  {
    LaidFills(p, p, text, style, cols);
  }
}
