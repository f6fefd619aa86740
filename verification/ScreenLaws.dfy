/** What whole runs of the terminal guarantee. */
module ScreenLaws {
  import opened Wrappers
  import opened Cells
  import opened Screens

  lemma {:induction false} RunAppends(s: Screen, a: seq<Event>, b: seq<Event>)
    requires Inv(s) && AllAccepted(s.cols, a) && AllAccepted(s.cols, b)
    ensures AllAccepted(s.cols, a + b)
    ensures Run(s, a + b) == Run(Run(s, a), b)
    decreases |a|
  {
    hide Step, Inv;
    if a == [] {
      assert a + b == b;
    } else {
      assert Accepts(s.cols, a[0]);
      assert AllAccepted(s.cols, a[1..]) by {
        forall i | 0 <= i < |a[1..]| ensures Accepts(s.cols, a[1..][i]) { assert a[1..][i] == a[i + 1]; }
      }
      RunAppends(Step(s, a[0]), a[1..], b);
      assert (a + b)[0] == a[0] && (a + b)[1..] == a[1..] + b;
    }
  }

  /* ---------- the invariant ---------- */

  /** After any output whatever: the grid has its dimensions and its wide
      characters paired, the cursor and the scroll region are on the screen. */
  lemma EveryRunIsSafe(cols: nat, rows: nat, evs: seq<Event>)
    requires AllAccepted(Initial(cols, rows).cols, evs)
    ensures
      var s := Run(Initial(cols, rows), evs);
      && |s.buffer| == s.rows >= 1
      && (forall r | 0 <= r < s.rows :: |s.buffer[r]| == s.cols && Paired(s.buffer[r]))
      && s.row < s.rows && s.col < s.cols
      && (s.top < s.bottom < s.rows || s.rows == 1)
  {
    var s := Run(Initial(cols, rows), evs);
    assert forall r | 0 <= r < s.rows :: RowOk(s.buffer[r], s.cols);
  }

  /** The one input outside the theorem: a wide character on a terminal of one
      column, whose right half would be written past the end of the row. */
  lemma WideWriteInRangeIff(s: Screen, c: Glyph)
    requires Inv(s) && CharWidth(c) == 2
    ensures BeforePrinting(s, 2).col + 1 < |s.buffer[0]| <==> Printable(s.cols, c)
  {
    assert RowOk(s.buffer[0], s.cols);
  }

  /* ---------- the alternate screen ---------- */

  lemma {:induction false} OtherModesInert(s: Screen, values: seq<nat>, on: bool)
    requires Inv(s) && 1049 !in values
    ensures PrivateModes(s, values, on) == s
    decreases |values|
  {
    if values != [] {
      assert values[0] in values && forall v | v in values[1..] :: v in values;
      OtherModesInert(s, values[1..], on);
    }
  }

  /** Setting or resetting the mode twice in one sequence is doing it once. */
  lemma {:induction false} SwitchedOnce(s: Screen, values: seq<nat>, on: bool)
    requires Inv(s) && (1049 in values || (on <==> s.main.Some?))
    ensures PrivateModes(s, values, on) == if on then EnterAlternate(s) else LeaveAlternate(s)
    decreases |values|
  {
    if values != [] {
      var t := if values[0] != 1049 then s else if on then EnterAlternate(s) else LeaveAlternate(s);
      if values[0] != 1049 { assert forall v | v in values && v != values[0] :: v in values[1..]; }
      SwitchedOnce(t, values[1..], on);
    }
  }

  lemma StepStaysAlternate(s: Screen, ev: Event)
    requires Inv(s) && Accepts(s.cols, ev) && s.main.Some? && !Switches(ev, 'l')
    ensures Step(s, ev).main == s.main
  {
    match ev
    case Csi(params, intermediates, action) => CsiStaysAlternate(s, params, intermediates, action);
    case _ =>
  }

  lemma CsiStaysAlternate(s: Screen, params: seq<seq<nat>>, intermediates: seq<char>, action: char)
    requires Inv(s) && s.main.Some? && !Switches(Csi(params, intermediates, action), 'l')
    ensures CsiStep(s, params, intermediates, action).main == s.main
  {
    if action == 'h' {
      SwitchedOnce(s, Flat(params), true);
    } else if action == 'l' && '?' in intermediates {
      OtherModesInert(s, Flat(params), false);
    }
  }

  lemma {:induction false} RunStaysAlternate(s: Screen, evs: seq<Event>)
    requires Inv(s) && AllAccepted(s.cols, evs) && s.main.Some?
    requires forall ev | ev in evs :: !Switches(ev, 'l')
    ensures Run(s, evs).main == s.main
    decreases |evs|
  {
    if evs != [] {
      assert Accepts(s.cols, evs[0]) && evs[0] in evs;
      StepStaysAlternate(s, evs[0]);
      forall i | 0 <= i < |evs| - 1 ensures Accepts(s.cols, evs[1..][i]) { assert evs[1..][i] == evs[i + 1]; }
      RunStaysAlternate(Step(s, evs[0]), evs[1..]);
    }
  }

  /** Entering the alternate screen, anything there that does not leave it, and
      leaving it give back the screen exactly: grid, cursor, style, saved cursor
      and scroll region. */
  lemma AlternateScreenRoundTrip(s: Screen, enter: Event, evs: seq<Event>, leave: Event)
    requires Inv(s) && s.main.None?
    requires Switches(enter, 'h') && Switches(leave, 'l')
    requires AllAccepted(s.cols, evs) && forall ev | ev in evs :: !Switches(ev, 'l')
    ensures AllAccepted(s.cols, [enter] + evs + [leave])
    ensures Run(s, [enter] + evs + [leave]) == s
  {
    SwitchStep(s, enter, true);
    var alt := EnterAlternate(s);
    hide Step, Inv;
    RunOne(s, enter);
    RunStaysAlternate(alt, evs);
    var last := Run(alt, evs);
    SwitchStep(last, leave, false);
    RunOne(last, leave);
    RunAppends(s, [enter], evs);
    RunAppends(s, [enter] + evs, [leave]);
  }

  lemma SwitchStep(s: Screen, ev: Event, on: bool)
    requires Inv(s) && Switches(ev, if on then 'h' else 'l')
    ensures Accepts(s.cols, ev) && Step(s, ev) == if on then EnterAlternate(s) else LeaveAlternate(s)
  {
    SwitchedOnce(s, Flat(ev.params), on);
  }

  lemma RunOne(s: Screen, ev: Event)
    requires Inv(s) && Accepts(s.cols, ev)
    ensures AllAccepted(s.cols, [ev]) && Run(s, [ev]) == Step(s, ev)
  {
    hide Step, Inv;
    assert [ev][1..] == [];
  }

  /* ---------- scrolling ---------- */

  /** Deleting the lines just inserted brings the region back, but for the lines
      that insertion pushed out at the bottom margin. */
  lemma DeleteUndoesInsert(s: Screen, n: nat)
    requires Inv(s) && s.top <= s.row <= s.bottom
    ensures
      var t := DeleteLines(InsertLines(s, n), n);
      && t == s.(buffer := t.buffer)
      && (forall r | 0 <= r < s.rows && !(s.bottom - n < r <= s.bottom && s.row <= r) ::
            t.buffer[r] == s.buffer[r])
      && (forall r | s.row <= r <= s.bottom && s.bottom - n < r :: t.buffer[r] == BlankRow(s.cols))
  {
  }

  /** Inserting and deleting lines is scrolling with the top margin at the cursor row. On
      the bottom margin it clears the row, and outside the region it does nothing. */
  lemma InsertLinesScrolls(s: Screen, n: nat)
    requires Inv(s)
    ensures
      var inserted, deleted := Step(s, Csi([[n]], [], 'L')), Step(s, Csi([[n]], [], 'M'));
      var region := s.(top := s.row);
      && (s.top <= s.row < s.bottom ==>
            && inserted == Step(region, Csi([[n]], [], 'T')).(top := s.top)
            && deleted == Step(region, Csi([[n]], [], 'S')).(top := s.top))
      && (s.row == s.bottom ==> inserted == deleted == s.(buffer := s.buffer[s.row := BlankRow(s.cols)]))
      && (s.row < s.top || s.row > s.bottom ==> inserted == deleted == s)
  {
  }

  /* ---------- printing ---------- */

  /** The cells of one character. */
  function CellsOf(c: Glyph, style: Style): seq<Cell> {
    [Cell([c], style, false)] + (if CharWidth(c) == 2 then [Continuation(style)] else [])
  }

  /** The cells a text takes when it is laid out in one row. */
  function LaidOut(text: seq<Glyph>, style: Style): seq<Cell> {
    if text == [] then [] else CellsOf(text[0], style) + LaidOut(text[1..], style)
  }

  lemma LaidOutSplits(text: seq<Glyph>, style: Style)
    requires text != []
    ensures LaidOut(text, style) == LaidOut(text[..1], style) + LaidOut(text[1..], style)
    ensures |LaidOut(text[..1], style)| == if CharWidth(text[0]) == 2 then 2 else 1
  {
    assert LaidOut(text[..1][1..], style) == [];
  }

  function Prints(text: seq<Glyph>): seq<Event> {
    seq(|text|, i requires 0 <= i < |text| => Print(text[i]))
  }

  /** The cells left of the cursor, as printing leaves them: if the cursor stands on the
      right half of a wide character, its left half becomes a blank. */
  function LeftOfCursor(s: Screen): seq<Cell>
    requires Inv(s)
  {
    assert RowOk(s.buffer[s.row], s.cols);
    var left := s.buffer[s.row][..s.col];
    if s.col > 0 && IsWideLead(left[s.col - 1]) then left[s.col - 1 := Blank()] else left
  }

  lemma RowWritten(row: seq<Cell>, col: nat, c: Glyph, style: Style)
    requires Paired(row) && CharWidth(c) >= 1 && col + CharWidth(c) < |row|
    ensures
      var r, w := Overwritten(row, col, Cell([c], style, false), CharWidth(c)), CharWidth(c);
      var left := row[..col];
      && r[..col] == (if col > 0 && IsWideLead(left[col - 1]) then left[col - 1 := Blank()] else left)
      && r[col..col + w] == LaidOut([c], style)
      && !IsWideLead(r[col + w - 1])
  {
    assert LaidOut([c], style) == CellsOf(c, style) + LaidOut([], style) == CellsOf(c, style);
  }

  /** One character away from the margins: its cells are written, the cells left
      of it stay but for half a character, and all other rows stay. */
  lemma CharIsShown(s: Screen, c: Glyph)
    requires Inv(s) && CharWidth(c) >= 1 && s.col + CharWidth(c) < s.cols
    ensures
      var t, w := PutChar(s, c), CharWidth(c);
      && t == s.(buffer := s.buffer[s.row := t.buffer[s.row]], col := s.col + w)
      && |t.buffer[s.row]| == s.cols
      && t.buffer[s.row][..s.col] == LeftOfCursor(s)
      && t.buffer[s.row][s.col..t.col] == LaidOut([c], s.style)
      && !IsWideLead(t.buffer[s.row][t.col - 1])
  {
    assert RowOk(s.buffer[s.row], s.cols);
    RowWritten(s.buffer[s.row], s.col, c, s.style);
    hide Overwritten, LaidOut, IsWideLead, Paired;
  }

  ghost predicate Shows(s: Screen, t: Screen, left: seq<Cell>, cells: seq<Cell>)
    requires Inv(s) && Inv(t)
  {
    && t.rows == s.rows && RowOk(s.buffer[s.row], s.cols) && RowOk(t.buffer[s.row], t.cols)
    && t == s.(buffer := s.buffer[s.row := t.buffer[s.row]], col := s.col + |cells|)
    && t.buffer[s.row][..s.col] == left
    && t.buffer[s.row][s.col..t.col] == cells
  }

  lemma ShowsComposes(s: Screen, t: Screen, u: Screen, left: seq<Cell>, first: seq<Cell>, rest: seq<Cell>)
    requires Inv(s) && Inv(t) && Inv(u) && Shows(s, t, left, first)
    requires Shows(t, u, t.buffer[t.row][..t.col], rest)
    ensures Shows(s, u, left, first + rest)
  {
    var row := u.buffer[s.row];
    assert RowOk(row, s.cols) && RowOk(t.buffer[s.row], s.cols) && RowOk(s.buffer[s.row], s.cols);
    assert row[..s.col] == row[..t.col][..s.col] == t.buffer[s.row][..s.col];
    assert row[s.col..t.col] == row[..t.col][s.col..] == t.buffer[s.row][s.col..t.col];
    assert row[s.col..u.col] == row[s.col..t.col] + row[t.col..u.col];
    assert t.buffer == s.buffer[s.row := t.buffer[s.row]] && u.buffer == t.buffer[s.row := row];
    assert u.buffer == s.buffer[s.row := row];
  }

  lemma RunPrints(s: Screen, text: seq<Glyph>)
    requires Inv(s) && s.cols >= 2 && text != []
    ensures AllAccepted(s.cols, Prints(text)) && AllAccepted(s.cols, Prints(text[1..]))
    ensures Run(s, Prints(text)) == Run(PutChar(s, text[0]), Prints(text[1..]))
  {
    assert Prints(text)[0] == Print(text[0]) && Prints(text)[1..] == Prints(text[1..]);
  }

  /** Text that ends before the right margin is shown as it is, whatever was there. */
  lemma {:induction false} TextIsShown(s: Screen, text: seq<Glyph>)
    requires Inv(s) && text != [] && forall c | c in text :: CharWidth(c) >= 1
    requires s.col + |LaidOut(text, s.style)| < s.cols
    ensures AllAccepted(s.cols, Prints(text))
    ensures Shows(s, Run(s, Prints(text)), LeftOfCursor(s), LaidOut(text, s.style))
    decreases |text|
  {
    var c, rest := text[0], text[1..];
    assert c in text && forall d | d in rest :: d in text;
    LaidOutSplits(text, s.style);
    assert text[..1] == [c];
    CharIsShown(s, c);
    var t := PutChar(s, c);
    assert RowOk(t.buffer[t.row], t.cols) && RowOk(s.buffer[s.row], s.cols);
    assert LeftOfCursor(t) == t.buffer[t.row][..t.col];
    if rest == [] {
      NothingPrinted(t);
      assert text == [c] && Prints(rest) == [];
      hide PutChar, LaidOut, LeftOfCursor;
      RunPrints(s, text);
    } else {
      hide PutChar, Run, LaidOut, LeftOfCursor;
      TextIsShown(t, rest);
      RunPrints(s, text);
      ShowsComposes(s, t, Run(t, Prints(rest)), LeftOfCursor(s), LaidOut([c], s.style), LaidOut(rest, s.style));
    }
  }

  lemma NothingPrinted(s: Screen)
    requires Inv(s)
    ensures AllAccepted(s.cols, []) && Run(s, []) == s
  {
  }

  /* ---------- the saved cursor ---------- */

  /** Events after which the saved cursor may be another one. */
  predicate Resaves(ev: Event) {
    || Switches(ev, 'h') || Switches(ev, 'l')
    || (ev.Csi? && ev.action == 's')
    || (ev.Esc? && ev.intermediates == [] && (ev.final == '7' || ev.final == 'c'))
  }

  lemma StepKeepsSaved(s: Screen, ev: Event)
    requires Inv(s) && Accepts(s.cols, ev) && !Resaves(ev)
    ensures Step(s, ev).saved == s.saved
  {
    hide GridOk, SavedOk;
    match ev
    case Csi(params, intermediates, action) =>
      if (action == 'h' || action == 'l') && '?' in intermediates { OtherModesInert(s, Flat(params), action == 'h'); }
    case _ =>
  }

  lemma {:induction false} RunKeepsSaved(s: Screen, evs: seq<Event>)
    requires Inv(s) && AllAccepted(s.cols, evs) && forall ev | ev in evs :: !Resaves(ev)
    ensures Run(s, evs).saved == s.saved
    decreases |evs|
  {
    if evs != [] {
      assert Accepts(s.cols, evs[0]) && evs[0] in evs;
      StepKeepsSaved(s, evs[0]);
      forall i | 0 <= i < |evs| - 1 ensures Accepts(s.cols, evs[1..][i]) { assert evs[1..][i] == evs[i + 1]; }
      RunKeepsSaved(Step(s, evs[0]), evs[1..]);
    }
  }

  /** Restoring goes back to where the cursor was saved, whatever was printed,
      scrolled or moved in between. */
  lemma SaveThenRestore(s: Screen, evs: seq<Event>)
    requires Inv(s) && AllAccepted(s.cols, evs) && forall ev | ev in evs :: !Resaves(ev)
    ensures
      var t := EscStep(Run(EscStep(s, [], '7'), evs), [], '8');
      t.row == s.row && t.col == s.col
  {
    RunKeepsSaved(EscStep(s, [], '7'), evs);
  }
}
