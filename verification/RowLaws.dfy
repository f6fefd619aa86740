/** What the control sequences that edit rows do, cell by cell and row by row, to any
    screen. Halves of wide characters that lose their other half are named one by one. */
module RowLaws {
  import opened Wrappers
  import opened Cells
  import opened Screens
  import opened ScreenLaws

  const EMPTY := Cell([Glyph(32, Some(1))], Style(White, None, false, false), false)

  predicate IsEmptyRow(row: seq<Cell>, cols: nat) {
    |row| == cols && forall c | 0 <= c < cols :: row[c] == EMPTY
  }

  lemma BlankRowIsEmpty(row: seq<Cell>, cols: nat)
    ensures IsEmptyRow(row, cols) <==> row == BlankRow(cols)
  {
  }

  /** Everything but the grid is the same. */
  predicate OnlyGrid(s: Screen, t: Screen) {
    t == s.(buffer := t.buffer) && |t.buffer| == |s.buffer|
  }

  /* ---------- rows of a scroll ---------- */

  /** Rows `top..=bottom` have moved up by `n`, empty ones moving in, and no others. */
  predicate MovedUp(s: Screen, t: Screen, top: nat, bottom: nat, n: nat) {
    && |t.buffer| == |s.buffer| == s.rows && bottom < s.rows
    && forall r | 0 <= r < s.rows ::
         if r < top || bottom < r then t.buffer[r] == s.buffer[r]
         else if r + n <= bottom then t.buffer[r] == s.buffer[r + n]
         else IsEmptyRow(t.buffer[r], s.cols)
  }

  predicate MovedDown(s: Screen, t: Screen, top: nat, bottom: nat, n: nat) {
    && |t.buffer| == |s.buffer| == s.rows && bottom < s.rows
    && forall r | 0 <= r < s.rows ::
         if r < top || bottom < r then t.buffer[r] == s.buffer[r]
         else if top + n <= r then t.buffer[r] == s.buffer[r - n]
         else IsEmptyRow(t.buffer[r], s.cols)
  }

  /** A linefeed scrolls the rows between the margins when it comes at the lower one, the
      whole screen when it comes at the end below that, and moves down elsewhere. */
  lemma LinefeedRows(s: Screen)
    requires Inv(s)
    ensures
      var t := Step(s, Execute(10));
      && Step(s, Esc([], 'D')) == t && Step(s, Esc([], 'E')) == t.(col := 0)
      && (s.row == s.bottom ==> OnlyGrid(s, t) && MovedUp(s, t, s.top, s.bottom, 1))
      && (s.row != s.bottom && s.row + 1 < s.rows ==> t == s.(row := s.row + 1))
      && (s.row != s.bottom && s.row + 1 == s.rows ==> OnlyGrid(s, t) && MovedUp(s, t, 0, s.rows - 1, 1))
  {
    BlankRowIsEmpty(BlankRow(s.cols), s.cols);
  }

  /** A reverse index scrolls them the other way when it comes at the upper margin, and
      moves up elsewhere as far as there are rows. */
  lemma ReverseIndexRows(s: Screen)
    requires Inv(s)
    ensures
      var t := Step(s, Esc([], 'M'));
      && (s.row == s.top ==> OnlyGrid(s, t) && MovedDown(s, t, s.top, s.bottom, 1))
      && (s.row != s.top && s.row > 0 ==> t == s.(row := s.row - 1))
      && (s.row != s.top && s.row == 0 ==> t == s)
  {
    BlankRowIsEmpty(BlankRow(s.cols), s.cols);
  }

  function Count(n: nat): nat {
    if n == 0 then 1 else n
  }

  lemma UpRows(s: Screen, n: nat)
    requires Inv(s)
    ensures MovedUp(s, s.(buffer := ScrolledUp(s.buffer, s.top, s.bottom, n, s.cols)), s.top, s.bottom, n)
    ensures MovedDown(s, s.(buffer := ScrolledDown(s.buffer, s.top, s.bottom, n, s.cols)), s.top, s.bottom, n)
  {
    BlankRowIsEmpty(BlankRow(s.cols), s.cols);
    assert BlankGrid(1, s.cols)[0] == BlankRow(s.cols);
    hide BlankGrid, IsEmptyRow, BlankRow, Paired, SavedOk;
  }

  lemma ScrollRows(s: Screen, n: nat)
    requires Inv(s)
    ensures OnlyGrid(s, Step(s, Csi([[n]], [], 'S')))
    ensures MovedUp(s, Step(s, Csi([[n]], [], 'S')), s.top, s.bottom, Count(n))
    ensures OnlyGrid(s, Step(s, Csi([[n]], [], 'T')))
    ensures MovedDown(s, Step(s, Csi([[n]], [], 'T')), s.top, s.bottom, Count(n))
  {
    UpRows(s, Count(n));
    hide ScrolledUp, ScrolledDown, MovedUp, MovedDown, GridOk, SavedOk;
  }

  /* ---------- rows outside the margins ---------- */

  predicate Inside(s: Screen) {
    s.top <= s.row <= s.bottom
  }

  /** Text, control characters, scrolling, editing and cursor motion: no new margins, no
      other screen, no reset, no erasing in the display; and no combining character at the
      left edge of the upper margin, where it joins the row above if there is one. */
  predicate Local(s: Screen, ev: Event) {
    match ev
    case Print(c) => CharWidth(c) >= 1 || s.col > 0 || s.row > s.top || s.row == 0
    case Csi(_, _, action) => action != 'r' && action != 'J' && action != 'h' && action != 'l'
    case Esc(intermediates, final) => intermediates == [] ==> final != 'c'
    case _ => true
  }

  predicate SameOutside(s: Screen, t: Screen) {
    && t.rows == s.rows && t.cols == s.cols && t.top == s.top && t.bottom == s.bottom
    && |t.buffer| == |s.buffer|
    && forall r | 0 <= r < |s.buffer| && !(s.top <= r <= s.bottom) :: t.buffer[r] == s.buffer[r]
  }

  lemma PrintSameOutside(s: Screen, c: Glyph)
    requires Inv(s) && Inside(s) && Local(s, Print(c)) && Printable(s.cols, c)
    ensures SameOutside(s, PutChar(s, c)) && Inside(PutChar(s, c))
  {
    hide Overwritten, WithCombining, Paired, SavedOk, IsWideLead;
  }

  lemma EditSameOutside(s: Screen, params: seq<seq<nat>>, intermediates: seq<char>, action: char)
    requires Inv(s) && Inside(s) && action in ['K', '@', 'P', 'X', 'L', 'M', 'S', 'T']
    ensures SameOutside(s, CsiStep(s, params, intermediates, action))
    ensures Inside(CsiStep(s, params, intermediates, action))
  {
    hide Erased, ShiftedRight, ShiftedLeft, Sanitized, Paired, SavedOk, ParamAt, IsMotion;
  }

  lemma OtherCsiSameOutside(s: Screen, params: seq<seq<nat>>, intermediates: seq<char>, action: char)
    requires Inv(s) && Inside(s) && Local(s, Csi(params, intermediates, action))
    requires action !in ['K', '@', 'P', 'X', 'L', 'M', 'S', 'T']
    ensures SameOutside(s, CsiStep(s, params, intermediates, action))
    ensures !IsMotion(action) ==> Inside(CsiStep(s, params, intermediates, action))
  {
    hide SgrFrom, Flat, GridOk, SavedOk, ParamAt;
  }

  lemma ControlSameOutside(s: Screen, byte: nat)
    requires Inv(s) && Inside(s)
    ensures SameOutside(s, Control(s, byte)) && Inside(Control(s, byte))
  {
    hide Paired, SavedOk;
  }

  lemma EscSameOutside(s: Screen, intermediates: seq<char>, final: char)
    requires Inv(s) && Inside(s) && Local(s, Esc(intermediates, final))
    ensures SameOutside(s, EscStep(s, intermediates, final))
    ensures intermediates != [] || final != '8' ==> Inside(EscStep(s, intermediates, final))
  {
    hide Paired, SavedOk;
  }

  /** Only a motion can take the cursor out: text, linefeeds, reverse indexes, scrolling
      and editing leave it between the margins. */
  lemma StepSameOutside(s: Screen, ev: Event)
    requires Inv(s) && Inside(s) && Local(s, ev) && Accepts(s.cols, ev)
    ensures SameOutside(s, Step(s, ev))
    ensures (ev.Csi? && IsMotion(ev.action)) || ev == Esc([], '8') || Inside(Step(s, ev))
  {
    hide CsiStep, EscStep, Control, PutChar, SameOutside, IsMotion, GridOk, SavedOk;
    match ev
    case Print(c) => PrintSameOutside(s, c);
    case Execute(byte) => ControlSameOutside(s, byte);
    case Csi(params, intermediates, action) =>
      if action in ['K', '@', 'P', 'X', 'L', 'M', 'S', 'T'] {
        EditSameOutside(s, params, intermediates, action);
      } else {
        OtherCsiSameOutside(s, params, intermediates, action);
      }
    case Esc(intermediates, final) => EscSameOutside(s, intermediates, final);
    case Inert => InertSameOutside(s);
  }

  lemma InertSameOutside(s: Screen)
    ensures SameOutside(s, s)
  {
  }

  /** The cursor is between the margins after each event of the run. */
  ghost predicate StaysInside(s: Screen, evs: seq<Event>)
    requires Inv(s)
    decreases |evs|
  {
    Inside(s) &&
    (evs == [] || (Local(s, evs[0]) && Accepts(s.cols, evs[0]) && StaysInside(Step(s, evs[0]), evs[1..])))
  }

  /** In every run with the cursor between the margins, the rows outside them stay. */
  lemma {:induction false} RowsOutsideStay(s: Screen, evs: seq<Event>)
    requires Inv(s) && StaysInside(s, evs)
    ensures AllAccepted(s.cols, evs) && SameOutside(s, Run(s, evs))
    decreases |evs|
  {
    if evs != [] {
      StepSameOutside(s, evs[0]);
      hide Step, Inv, Local, Accepts;
      var t := Step(s, evs[0]);
      assert Inv(t) && t.cols == s.cols by { StepKeeps(s, evs[0]); }
      RowsOutsideStay(t, evs[1..]);
      forall i | 0 <= i < |evs| ensures Accepts(s.cols, evs[i]) {
        if i > 0 { assert evs[i] == evs[1..][i - 1]; }
      }
    }
  }

  lemma StepKeeps(s: Screen, ev: Event)
    requires Inv(s) && Accepts(s.cols, ev)
    ensures Inv(Step(s, ev)) && Step(s, ev).cols == s.cols
  {
  }
}
