/** The light cursor tracker with which the host answers cursor position requests.

    It keeps no grid. `Together` is the claim that it stands where the full emulator
    does, and `Agrees` the exact condition, event by event and for any two sizes,
    under which it goes on doing so. */
module HostTracker {
  import opened Wrappers
  import opened Decimal
  import opened Cells
  import opened Screens
  import opened ScreenLaws

  datatype Cursor = Cursor(rows: nat, cols: nat, row: nat, col: nat, saved: (nat, nat))

  ghost predicate CursorOk(k: Cursor) {
    k.row < k.rows && k.col < k.cols && k.saved.0 < k.rows && k.saved.1 < k.cols
  }

  ghost predicate Moved(k: Cursor, j: Cursor) {
    CursorOk(j) && j.rows == k.rows && j.cols == k.cols
  }

  predicate IsControl(c: Glyph) {
    c.code < 32 || 127 <= c.code < 160
  }

  /** The tracker takes every character outside ASCII for a wide one. */
  function HostWidth(c: Glyph): (w: nat) {
    if IsControl(c) then 0 else if c.code >= 128 then 2 else 1
  }

  function CursorReport(row: nat, col: nat): string {
    ['\U{1b}', '['] + Dec(row + 1) + [';'] + Dec(col + 1) + ['R']
  }

  lemma CursorReportSplits(row: nat, col: nat)
    ensures |CursorReport(row, col)| >= 2
    ensures CursorReport(row, col)[2..] == Dec(row + 1) + [';'] + (Dec(col + 1) + ['R'] + [])
  {
    hide Dec;
  }

  /** A report can be read in one way only. */
  lemma CursorReportInjective(r: nat, c: nat, r': nat, c': nat)
    requires CursorReport(r, c) == CursorReport(r', c')
    ensures r == r' && c == c'
  {
    hide *;
    CursorReportSplits(r, c);
    CursorReportSplits(r', c');
    NumeralPrefix(r + 1, r' + 1, ';', Dec(c + 1) + ['R'] + [], Dec(c' + 1) + ['R'] + []);
    NumeralPrefix(c + 1, c' + 1, 'R', [], []);
  }

  function Down(k: Cursor): (j: Cursor)
    requires CursorOk(k)
    ensures Moved(k, j)
  {
    k.(row := Min(k.row + 1, k.rows - 1))
  }

  function Advance(k: Cursor, w: nat): (j: Cursor)
    requires CursorOk(k)
    ensures Moved(k, j)
  {
    if w == 0 then k else if k.col + w < k.cols then k.(col := k.col + w) else Down(k).(col := 0)
  }

  function Goto(k: Cursor, row: nat, col: nat): (j: Cursor)
    requires CursorOk(k)
    ensures Moved(k, j)
  {
    k.(row := Min(row, k.rows - 1), col := Min(col, k.cols - 1))
  }

  function Asks(ev: Event): bool {
    ev.Csi? && ev.action == 'n' && ev.intermediates == [] && ParamAt(ev.params, 0, 0) == 6
  }

  function TrackCsi(k: Cursor, params: seq<seq<nat>>, action: char): (j: Cursor)
    requires CursorOk(k)
    ensures Moved(k, j)
  {
    var n := ParamAt(params, 0, 1);
    match action
    case 'A' => Goto(k, SatSub(k.row, n), k.col)
    case 'B' => Goto(k, k.row + n, k.col)
    case 'C' => Goto(k, k.row, k.col + n)
    case 'D' => Goto(k, k.row, SatSub(k.col, n))
    case 'E' => Goto(k, k.row + n, 0)
    case 'F' => Goto(k, SatSub(k.row, n), 0)
    case 'G' => Goto(k, k.row, SatSub(n, 1))
    case 'H' => Goto(k, SatSub(n, 1), SatSub(ParamAt(params, 1, 1), 1))
    case 'f' => Goto(k, SatSub(n, 1), SatSub(ParamAt(params, 1, 1), 1))
    case 'd' => Goto(k, SatSub(n, 1), k.col)
    case 's' => k.(saved := (k.row, k.col))
    case 'u' => Goto(k, k.saved.0, k.saved.1)
    case _ => k
  }

  function TrackControl(k: Cursor, byte: nat): (j: Cursor)
    requires CursorOk(k)
    ensures Moved(k, j)
  {
    match byte
    case 10 => Down(k)
    case 13 => k.(col := 0)
    case 9 => Goto(k, k.row, (k.col + 8) / 8 * 8)
    case 8 => k.(col := SatSub(k.col, 1))
    case _ => k
  }

  function TrackEsc(k: Cursor, intermediates: seq<char>, final: char): (j: Cursor)
    requires CursorOk(k)
    ensures Moved(k, j)
  {
    if intermediates != [] then k
    else
      match final
      case '7' => k.(saved := (k.row, k.col))
      case '8' => Goto(k, k.saved.0, k.saved.1)
      case 'D' => Down(k)
      case 'E' => Down(k).(col := 0)
      case _ => k
  }

  function Track(k: Cursor, ev: Event): (j: Cursor)
    requires CursorOk(k)
    ensures Moved(k, j)
  {
    match ev
    case Print(c) => Advance(k, HostWidth(c))
    case Execute(byte) => TrackControl(k, byte)
    case Csi(params, _, action) => TrackCsi(k, params, action)
    case Esc(intermediates, final) => TrackEsc(k, intermediates, final)
    case Inert => k
  }

  /** The reports a stretch of output draws, in order. */
  function Reports(k: Cursor, evs: seq<Event>): seq<string>
    requires CursorOk(k)
    decreases |evs|
  {
    if evs == [] then []
    else (if Asks(evs[0]) then [CursorReport(k.row, k.col)] else []) + Reports(Track(k, evs[0]), evs[1..])
  }

  /** Only one question is answered: `ESC [ 6 n` without marks, by the position counted
      from one. */
  lemma ReportLaw(k: Cursor, ev: Event)
    requires CursorOk(k)
    ensures
      var asked := ev.Csi? && ev.action == 'n' && ev.intermediates == [] && ev.params != [] && ev.params[0] != []
                   && ev.params[0][0] == 6;
      Reports(k, [ev]) == if asked then ["\U{1b}[" + Dec(k.row + 1) + ";" + Dec(k.col + 1) + "R"] else []
  {
    assert [ev][1..] == [];
    hide Dec, Track;
  }

  function TrackAll(k: Cursor, evs: seq<Event>): (j: Cursor)
    requires CursorOk(k)
    ensures CursorOk(j)
    decreases |evs|
  {
    if evs == [] then k else TrackAll(Track(k, evs[0]), evs[1..])
  }

  /** The tracker, updating its cursor in place. */
  class PtyTerminalState {
    const rows: nat
    const cols: nat
    var cursorRow: nat
    var cursorCol: nat
    var savedCursor: (nat, nat)
    var pendingResponses: seq<string>

    ghost function View(): Cursor
      reads this
    {
      Cursor(rows, cols, cursorRow, cursorCol, savedCursor)
    }

    ghost predicate Valid()
      reads this
    {
      CursorOk(View())
    }

    constructor (cols: nat, rows: nat)
      ensures Valid() && pendingResponses == []
      ensures View() == CursorOf(Initial(cols, rows))
    {
      this.rows := if rows == 0 then 1 else rows;
      this.cols := if cols == 0 then 1 else cols;
      cursorRow, cursorCol, savedCursor := 0, 0, (0, 0);
      pendingResponses := [];
    }

    method Linefeed()
      requires Valid()
      modifies this`cursorRow
      ensures View() == Down(old(View()))
    {
      cursorRow := Min(cursorRow + 1, rows - 1);
    }

    method PutChar(c: Glyph)
      requires Valid()
      modifies this`cursorRow, this`cursorCol
      ensures View() == Track(old(View()), Print(c))
    {
      if IsControl(c) {
        return;
      }
      var next := cursorCol + (if c.code >= 128 then 2 else 1);
      if next >= cols {
        cursorCol := 0;
        Linefeed();
      } else {
        cursorCol := next;
      }
    }

    method CsiDispatch(params: seq<seq<nat>>, intermediates: seq<char>, action: char)
      requires Valid()
      modifies this
      ensures View() == TrackCsi(old(View()), params, action)
      ensures pendingResponses == old(pendingResponses) +
        (if Asks(Csi(params, intermediates, action)) then [CursorReport(old(cursorRow), old(cursorCol))] else [])
    {
      var n := ParamAt(params, 0, 1);
      match action {
        case 'A' => cursorRow := SatSub(cursorRow, n);
        case 'B' => cursorRow := Min(cursorRow + n, rows - 1);
        case 'C' => cursorCol := Min(cursorCol + n, cols - 1);
        case 'D' => cursorCol := SatSub(cursorCol, n);
        case 'E' => cursorRow := Min(cursorRow + n, rows - 1); cursorCol := 0;
        case 'F' => cursorRow := SatSub(cursorRow, n); cursorCol := 0;
        case 'G' => cursorCol := Min(SatSub(n, 1), cols - 1);
        case 'H' =>
          cursorRow := Min(SatSub(n, 1), rows - 1);
          cursorCol := Min(SatSub(ParamAt(params, 1, 1), 1), cols - 1);
        case 'f' =>
          cursorRow := Min(SatSub(n, 1), rows - 1);
          cursorCol := Min(SatSub(ParamAt(params, 1, 1), 1), cols - 1);
        case 'd' => cursorRow := Min(SatSub(n, 1), rows - 1);
        case 'n' =>
          if intermediates == [] && ParamAt(params, 0, 0) == 6 {
            pendingResponses := pendingResponses + [CursorReport(cursorRow, cursorCol)];
          }
        case 's' => savedCursor := (cursorRow, cursorCol);
        case 'u' =>
          cursorRow := Min(savedCursor.0, rows - 1);
          cursorCol := Min(savedCursor.1, cols - 1);
        case _ =>
      }
    }

    method Execute(byte: nat)
      requires Valid()
      modifies this`cursorRow, this`cursorCol
      ensures View() == TrackControl(old(View()), byte)
    {
      match byte {
        case 10 => Linefeed();
        case 13 => cursorCol := 0;
        case 9 => cursorCol := Min((cursorCol + 8) / 8 * 8, cols - 1);
        case 8 => cursorCol := SatSub(cursorCol, 1);
        case _ =>
      }
    }

    method EscDispatch(intermediates: seq<char>, final: char)
      requires Valid()
      modifies this`cursorRow, this`cursorCol, this`savedCursor
      ensures View() == TrackEsc(old(View()), intermediates, final)
    {
      if intermediates == [] {
        match final {
          case '7' => savedCursor := (cursorRow, cursorCol);
          case '8' =>
            cursorRow := Min(savedCursor.0, rows - 1);
            cursorCol := Min(savedCursor.1, cols - 1);
          case 'D' => Linefeed();
          case 'E' => Linefeed(); cursorCol := 0;
          case _ =>
        }
      }
    }

    method Perform(ev: Event)
      requires Valid()
      modifies this
      ensures Valid() && View() == Track(old(View()), ev)
      ensures pendingResponses == old(pendingResponses) +
        (if Asks(ev) then [CursorReport(old(cursorRow), old(cursorCol))] else [])
    {
      hide TrackCsi, TrackControl, TrackEsc, CursorReport;
      match ev {
        case Print(c) => PutChar(c);
        case Execute(byte) => Execute(byte);
        case Csi(params, intermediates, action) => CsiDispatch(params, intermediates, action);
        case Esc(intermediates, final) => EscDispatch(intermediates, final);
        case Inert =>
      }
    }

    /** Feeding returns the reports drawn and keeps none of them back. */
    method Feed(evs: seq<Event>) returns (responses: seq<string>)
      requires Valid() && pendingResponses == []
      modifies this
      ensures Valid() && pendingResponses == []
      ensures View() == TrackAll(old(View()), evs)
      ensures responses == Reports(old(View()), evs)
    {
      for i := 0 to |evs|
        invariant Valid()
        invariant TrackAll(View(), evs[i..]) == TrackAll(old(View()), evs)
        invariant pendingResponses + Reports(View(), evs[i..]) == Reports(old(View()), evs)
      {
        ghost var k, rest, sent := View(), evs[i..], pendingResponses;
        assert rest[0] == evs[i] && rest[1..] == evs[i + 1..];
        ghost var drawn := if Asks(evs[i]) then [CursorReport(k.row, k.col)] else [];
        assert sent + Reports(k, rest) == sent + drawn + Reports(Track(k, evs[i]), rest[1..]);
        Perform(evs[i]);
      }
      responses := pendingResponses;
      pendingResponses := [];
    }
  }

  /* ---------- where the tracker and the emulator stand together ---------- */

  function CursorOf(s: Screen): Cursor {
    Cursor(s.rows, s.cols, s.row, s.col, s.saved)
  }

  /** Both have the same cursor and the same saved cursor, whatever their sizes. */
  ghost predicate Together(k: Cursor, s: Screen) {
    CursorOk(k) && Inv(s) && k.row == s.row && k.col == s.col && k.saved == s.saved
  }

  /** Control characters have no width, as in the Unicode table. */
  predicate WidthTableOk(c: Glyph) {
    IsControl(c) ==> CharWidth(c) == 0
  }

  predicate InTable(ev: Event) {
    ev.Print? ==> WidthTableOk(ev.c)
  }

  /** A target row or column is cut at both edges alike: they are the same, or it is
      short of both. */
  predicate Fits(target: nat, here: nat, there: nat) {
    here == there || (target < here && target < there)
  }

  /** The emulator stays on its row in a linefeed: at the bottom margin and at the end. */
  predicate Stays(s: Screen, row: nat) {
    row == s.bottom || row + 1 >= s.rows
  }

  /** A linefeed moves both or neither. */
  predicate LinesAgree(k: Cursor, s: Screen) {
    Stays(s, s.row) <==> s.row + 1 >= k.rows
  }

  /** Printing in the last column of a terminal of two columns, a wide character makes
      the emulator go to the next line twice. */
  predicate TwoLinesAgree(k: Cursor, s: Screen) {
    if s.row + 1 >= k.rows then Stays(s, s.row) else !Stays(s, s.row) && Stays(s, s.row + 1)
  }

  predicate PrintAgrees(k: Cursor, s: Screen, c: Glyph) {
    var w, hostWraps := CharWidth(c), HostWidth(c) > 0 && s.col + HostWidth(c) >= k.cols;
    if w > 0 && s.col + w >= s.cols then
      hostWraps && (if w == 2 && s.col + 1 == s.cols then s.cols == 2 && TwoLinesAgree(k, s) else LinesAgree(k, s))
    else if hostWraps then w == 0 && s.col == 0 && s.row + 1 == k.rows
    else w == HostWidth(c)
  }

  predicate AtOrigin(s: Screen) {
    s.row == 0 && s.col == 0 && s.saved == (0, 0)
  }

  /** The row to which setting the margins takes the emulator's cursor. */
  function NewTop(s: Screen, params: seq<seq<nat>>): nat {
    var top, bottom := SatSub(ParamAt(params, 0, 1), 1), SatSub(ParamAt(params, 1, s.rows % 0x1_0000), 1);
    if top < bottom < s.rows then top else 0
  }

  predicate CsiAgrees(k: Cursor, s: Screen, params: seq<seq<nat>>, intermediates: seq<char>, action: char) {
    var n := ParamAt(params, 0, 1);
    match action
    case 'B' => Fits(s.row + n, k.rows, s.rows)
    case 'C' => Fits(s.col + n, k.cols, s.cols)
    case 'E' => Fits(s.row + n, k.rows, s.rows)
    case 'G' => Fits(SatSub(n, 1), k.cols, s.cols)
    case 'H' => Fits(SatSub(n, 1), k.rows, s.rows) && Fits(SatSub(ParamAt(params, 1, 1), 1), k.cols, s.cols)
    case 'f' => Fits(SatSub(n, 1), k.rows, s.rows) && Fits(SatSub(ParamAt(params, 1, 1), 1), k.cols, s.cols)
    case 'd' => Fits(SatSub(n, 1), k.rows, s.rows)
    case 'r' => s.row == NewTop(s, params) && s.col == 0
    case 'h' => '?' in intermediates && 1049 in Flat(params) && s.main.None? ==> AtOrigin(s)
    case 'l' =>
      '?' in intermediates && 1049 in Flat(params) && s.main.Some? ==>
        s.row == s.main.value.row && s.col == s.main.value.col && s.saved == s.main.value.saved
    case _ => true
  }

  predicate EscAgrees(k: Cursor, s: Screen, intermediates: seq<char>, final: char) {
    intermediates == [] ==>
      match final
      case 'D' => LinesAgree(k, s)
      case 'E' => LinesAgree(k, s)
      case 'M' => s.row == s.top || s.row == 0
      case 'c' => AtOrigin(s)
      case _ => true
  }

  predicate ControlAgrees(k: Cursor, s: Screen, byte: nat) {
    match byte
    case 10 => LinesAgree(k, s)
    case 9 => Fits((s.col + 8) / 8 * 8, k.cols, s.cols)
    case _ => true
  }

  /** The exact condition, for terminals of any two sizes, under which an event takes
      both to the same place. */
  predicate Agrees(k: Cursor, s: Screen, ev: Event) {
    match ev
    case Print(c) => PrintAgrees(k, s, c)
    case Execute(byte) => ControlAgrees(k, s, byte)
    case Csi(params, intermediates, action) => CsiAgrees(k, s, params, intermediates, action)
    case Esc(intermediates, final) => EscAgrees(k, s, intermediates, final)
    case Inert => true
  }

  /** A cursor that both are told to go to. */
  lemma GotoAgreesIff(k: Cursor, s: Screen, row: nat, col: nat)
    requires Together(k, s)
    ensures Together(Goto(k, row, col), MoveTo(s, row, col))
       <==> Fits(row, k.rows, s.rows) && Fits(col, k.cols, s.cols)
  {
    hide GridOk, SavedOk;
  }

  lemma MotionAgreesIff(k: Cursor, s: Screen, params: seq<seq<nat>>, intermediates: seq<char>, action: char)
    requires Together(k, s) && IsMotion(action)
    ensures Together(TrackCsi(k, params, action), CsiStep(s, params, intermediates, action))
       <==> CsiAgrees(k, s, params, intermediates, action)
  {
    hide GridOk, SavedOk, Goto, MoveTo, ParamAt;
    var n, m := ParamAt(params, 0, 1), ParamAt(params, 1, 1);
    GotoAgreesIff(k, s, s.saved.0, s.saved.1);
    GotoAgreesIff(k, s, SatSub(s.row, n), s.col);
    GotoAgreesIff(k, s, s.row, SatSub(s.col, n));
    GotoAgreesIff(k, s, SatSub(s.row, n), 0);
    match action
    case 'B' => GotoAgreesIff(k, s, s.row + n, s.col);
    case 'C' => GotoAgreesIff(k, s, s.row, s.col + n);
    case 'E' => GotoAgreesIff(k, s, s.row + n, 0);
    case 'G' => GotoAgreesIff(k, s, s.row, SatSub(n, 1));
    case 'H' => GotoAgreesIff(k, s, SatSub(n, 1), SatSub(m, 1));
    case 'f' => GotoAgreesIff(k, s, SatSub(n, 1), SatSub(m, 1));
    case 'd' => GotoAgreesIff(k, s, SatSub(n, 1), s.col);
    case _ =>
  }

  lemma OtherCsiAgreesIff(k: Cursor, s: Screen, params: seq<seq<nat>>, intermediates: seq<char>, action: char)
    requires Together(k, s) && !IsMotion(action)
    ensures Together(TrackCsi(k, params, action), CsiStep(s, params, intermediates, action))
       <==> CsiAgrees(k, s, params, intermediates, action)
  {
    if (action == 'h' || action == 'l') && '?' in intermediates {
      if 1049 in Flat(params) {
        SwitchedOnce(s, Flat(params), action == 'h');
      } else {
        OtherModesInert(s, Flat(params), action == 'h');
      }
    }
    hide GridOk, SavedOk, PrivateModes;
  }

  lemma PrintAgreesIff(k: Cursor, s: Screen, c: Glyph)
    requires Together(k, s) && Printable(s.cols, c) && WidthTableOk(c)
    ensures Together(Track(k, Print(c)), PutChar(s, c)) <==> PrintAgrees(k, s, c)
  {
    hide GridOk, SavedOk;
  }

  lemma ControlAgreesIff(k: Cursor, s: Screen, byte: nat)
    requires Together(k, s)
    ensures Together(TrackControl(k, byte), Control(s, byte)) <==> ControlAgrees(k, s, byte)
  {
    hide GridOk, SavedOk;
  }

  lemma EscAgreesIff(k: Cursor, s: Screen, intermediates: seq<char>, final: char)
    requires Together(k, s)
    ensures Together(TrackEsc(k, intermediates, final), EscStep(s, intermediates, final))
       <==> EscAgrees(k, s, intermediates, final)
  {
    hide GridOk, SavedOk, Goto, MoveTo, ScrolledUp, ScrolledDown, BlankGrid;
    GotoAgreesIff(k, s, s.saved.0, s.saved.1);
  }

  /** Every event keeps them together exactly if it meets its condition. */
  lemma StepAgreesIff(k: Cursor, s: Screen, ev: Event)
    requires Together(k, s) && Accepts(s.cols, ev) && InTable(ev)
    ensures Together(Track(k, ev), Step(s, ev)) <==> Agrees(k, s, ev)
  {
    hide Together, TrackCsi, TrackControl, TrackEsc, CsiStep, Control, EscStep, PutChar;
    hide CsiAgrees, PrintAgrees, EscAgrees, ControlAgrees;
    assert CursorOk(k) && Inv(s) by { Apart(k, s); }
    match ev
    case Print(c) => PrintAgreesIff(k, s, c);
    case Execute(byte) => ControlAgreesIff(k, s, byte);
    case Csi(params, intermediates, action) =>
      if IsMotion(action) {
        MotionAgreesIff(k, s, params, intermediates, action);
      } else {
        OtherCsiAgreesIff(k, s, params, intermediates, action);
      }
    case Esc(intermediates, final) => EscAgreesIff(k, s, intermediates, final);
    case Inert =>
  }

  lemma Apart(k: Cursor, s: Screen)
    requires Together(k, s)
    ensures CursorOk(k) && Inv(s)
  {
  }

  /* ---------- whole runs ---------- */

  ghost predicate AllInTable(evs: seq<Event>) {
    forall i | 0 <= i < |evs| :: InTable(evs[i])
  }

  /** Every event of the run meets its condition where it comes. */
  ghost predicate AgreedRun(k: Cursor, s: Screen, evs: seq<Event>)
    requires CursorOk(k) && Inv(s) && AllAccepted(s.cols, evs)
    decreases |evs|
  {
    evs == [] || (Agrees(k, s, evs[0]) && AgreedRun(Track(k, evs[0]), Step(s, evs[0]), evs[1..]))
  }

  /** They stand together at the beginning and after every event. */
  ghost predicate TogetherThroughout(k: Cursor, s: Screen, evs: seq<Event>)
    requires CursorOk(k) && Inv(s) && AllAccepted(s.cols, evs)
    decreases |evs|
  {
    Together(k, s) && (evs == [] || TogetherThroughout(Track(k, evs[0]), Step(s, evs[0]), evs[1..]))
  }

  /** What the emulator would report where it is asked. */
  ghost function Asked(s: Screen, evs: seq<Event>): seq<string>
    requires Inv(s) && AllAccepted(s.cols, evs)
    decreases |evs|
  {
    if evs == [] then []
    else
      (if Asks(evs[0]) then [CursorReport(s.row, s.col)] else [])
      + Asked(Step(s, evs[0]), evs[1..])
  }

  lemma RestAccepted(cols: nat, evs: seq<Event>)
    requires AllAccepted(cols, evs) && AllInTable(evs) && evs != []
    ensures Accepts(cols, evs[0]) && InTable(evs[0]) && AllAccepted(cols, evs[1..]) && AllInTable(evs[1..])
  {
    forall i | 0 <= i < |evs| - 1 ensures Accepts(cols, evs[1..][i]) && InTable(evs[1..][i]) {
      assert evs[1..][i] == evs[i + 1];
    }
  }

  /** Over runs of any length and terminals of any two sizes: they stand together all the
      way exactly if each event meets its condition, and then each report gives the
      emulator's own position. */
  lemma {:induction false} TrackerFollowsEmulator(k: Cursor, s: Screen, evs: seq<Event>)
    requires Together(k, s) && AllAccepted(s.cols, evs) && AllInTable(evs)
    ensures TogetherThroughout(k, s, evs) <==> AgreedRun(k, s, evs)
    ensures AgreedRun(k, s, evs) ==> Together(TrackAll(k, evs), Run(s, evs)) && Reports(k, evs) == Asked(s, evs)
    decreases |evs|
  {
    hide Agrees, Track, Step, Accepts, InTable;
    if evs != [] {
      RestAccepted(s.cols, evs);
      StepAgreesIff(k, s, evs[0]);
      if Agrees(k, s, evs[0]) { TrackerFollowsEmulator(Track(k, evs[0]), Step(s, evs[0]), evs[1..]); }
    }
  }

  /* ---------- terminals of the same size ---------- */

  /** Same size, and the emulator scrolls as a whole. */
  ghost predicate Alike(k: Cursor, s: Screen) {
    Together(k, s) && k.rows == s.rows && k.cols == s.cols && s.top == 0 && s.bottom + 1 == s.rows
  }

  predicate PrintableAscii(c: Glyph) {
    32 <= c.code < 127 && CharWidth(c) == 1
  }

  /** ASCII text, control characters, and all control sequences that leave the margins
      and the screen alone. */
  predicate Plain(ev: Event) {
    match ev
    case Print(c) => PrintableAscii(c)
    case Csi(_, _, action) => action != 'r' && !Switches(ev, 'h') && !Switches(ev, 'l')
    case Esc(intermediates, final) => intermediates == [] ==> final != 'M' && final != 'c'
    case _ => true
  }

  lemma PlainAgrees(k: Cursor, s: Screen, ev: Event)
    requires Alike(k, s) && Plain(ev)
    ensures Accepts(s.cols, ev) && InTable(ev) && Agrees(k, s, ev)
  {
  }

  lemma PlainKeepsRegion(s: Screen, ev: Event)
    requires Inv(s) && Plain(ev) && Accepts(s.cols, ev)
    ensures Step(s, ev).top == s.top && Step(s, ev).bottom == s.bottom
  {
    if ev.Csi? && (ev.action == 'h' || ev.action == 'l') && '?' in ev.intermediates {
      OtherModesInert(s, Flat(ev.params), ev.action == 'h');
    }
    hide GridOk, SavedOk, PrivateModes;
  }

  /** Between terminals of the same size plain events always agree, so over every plain
      run the cursors are the same and each report is right. */
  lemma {:induction false} PlainRunsAgree(k: Cursor, s: Screen, evs: seq<Event>)
    requires Alike(k, s) && forall i | 0 <= i < |evs| :: Plain(evs[i])
    ensures AllAccepted(s.cols, evs) && AllInTable(evs) && AgreedRun(k, s, evs)
    ensures Together(TrackAll(k, evs), Run(s, evs)) && Reports(k, evs) == Asked(s, evs)
    decreases |evs|
  {
    hide Agrees, Track, Step, Accepts, InTable, Plain;
    if evs != [] {
      PlainAgrees(k, s, evs[0]);
      PlainKeepsRegion(s, evs[0]);
      StepAgreesIff(k, s, evs[0]);
      forall i | 0 <= i < |evs| - 1 ensures Plain(evs[1..][i]) { assert evs[1..][i] == evs[i + 1]; }
      PlainRunsAgree(Track(k, evs[0]), Step(s, evs[0]), evs[1..]);
      forall i | 0 <= i < |evs| ensures Accepts(s.cols, evs[i]) && InTable(evs[i]) {
        if i > 0 { assert evs[i] == evs[1..][i - 1]; }
      }
    }
  }

  /* ---------- where they part ---------- */

  /** The sizes of the program: the tracker has 80 columns and 24 rows, the emulator 72
      and 27. A space printed in column 72 parts them. */
  lemma ProgramSizesPart()
    ensures
      var k, s := Cursor(24, 80, 0, 0, (0, 0)), Initial(72, 27);
      var evs := [Csi([[72]], [], 'G'), Print(SPACE)];
      && Together(k, s) && AllAccepted(s.cols, evs)
      && !AgreedRun(k, s, evs) && !Together(TrackAll(k, evs), Run(s, evs))
  {
    var k, s := Cursor(24, 80, 0, 0, (0, 0)), Initial(72, 27);
    var go := Csi([[72]], [], 'G');
    var evs := [go, Print(SPACE)];
    assert evs[1..] == [Print(SPACE)] && evs[1..][1..] == [];
    StepAgreesIff(k, s, go);
    var j, t := Track(k, go), Step(s, go);
    assert j.col == 71 && t.col == 71 && j.cols == 80;
    StepAgreesIff(j, t, Print(SPACE));
    assert !Agrees(j, t, Print(SPACE));
    hide Track, Step, Agrees;
    assert TrackAll(k, evs) == TrackAll(j, [Print(SPACE)]) == Track(j, Print(SPACE));
    assert Run(s, evs) == Run(t, [Print(SPACE)]) == Step(t, Print(SPACE));
  }

  /** Terminals of the same size part where the emulator goes up a line on `ESC M`, which
      the tracker does not know: five rows down and one up. */
  lemma ReverseIndexParts()
    ensures
      var s := Step(Initial(80, 24), Csi([[5]], [], 'B'));
      !Together(Track(CursorOf(s), Esc([], 'M')), Step(s, Esc([], 'M')))
  {
    var s := Step(Initial(80, 24), Csi([[5]], [], 'B'));
    StepAgreesIff(CursorOf(s), s, Esc([], 'M'));
  }

  /** And on a combining accent, which moves the tracker but not the emulator: `e` and
      then U+0301. */
  lemma CombiningAccentParts()
    ensures
      var accent, s := Glyph(0x301, Some(0)), Step(Initial(80, 24), Print(Glyph(101, Some(1))));
      !Together(Track(CursorOf(s), Print(accent)), Step(s, Print(accent)))
  {
    var s := Step(Initial(80, 24), Print(Glyph(101, Some(1))));
    StepAgreesIff(CursorOf(s), s, Print(Glyph(0x301, Some(0))));
  }
}
