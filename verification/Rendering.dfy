/** The lines the window draws: each row as spans of equally styled text. */
module Rendering {
  import opened Cells
  import opened Screens

  datatype Span = Span(text: seq<Glyph>, style: Style)

  function Styled(text: seq<Glyph>, style: Style): (r: seq<(Glyph, Style)>)
    ensures |r| == |text|
  {
    seq(|text|, i requires 0 <= i < |text| => (text[i], style))
  }

  function Shown(cell: Cell): seq<(Glyph, Style)> {
    if cell.continuation then [] else Styled(cell.text, cell.style)
  }

  /** The characters of the first `n` cells, each with its style; continuations show nothing. */
  function Visible(row: seq<Cell>, n: nat): seq<(Glyph, Style)>
    requires n <= |row|
  {
    if n == 0 then [] else Visible(row, n - 1) + Shown(row[n - 1])
  }

  /** The characters of the first `n` spans, each with its style. */
  function Spread(spans: seq<Span>, n: nat): seq<(Glyph, Style)>
    requires n <= |spans|
  {
    if n == 0 then [] else Spread(spans, n - 1) + Styled(spans[n - 1].text, spans[n - 1].style)
  }

  lemma {:induction false} SpreadOfPrefix(a: seq<Span>, b: seq<Span>, n: nat)
    requires n <= |a| && n <= |b| && forall k | 0 <= k < n :: a[k] == b[k]
    ensures Spread(a, n) == Spread(b, n)
  {
    if n > 0 { SpreadOfPrefix(a, b, n - 1); }
  }

  lemma StyledAppends(a: seq<Glyph>, b: seq<Glyph>, style: Style)
    ensures Styled(a + b, style) == Styled(a, style) + Styled(b, style)
  {
  }

  /** No two neighbours could have been one span. */
  ghost predicate Merged(spans: seq<Span>) {
    forall i | 0 < i < |spans| :: spans[i - 1].style != spans[i].style
  }

  method PushCell(spans: seq<Span>, cell: Cell) returns (r: seq<Span>)
    requires Merged(spans)
    ensures Merged(r)
    ensures Spread(r, |r|) == Spread(spans, |spans|) + Shown(cell)
    ensures if cell.continuation then r == spans else r != []
  {
    r := spans;
    if cell.continuation {
      return;
    }
    hide Spread, Styled;
    if r == [] || r[|r| - 1].style != cell.style {
      r := r + [Span([], cell.style)];
      SpreadLast(spans, Span([], cell.style));
      StyledNothing(cell.style);
    }
    ghost var before := r[..|r| - 1];
    var last := r[|r| - 1];
    assert r == before + [last];
    PushedText(before, last, cell);
    r := r[|r| - 1 := last.(text := last.text + cell.text)];
    assert r == before + [r[|r| - 1]];
  }

  lemma StyledNothing(style: Style)
    ensures Styled([], style) == []
  {
  }

  lemma SpreadLast(spans: seq<Span>, last: Span)
    ensures Spread(spans + [last], |spans| + 1) == Spread(spans, |spans|) + Styled(last.text, last.style)
  {
    SpreadOfPrefix(spans + [last], spans, |spans|);
  }

  lemma Reassociate<T>(a: seq<T>, b: seq<T>, c: seq<T>)
    ensures a + (b + c) == (a + b) + c
  {
  }

  lemma PushedText(before: seq<Span>, last: Span, cell: Cell)
    requires !cell.continuation && last.style == cell.style
    ensures
      var more := last.(text := last.text + cell.text);
      Spread(before + [more], |before| + 1) == Spread(before + [last], |before| + 1) + Shown(cell)
  {
    hide Spread, Styled;
    SpreadLast(before, last);
    SpreadLast(before, last.(text := last.text + cell.text));
    StyledAppends(last.text, cell.text, cell.style);
    Reassociate(Spread(before, |before|), Styled(last.text, cell.style), Styled(cell.text, cell.style));
  }

  /** The spans hold the row's visible text, and neighbours differ in style. */
  ghost predicate ShowsRow(line: seq<Span>, row: seq<Cell>) {
    line != [] && Merged(line) && Spread(line, |line|) == Visible(row, |row|)
  }

  method RowLine(row: seq<Cell>) returns (line: seq<Span>)
    ensures ShowsRow(line, row)
  {
    line := [];
    for c := 0 to |row|
      invariant Merged(line) && Spread(line, |line|) == Visible(row, c)
    {
      line := PushCell(line, row[c]);
    }
    if line == [] {
      line := [Span([], DEFAULT_STYLE)];
      assert Styled([], DEFAULT_STYLE) == [] && Spread(line, 0) == [];
    }
  }

  /** Every row becomes a line with the row's visible text, in spans
      of one style each; a row with nothing to show still has one, empty, span. */
  method Lines(buffer: Grid) returns (lines: seq<seq<Span>>)
    ensures |lines| == |buffer|
    ensures forall r | 0 <= r < |buffer| ::
              ShowsRow(lines[r], buffer[r])
  {
    lines := [];
    for r := 0 to |buffer|
      invariant |lines| == r
      invariant forall k | 0 <= k < r ::
                  ShowsRow(lines[k], buffer[k])
    {
      var line := RowLine(buffer[r]);
      lines := lines + [line];
    }
  }
}
