/** The shape of wrapped rows: they fit, they are full, and each leaves the default rendition. */
module TerminalRows {
  import opened Common
  import opened TerminalWrap

  function CellWidth(t: Token): nat { if t.Cell? then t.width else 0 }

  function RowWidth(row: seq<Token>): nat {
    if row == [] then 0 else RowWidth(row[..|row| - 1]) + CellWidth(row[|row| - 1])
  }

  function WideCells(row: seq<Token>): nat {
    if row == [] then 0 else WideCells(row[..|row| - 1]) + (if CellWidth(row[|row| - 1]) > 0 then 1 else 0)
  }

  /** The first grapheme of a row, if it has one. */
  function FirstCell(row: seq<Token>): Option<Token> {
    if row == [] then None
    else if FirstCell(row[..|row| - 1]).Some? then FirstCell(row[..|row| - 1])
    else if row[|row| - 1].Cell? then Some(row[|row| - 1])
    else None
  }

  /** A row fits, or its only grapheme that takes space is wider than the whole width. */
  predicate Fits(row: seq<Token>, width: nat) {
    RowWidth(row) <= width || WideCells(row) == 1
  }

  /** The next row starts with a grapheme this row had no space for. */
  predicate FullBefore(row: seq<Token>, next: seq<Token>, width: nat) {
    FirstCell(next).Some? && RowWidth(row) + CellWidth(FirstCell(next).value) > width
  }

  lemma AppendToken(row: seq<Token>, t: Token)
    ensures RowWidth(row + [t]) == RowWidth(row) + CellWidth(t)
    ensures WideCells(row + [t]) == WideCells(row) + (if CellWidth(t) > 0 then 1 else 0)
    ensures FirstCell(row + [t])
      == (if FirstCell(row).Some? then FirstCell(row) else if t.Cell? then Some(t) else None)
  {
    assert (row + [t])[..|row|] == row;
  }

  lemma {:induction false} CleanStateTakesNoSpace(active: seq<Token>)
    requires !Tainted(active)
    ensures RowWidth(active) == 0 && WideCells(active) == 0 && FirstCell(active) == None
  {
    if active != [] {
      var n := |active| - 1;
      assert active[n] in active;
      assert forall t :: t in active[..n] ==> t in active;
      CleanStateTakesNoSpace(active[..n]);
    }
  }

  lemma ClosedKeepsShape(current: seq<Token>, active: seq<Token>)
    ensures RowWidth(Closed(current, active)) == RowWidth(current)
    ensures WideCells(Closed(current, active)) == WideCells(current)
    ensures FirstCell(Closed(current, active)) == FirstCell(current)
  {
    AppendToken(current, RESET);
  }

  lemma {:induction false} NoWideCells(row: seq<Token>)
    requires RowWidth(row) == 0
    ensures WideCells(row) == 0
  {
    if row != [] { NoWideCells(row[..|row| - 1]); }
  }

  ghost predicate Shaped(rows: seq<seq<Token>>, width: nat) {
    && (forall k :: 0 <= k < |rows| ==> Fits(rows[k], width) && StyleAfter(rows[k], []) == [])
    && (forall k, l :: 0 <= k && l == k + 1 && l < |rows| ==> FullBefore(rows[k], rows[l], width))
  }

  ghost predicate ShapedScan(s: State, width: nat) {
    && Shaped(s.rows, width)
    && s.visible == RowWidth(s.current) && Fits(s.current, width)
    && (s.rows != [] ==> FullBefore(s.rows[|s.rows| - 1], s.current, width))
    && (s.active == [] ==> StyleAfter(s.current, []) == [])
  }

  lemma RowsKeepShape(rows: seq<seq<Token>>, row: seq<Token>, width: nat)
    requires Shaped(rows, width) && Fits(row, width) && StyleAfter(row, []) == []
    requires rows != [] ==> FullBefore(rows[|rows| - 1], row, width)
    ensures Shaped(rows + [row], width)
  {
  }

  lemma ClosedRowsKeepShape(s: State, width: nat)
    requires ShapedScan(s, width)
    ensures Shaped(s.rows + [Closed(s.current, s.active)], width)
  {
    var row := Closed(s.current, s.active);
    ClosedKeepsShape(s.current, s.active);
    ClosedShowsTheSame(s.current, s.active);
    RowsKeepShape(s.rows, row, width);
  }

  /** The row a break starts: the carried state, then the grapheme that did not fit. */
  lemma CarriedRow(active: seq<Token>, t: Token, width: nat)
    requires !Tainted(active) && t.Cell?
    ensures RowWidth(active + [t]) == t.width && FirstCell(active + [t]) == Some(t) && Fits(active + [t], width)
    ensures active == [] ==> StyleAfter(active + [t], []) == []
  {
    CleanStateTakesNoSpace(active);
    AppendToken(active, t);
    StyleAppend(active, t, []);
  }

  lemma BreakKeepsShape(s: State, t: Token, width: nat)
    requires ShapedScan(s, width) && Breaks(s, t, width) && !Tainted(s.active)
    ensures ShapedScan(Scan(s, t, width), width)
  {
    var row, r := Closed(s.current, s.active), Scan(s, t, width);
    ClosedRowsKeepShape(s, width);
    ClosedKeepsShape(s.current, s.active);
    CarriedRow(s.active, t, width);
    assert r.rows == s.rows + [row] && r.current == s.active + [t];
    assert FullBefore(row, r.current, width);
  }

  lemma AppendKeepsShape(s: State, t: Token, width: nat)
    requires ShapedScan(s, width) && !Breaks(s, t, width)
    requires Scan(s, t, width).active == [] ==> StyleAfter(Scan(s, t, width).current, []) == []
    ensures ShapedScan(Scan(s, t, width), width)
  {
    AppendToken(s.current, t);
    if s.visible == 0 {
      NoWideCells(s.current);
    }
  }

  /** An escape that leaves no state to carry leaves the default rendition. */
  lemma NothingCarriedIsTheDefault(active: seq<Token>, params: seq<Field>, style: seq<Command>)
    requires NextSgrState(active, params) == []
    ensures Apply(style, params) == []
  {
    if Resets(params) {
      DroppingUpToResetKeepsState(style, params);
    }
  }

  lemma ScanKeepsShape(s: State, t: Token, width: nat)
    requires ShapedScan(s, width)
    requires !(Breaks(s, t, width) && Tainted(s.active))
    ensures ShapedScan(Scan(s, t, width), width)
  {
    if Breaks(s, t, width) {
      BreakKeepsShape(s, t, width);
    } else {
      StyleAppend(s.current, t, []);
      if t.Sgr? && NextSgrState(s.active, t.params) == [] {
        NothingCarriedIsTheDefault(s.active, t.params, StyleAfter(s.current, []));
      }
      AppendKeepsShape(s, t, width);
    }
  }

  /** A row breaks before `t` with rebuilt parameters that do not all print as digits. */
  predicate SpillsHere(line: seq<Token>, t: Token, width: nat) {
    Breaks(ScanAll(line, width), t, width) && !AllDigitsPrinted(Leftover(line))
  }

  /** Some row of the line starts that way. */
  predicate SpillsAtBreak(line: seq<Token>, width: nat) {
    && line != []
    && (SpillsAtBreak(line[..|line| - 1], width) || SpillsHere(line[..|line| - 1], line[|line| - 1], width))
  }

  lemma {:induction false} ScanIsShaped(line: seq<Token>, width: nat)
    requires !SpillsAtBreak(line, width)
    ensures ShapedScan(ScanAll(line, width), width)
    decreases |line|
  {
    if line != [] {
      var n := |line| - 1;
      ScanIsShaped(line[..n], width);
      CarriedStateIs(line[..n], width);
      ScanKeepsShape(ScanAll(line[..n], width), line[n], width);
    }
  }

  /** Every row fits the column count unless it holds a single grapheme wider than the whole width; no
      row is broken early; and each row, shown from the default rendition, ends in it. */
  lemma WrappedRowsFit(line: seq<Token>, columns: int)
    requires !SpillsAtBreak(line, Width(columns))
    ensures Wrapped(line, columns) != []
    ensures Shaped(Wrapped(line, columns), Width(columns))
  {
    var s := ScanAll(line, Width(columns));
    ScanIsShaped(line, Width(columns));
    ClosedRowsKeepShape(s, Width(columns));
  }
}
