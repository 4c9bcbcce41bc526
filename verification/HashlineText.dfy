/** Lines with their ends, and the lines an edit's rows become. */
module HashlineText {
  import opened Common

  predicate NoBreak(s: string) { forall k :: 0 <= k < |s| ==> s[k] != '\n' && s[k] != '\r' }

  predicate Ended(s: string) { |s| > 0 && (s[|s| - 1] == '\n' || s[|s| - 1] == '\r') }

  /** One line as it sits in a file: its text and, except perhaps at the end of the file, a newline. */
  predicate Closed(s: string) { |s| > 0 && s[|s| - 1] == '\n' && NoBreak(s[..|s| - 1]) }

  predicate FileLines(lines: seq<string>) {
    forall k :: 0 <= k < |lines| ==>
      Closed(lines[k]) || (k == |lines| - 1 && lines[k] != "" && NoBreak(lines[k]))
  }

  function Text(line: string): string { if Ended(line) then line[..|line| - 1] else line }

  function Texts(lines: seq<string>): seq<string> { seq(|lines|, k requires 0 <= k < |lines| => Text(lines[k])) }

  function Join(lines: seq<string>): string {
    if lines == [] then "" else lines[0] + Join(lines[1..])
  }

  /** `splitlines(keepends=True)` on text whose only line break is the newline. */
  function SplitLines(text: string): seq<string> { SplitFrom(text, 0) }

  /** `scanned` characters of the current line hold no break. */
  function SplitFrom(text: string, scanned: nat): seq<string>
    requires scanned <= |text|
    decreases |text|, |text| - scanned
  {
    if scanned == |text| then if text == "" then [] else [text]
    else if text[scanned] == '\n' then [text[..scanned + 1]] + SplitFrom(text[scanned + 1..], 0)
    else SplitFrom(text, scanned + 1)
  }

  lemma {:induction false} SplitFromIs(text: string, scanned: nat)
    requires scanned <= |text| && NoBreak(text[..scanned]) && forall k :: 0 <= k < |text| ==> text[k] != '\r'
    ensures FileLines(SplitFrom(text, scanned)) && Join(SplitFrom(text, scanned)) == text
    decreases |text|, |text| - scanned
  {
    if scanned == |text| {
      assert text[..scanned] == text;
      assert text != "" ==> Join([text]) == text + Join([]);
    } else if text[scanned] == '\n' {
      var line, rest := text[..scanned + 1], text[scanned + 1..];
      SplitFromIs(rest, 0);
      assert line[..|line| - 1] == text[..scanned];
      assert ([line] + SplitFrom(rest, 0))[1..] == SplitFrom(rest, 0);
      assert line + rest == text;
    } else {
      assert text[..scanned + 1] == text[..scanned] + [text[scanned]];
      SplitFromIs(text, scanned + 1);
    }
  }

  /** Splitting gives file lines that join back to the text. */
  lemma SplitIs(text: string)
    requires forall k :: 0 <= k < |text| ==> text[k] != '\r'
    ensures FileLines(SplitLines(text)) && Join(SplitLines(text)) == text
  {
    SplitFromIs(text, 0);
  }

  lemma {:induction false} SplitFirst(line: string, rest: string, scanned: nat)
    requires Closed(line) && scanned < |line|
    ensures SplitFrom(line + rest, scanned) == [line] + SplitFrom(rest, 0)
    decreases |line| - scanned
  {
    var text := line + rest;
    if scanned == |line| - 1 {
      assert text[..scanned + 1] == line && text[scanned + 1..] == rest;
    } else {
      assert text[scanned] == line[..|line| - 1][scanned];
      SplitFirst(line, rest, scanned + 1);
    }
  }

  lemma {:induction false} SplitLast(line: string, scanned: nat)
    requires NoBreak(line) && line != "" && scanned <= |line|
    ensures SplitFrom(line, scanned) == [line]
    decreases |line| - scanned
  {
    if scanned < |line| { SplitLast(line, scanned + 1); }
  }

  /** File lines joined and split again are the same lines. */
  lemma {:induction false} ResplitIsStable(lines: seq<string>)
    requires FileLines(lines)
    ensures SplitLines(Join(lines)) == lines
    decreases |lines|
  {
    if lines != [] {
      assert FileLines(lines[1..]) by {
        forall k | 0 <= k < |lines| - 1 ensures lines[1..][k] == lines[k + 1] { }
      }
      ResplitIsStable(lines[1..]);
      assert lines == [lines[0]] + lines[1..];
      if Closed(lines[0]) {
        SplitFirst(lines[0], Join(lines[1..]), 0);
      } else {
        assert lines[1..] == [];
        assert Join(lines) == lines[0] + "" == lines[0];
        SplitLast(lines[0], 0);
      }
    }
  }

  // ----- sizes

  /** The length of a character in UTF-8. */
  function CharBytes(c: char): nat {
    var n := c as int;
    if n < 0x80 then 1 else if n < 0x800 then 2 else if n < 0x10000 then 3 else 4
  }

  function TextBytes(s: string): nat { if s == "" then 0 else CharBytes(s[0]) + TextBytes(s[1..]) }

  function LinesBytes(lines: seq<string>): nat {
    if lines == [] then 0 else TextBytes(lines[0]) + LinesBytes(lines[1..])
  }

  lemma {:induction false} TextBytesConcat(a: string, b: string)
    ensures TextBytes(a + b) == TextBytes(a) + TextBytes(b)
    decreases |a|
  {
    if a == "" {
      assert a + b == b;
    } else {
      TextBytesConcat(a[1..], b);
      assert (a + b)[1..] == a[1..] + b;
    }
  }

  lemma {:induction false} JoinedBytes(lines: seq<string>)
    ensures TextBytes(Join(lines)) == LinesBytes(lines)
    decreases |lines|
  {
    if lines != [] {
      JoinedBytes(lines[1..]);
      TextBytesConcat(lines[0], Join(lines[1..]));
    }
  }

  lemma {:induction false} LinesBytesConcat(a: seq<string>, b: seq<string>)
    ensures LinesBytes(a + b) == LinesBytes(a) + LinesBytes(b)
    decreases |a|
  {
    if a == [] {
      assert a + b == b;
    } else {
      LinesBytesConcat(a[1..], b);
      assert (a + b)[1..] == a[1..] + b;
    }
  }

  // ----- from rows to lines

  /** `"\n".join`. */
  function JoinRows(rows: seq<string>): string {
    if rows == [] then ""
    else if |rows| == 1 then rows[0]
    else rows[0] + "\n" + JoinRows(rows[1..])
  }

  /** `_hashline_replacement_text`. */
  function ReplacementText(rows: seq<string>): string {
    if rows == [] then ""
    else JoinRows(rows) + (if rows[|rows| - 1] == "" then "\n" else "")
  }

  /** `_replacement_lines`, in a file whose newline is LF. */
  function ReplacementLines(replacement: string, hadTrailing: bool, following: bool): seq<string> {
    if replacement == "" then []
    else if !Ended(replacement) && (hadTrailing || following) then SplitLines(replacement + "\n")
    else SplitLines(replacement)
  }

  /** One line per row: closed, except the last when nothing asks for it and it is not blank. */
  function RowLines(rows: seq<string>, close: bool): (r: seq<string>)
    ensures |r| == |rows|
  {
    if rows == [] then []
    else if |rows| == 1 then [if close || rows[0] == "" then rows[0] + "\n" else rows[0]]
    else [rows[0] + "\n"] + RowLines(rows[1..], close)
  }

  predicate AllNoBreak(rows: seq<string>) { forall k :: 0 <= k < |rows| ==> NoBreak(rows[k]) }

  lemma ClosedText(row: string)
    requires NoBreak(row)
    ensures Closed(row + "\n") && Text(row + "\n") == row
  {
    FrontKept(row, '\n');
  }

  lemma OneMoreLine(line: string, rest: seq<string>)
    requires Closed(line) && FileLines(rest)
    ensures FileLines([line] + rest) && Texts([line] + rest) == [Text(line)] + Texts(rest)
  {
  }

  /** A row's line, alone at the end. */
  lemma LastRowLine(row: string, close: bool)
    requires NoBreak(row)
    ensures FileLines(RowLines([row], close)) && Texts(RowLines([row], close)) == [row]
    ensures close ==> Closed(RowLines([row], close)[0])
  {
    ClosedText(row);
    assert !(close || row == "") ==> !Ended(row);
  }

  lemma {:induction false} RowLinesAreFileLines(rows: seq<string>, close: bool)
    requires AllNoBreak(rows)
    ensures FileLines(RowLines(rows, close)) && Texts(RowLines(rows, close)) == rows
    ensures close ==> forall k :: 0 <= k < |rows| ==> Closed(RowLines(rows, close)[k])
    decreases |rows|
  {
    if rows == [] {
      assert Texts([]) == [];
    } else {
      FirstApart(rows);
      if |rows| == 1 {
        assert rows == [rows[0]];
        LastRowLine(rows[0], close);
      } else {
        RowLinesAreFileLines(rows[1..], close);
        ClosedText(rows[0]);
        OneMoreLine(rows[0] + "\n", RowLines(rows[1..], close));
      }
    }
  }

  function Tail(rows: seq<string>, close: bool): string
    requires rows != []
  {
    if close || rows[|rows| - 1] == "" then "\n" else ""
  }

  lemma {:induction false} RowsJoined(rows: seq<string>, close: bool)
    requires rows != []
    ensures Join(RowLines(rows, close)) == JoinRows(rows) + Tail(rows, close)
    decreases |rows|
  {
    var lines := RowLines(rows, close);
    if |rows| == 1 {
      assert Join(lines[1..]) == "";
      assert lines[0] == rows[0] + Tail(rows, close);
    } else {
      var rest := rows[1..];
      RowsJoined(rest, close);
      assert lines[1..] == RowLines(rest, close);
      assert Tail(rest, close) == Tail(rows, close);
      assert rows[0] + "\n" + (JoinRows(rest) + Tail(rest, close)) == (rows[0] + "\n" + JoinRows(rest)) + Tail(rest, close);
    }
  }

  lemma {:induction false} JoinedEnds(rows: seq<string>)
    requires rows != [] && AllNoBreak(rows) && rows[|rows| - 1] != ""
    ensures JoinRows(rows) != "" && !Ended(JoinRows(rows))
    decreases |rows|
  {
    if |rows| > 1 { JoinedEnds(rows[1..]); }
  }

  /** The replacement an edit's rows become has one line per row with exactly its text, blank rows
      included; its last line is closed unless it ends a file that had no final newline. */
  lemma ReplacementIsTheRows(rows: seq<string>, hadTrailing: bool, following: bool)
    requires AllNoBreak(rows)
    ensures var lines := ReplacementLines(ReplacementText(rows), hadTrailing, following);
      && lines == RowLines(rows, hadTrailing || following)
      && FileLines(lines) && Texts(lines) == rows
      && (hadTrailing || following ==> forall k :: 0 <= k < |lines| ==> Closed(lines[k]))
  {
    var close := hadTrailing || following;
    RowLinesAreFileLines(rows, close);
    if rows != [] {
      var text := ReplacementText(rows);
      RowsJoined(rows, close);
      ResplitIsStable(RowLines(rows, close));
      if rows[|rows| - 1] == "" {
        assert Ended(text);
      } else {
        JoinedEnds(rows);
        assert text == JoinRows(rows);
      }
    }
  }

  // ----- any replacement text

  predicate NoReturn(s: string) { forall k :: 0 <= k < |s| ==> s[k] != '\r' }

  /** The line texts a replacement stands for. */
  function RowsOf(replacement: string): seq<string> { Texts(ReplacementLines(replacement, true, true)) }

  lemma {:induction false} JoinEnds(lines: seq<string>)
    requires FileLines(lines) && lines != []
    ensures Join(lines) != "" && Ended(Join(lines)) == Closed(lines[|lines| - 1])
    decreases |lines|
  {
    if |lines| == 1 {
      assert lines[1..] == [];
      assert Join(lines) == lines[0] + "" == lines[0];
    } else {
      FileLinesTail(lines);
      JoinEnds(lines[1..]);
    }
  }

  lemma FileLinesTail(lines: seq<string>)
    requires FileLines(lines) && lines != []
    ensures FileLines(lines[1..])
  {
    forall k | 0 <= k < |lines| - 1 ensures lines[1..][k] == lines[k + 1] { }
  }

  lemma {:induction false} JoinAppend(lines: seq<string>, line: string)
    ensures Join(lines + [line]) == Join(lines) + line
    decreases |lines|
  {
    if lines == [] {
      assert [] + [line] == [line];
      assert [line][1..] == [];
      assert Join([line]) == line + "";
    } else {
      JoinAppend(lines[1..], line);
      assert (lines + [line])[1..] == lines[1..] + [line];
    }
  }

  /** Closing the open last line of a file changes no text. */
  lemma ClosingKeepsTexts(lines: seq<string>)
    requires FileLines(lines) && lines != [] && !Closed(lines[|lines| - 1])
    ensures var closed := SplitLines(Join(lines) + "\n");
      FileLines(closed) && Texts(closed) == Texts(lines) && forall k :: 0 <= k < |closed| ==> Closed(closed[k])
  {
    var n := |lines| - 1;
    var last := lines[n] + "\n";
    var closed := lines[..n] + [last];
    assert last[..|last| - 1] == lines[n];
    assert lines == lines[..n] + [lines[n]];
    JoinAppend(lines[..n], lines[n]);
    JoinAppend(lines[..n], last);
    assert Join(closed) == Join(lines) + "\n";
    ResplitIsStable(closed);
    assert !Ended(lines[n]);
  }

  /** However its last line ends, a replacement keeps its texts and the shape of file lines. */
  lemma ReplacementKeepsTexts(replacement: string, hadTrailing: bool, following: bool)
    requires NoReturn(replacement)
    ensures var lines := ReplacementLines(replacement, hadTrailing, following);
      && FileLines(lines) && Texts(lines) == RowsOf(replacement)
      && (hadTrailing || following ==> forall k :: 0 <= k < |lines| ==> Closed(lines[k]))
  {
    if replacement != "" {
      var lines := SplitLines(replacement);
      SplitIs(replacement);
      JoinEnds(lines);
      if !Ended(replacement) { ClosingKeepsTexts(lines); }
    }
  }
}
