/** Reading hashline input: printed rows come back as the same lines. */
module HashlineParse {
  import opened Common
  import opened Decimal
  import opened HashlineText

  datatype Row = Row(line: nat, text: string)

  datatype Parsed =
    | Edit(path: string, snapshot: string, start: nat, end: nat, replacement: string, expected: seq<Row>)
    | Insert(path: string, snapshot: string, anchor: nat, after: bool, rows: seq<string>)

  datatype Error =
    | InputEmpty | NoHeader | NoHunk | EndBeforeStart | NoPlusRow | NotAPlusRow | NotAnOldRow | NoOldRow | NotConsecutive

  datatype Result<+T> = Ok(value: T) | Err(error: Error)

  // ----- characters

  /** White space that does not end a line. */
  predicate IsSpace(c: char) {
    var n := c as int;
    n == 9 || n == 31 || n == 32 || n == 160 || n == 0x1680 || 0x2000 <= n <= 0x200a || n == 0x202f || n == 0x205f || n == 0x3000
  }

  function StripLeft(s: string): string {
    if s != "" && IsSpace(s[0]) then StripLeft(s[1..]) else s
  }

  function StripRight(s: string): string {
    if s != "" && IsSpace(s[|s| - 1]) then StripRight(s[..|s| - 1]) else s
  }

  function Strip(s: string): string { StripRight(StripLeft(s)) }

  function CountDigits(s: string): (r: nat)
    ensures r <= |s| && AllDigits(s[..r])
  {
    if s != "" && IsDigit(s[0]) then
      var r := CountDigits(s[1..]);
      assert s[..r + 1] == [s[0]] + s[1..][..r];
      r + 1
    else 0
  }

  function CountSpaces(s: string): (r: nat)
    ensures r <= |s|
  {
    if s != "" && IsSpace(s[0]) then 1 + CountSpaces(s[1..]) else 0
  }

  function UpperChar(c: char): char {
    if 'a' <= c <= 'z' then (c as int - 32) as char else c
  }

  /** `s` begins with `word`, letter case aside. */
  predicate Begins(s: string, word: string) {
    |word| <= |s| && forall k :: 0 <= k < |word| ==> UpperChar(s[k]) == word[k]
  }

  // ----- single lines

  /** The row pattern: digits, a colon, the text. */
  function ParseRow(line: string): Option<Row> {
    var d := CountDigits(line);
    if 0 < d < |line| && line[d] == ':' then Some(Row(Parse(line[..d]), line[d + 1..])) else None
  }

  /** The header pattern splits at the last `#` that leaves a snapshot id without brackets. */
  function SplitHeader(inner: string, at: nat): Option<(string, string)>
    requires at <= |inner|
  {
    if at == 0 then None
    else if inner[at - 1] == '#' && at - 1 > 0 && at < |inner| then
      if ']' in inner[at..] then None else Some((inner[..at - 1], inner[at..]))
    else SplitHeader(inner, at - 1)
  }

  function ParseHeader(stripped: string): Option<(string, string)> {
    if |stripped| >= 2 && stripped[0] == '[' && stripped[|stripped| - 1] == ']' then
      var inner := stripped[1..|stripped| - 1];
      SplitHeader(inner, |inner|)
    else None
  }

  /** After a directive's last number: a colon and nothing but space. */
  predicate ColonEnds(s: string) { s != "" && s[0] == ':' && CountSpaces(s[1..]) == |s| - 1 }

  /** A line number, a range end if there is one, and the colon. */
  function ParseRange(s: string): Option<(nat, Option<nat>)> {
    var d := CountDigits(s);
    if d == 0 then None
    else if d < |s| && s[d] == '-' then
      var s2 := s[d + 1..];
      var e := CountDigits(s2);
      if e > 0 && ColonEnds(s2[e..]) then Some((Parse(s[..d]), Some(Parse(s2[..e])))) else None
    else if ColonEnds(s[d..]) then Some((Parse(s[..d]), None))
    else None
  }

  function ParseSwap(s: string): Option<(nat, Option<nat>)> {
    if !Begins(s, "SWAP") then None
    else
      var spaces := CountSpaces(s[4..]);
      if spaces == 0 then None else ParseRange(s[4..][spaces..])
  }

  /** The anchor of an INSERT, after white space. */
  function ParseAnchor(s: string): Option<nat> {
    var spaces := CountSpaces(s);
    var s1 := s[spaces..];
    var d := CountDigits(s1);
    if spaces > 0 && d > 0 && ColonEnds(s1[d..]) then Some(Parse(s1[..d])) else None
  }

  /** What follows INSERT: where, when it is said, and the anchor. */
  function ParsePlace(s: string): Option<(nat, bool)> {
    var spaces := CountSpaces(s);
    var s1 := s[spaces..];
    var after := spaces > 0 && Begins(s1, "AFTER");
    var anchor :=
      if spaces > 0 && Begins(s1, "BEFORE") then ParseAnchor(s1[6..])
      else if after then ParseAnchor(s1[5..])
      else ParseAnchor(s);
    if anchor.Some? then Some((anchor.value, after)) else None
  }

  function ParseInsert(s: string): Option<(nat, bool)> {
    if Begins(s, "INSERT") then ParsePlace(s[6..]) else None
  }

  // ----- one hunk

  predicate IsPlus(line: string) { line != "" && line[0] == '+' }

  function PlusRows(lines: seq<string>): Result<seq<string>> {
    if lines == [] then Ok([])
    else if !IsPlus(lines[0]) then Err(NotAPlusRow)
    else
      var rest := PlusRows(lines[1..]);
      if rest.Err? then rest else Ok([lines[0][1..]] + rest.value)
  }

  /** The old rows before the first plus row, and what follows them. */
  function OldRows(body: seq<string>): Result<(seq<Row>, seq<string>)> {
    if body == [] || IsPlus(body[0]) then Ok(([], body))
    else
      var row := ParseRow(body[0]);
      if row.None? then Err(NotAnOldRow)
      else
        var rest := OldRows(body[1..]);
        if rest.Err? then rest else Ok(([row.value] + rest.value.0, rest.value.1))
  }

  predicate Consecutive(rows: seq<Row>) {
    forall k :: 0 <= k < |rows| ==> rows[k].line == rows[0].line + k
  }

  function ParseHunk(path: string, snapshot: string, body: seq<string>): Result<Parsed> {
    if body == [] then Err(NoHunk)
    else
      var directive := Strip(body[0]);
      if ParseSwap(directive).Some? then ParseSwapHunk(path, snapshot, ParseSwap(directive).value, body[1..])
      else if ParseInsert(directive).Some? then ParseInsertHunk(path, snapshot, ParseInsert(directive).value, body[1..])
      else ParseCopied(path, snapshot, body)
  }

  function ParseSwapHunk(path: string, snapshot: string, range: (nat, Option<nat>), after: seq<string>): Result<Parsed> {
    var end := if range.1.Some? then range.1.value else range.0;
    if end < range.0 then Err(EndBeforeStart)
    else
      var rows := PlusRows(after);
      if rows.Err? then Err(rows.error) else Ok(Edit(path, snapshot, range.0, end, ReplacementText(rows.value), []))
  }

  function ParseInsertHunk(path: string, snapshot: string, place: (nat, bool), after: seq<string>): Result<Parsed> {
    if after == [] then Err(NoPlusRow)
    else
      var rows := PlusRows(after);
      if rows.Err? then Err(rows.error) else Ok(Insert(path, snapshot, place.0, place.1, rows.value))
  }

  function ParseCopied(path: string, snapshot: string, body: seq<string>): Result<Parsed> {
    var copied := OldRows(body);
    if copied.Err? then Err(copied.error)
    else if copied.value.0 == [] then Err(NoOldRow)
    else if !Consecutive(copied.value.0) then Err(NotConsecutive)
    else
      var olds := copied.value.0;
      var rows := PlusRows(copied.value.1);
      if rows.Err? then Err(rows.error)
      else Ok(Edit(path, snapshot, olds[0].line, olds[|olds| - 1].line, ReplacementText(rows.value), olds))
  }

  // ----- the whole input

  /** What the line loop carries: the current header, the hunk being collected, the hunks read. */
  datatype State = State(header: Option<(string, string)>, body: seq<string>, ops: seq<Parsed>)

  function Flush(s: State): Result<State> {
    if s.header.None? then (if s.body != [] then Err(NoHeader) else Ok(s))
    else if s.body == [] then Ok(s)
    else
      var op := ParseHunk(s.header.value.0, s.header.value.1, s.body);
      if op.Err? then Err(op.error) else Ok(State(s.header, [], s.ops + [op.value]))
  }

  function Feed(s: State, line: string): Result<State> {
    var stripped := Strip(line);
    var header := ParseHeader(stripped);
    if header.Some? then
      var flushed := Flush(s);
      if flushed.Err? then flushed else Ok(flushed.value.(header := header))
    else if s.header.None? then Err(NoHeader)
    else if stripped == "" then Flush(s)
    else Ok(s.(body := s.body + [line]))
  }

  function FeedAll(s: State, lines: seq<string>): Result<State>
    decreases |lines|
  {
    if lines == [] then Ok(s)
    else
      var next := Feed(s, lines[0]);
      if next.Err? then next else FeedAll(next.value, lines[1..])
  }

  function DropBlankStart(lines: seq<string>): seq<string> {
    if lines != [] && Strip(lines[0]) == "" then DropBlankStart(lines[1..]) else lines
  }

  function DropBlankEnd(lines: seq<string>): seq<string> {
    if lines != [] && Strip(lines[|lines| - 1]) == "" then DropBlankEnd(lines[..|lines| - 1]) else lines
  }

  /** The parser from the input's lines, without their ends, on. */
  function ParseInput(input: seq<string>): Result<seq<Parsed>> {
    var lines := DropBlankEnd(DropBlankStart(input));
    if lines == [] then Err(InputEmpty)
    else
      var read := FeedAll(START, lines);
      if read.Err? then Err(read.error)
      else
        var done := Flush(read.value);
        if done.Err? then Err(done.error)
        else if done.value.ops == [] then Err(NoHunk)
        else Ok(done.value.ops)
  }

  /** `parse_hashline_edit_input`. */
  function ParseText(text: string): Result<seq<Parsed>> { ParseInput(Texts(SplitLines(text))) }

  // ----- printing

  function PrintRow(r: Row): string { Show(r.line) + ":" + r.text }

  function PrintHeader(path: string, snapshot: string): string { "[" + path + "#" + snapshot + "]" }

  /** `_numbered_content` with a header, as lines. */
  function PrintRows(rows: seq<Row>): (r: seq<string>)
    ensures |r| == |rows|
  {
    if rows == [] then [] else [PrintRow(rows[0])] + PrintRows(rows[1..])
  }

  function PrintPlus(rows: seq<string>): (r: seq<string>)
    ensures |r| == |rows|
  {
    if rows == [] then [] else ["+" + rows[0]] + PrintPlus(rows[1..])
  }

  /** One edit as a caller writes it: copied rows, or a directive, and plus rows. */
  datatype Written =
    | Copied(olds: seq<Row>, rows: seq<string>)
    | Swap(start: nat, end: nat, rows: seq<string>)
    | InsertAt(anchor: nat, after: bool, rows: seq<string>)

  datatype Block = Block(path: string, snapshot: string, edit: Written)

  function PrintEdit(w: Written): seq<string> {
    match w
    case Copied(olds, rows) => PrintRows(olds) + PrintPlus(rows)
    case Swap(start, end, rows) => ["SWAP " + Show(start) + "-" + Show(end) + ":"] + PrintPlus(rows)
    case InsertAt(anchor, after, rows) =>
      [(if after then "INSERT AFTER " else "INSERT BEFORE ") + Show(anchor) + ":"] + PrintPlus(rows)
  }

  function PrintBlock(b: Block): seq<string> {
    [PrintHeader(b.path, b.snapshot)] + PrintEdit(b.edit)
  }

  function Print(blocks: seq<Block>): seq<string> {
    if blocks == [] then [] else Print(blocks[..|blocks| - 1]) + PrintBlock(blocks[|blocks| - 1])
  }

  function Meant(b: Block): Parsed {
    match b.edit
    case Copied(olds, rows) =>
      if olds == [] then Edit(b.path, b.snapshot, 0, 0, "", [])
      else Edit(b.path, b.snapshot, olds[0].line, olds[|olds| - 1].line, ReplacementText(rows), olds)
    case Swap(start, end, rows) => Edit(b.path, b.snapshot, start, end, ReplacementText(rows), [])
    case InsertAt(anchor, after, rows) => Insert(b.path, b.snapshot, anchor, after, rows)
  }

  function AllMeant(blocks: seq<Block>): (r: seq<Parsed>)
    ensures |r| == |blocks|
  {
    if blocks == [] then [] else AllMeant(blocks[..|blocks| - 1]) + [Meant(blocks[|blocks| - 1])]
  }

  /** What can be written: a path, a snapshot id without `#` or `]`, and a possible edit. */
  predicate Writable(b: Block) {
    && b.path != "" && b.snapshot != "" && '#' !in b.snapshot && ']' !in b.snapshot
    && match b.edit
       case Copied(olds, rows) => olds != [] && Consecutive(olds)
       case Swap(start, end, rows) => start <= end
       case InsertAt(anchor, after, rows) => rows != []
  }

  /** No part of the edit holds a line break. */
  predicate Unbroken(b: Block) {
    && NoBreak(b.path) && NoBreak(b.snapshot) && AllNoBreak(b.edit.rows)
    && (b.edit.Copied? ==> forall k :: 0 <= k < |b.edit.olds| ==> NoBreak(b.edit.olds[k].text))
  }

  predicate AllWritable(blocks: seq<Block>) { forall k :: 0 <= k < |blocks| ==> Writable(blocks[k]) }

  predicate AllUnbroken(blocks: seq<Block>) { forall k :: 0 <= k < |blocks| ==> Unbroken(blocks[k]) }

  // ----- the pieces read back

  lemma {:induction false} DigitsCounted(digits: string, rest: string)
    requires AllDigits(digits) && (rest == "" || !IsDigit(rest[0]))
    ensures CountDigits(digits + rest) == |digits|
    decreases |digits|
  {
    if digits == "" {
      assert digits + rest == rest;
    } else {
      assert (digits + rest)[1..] == digits[1..] + rest;
      DigitsCounted(digits[1..], rest);
    }
  }

  /** A printed number followed by something else reads as that number. */
  lemma NumberReadBack(n: nat, rest: string)
    requires rest == "" || !IsDigit(rest[0])
    ensures var d := CountDigits(Show(n) + rest);
      && d == |Show(n)| > 0 && (Show(n) + rest)[..d] == Show(n) && (Show(n) + rest)[d..] == rest
      && Parse(Show(n)) == n
  {
    DigitsCounted(Show(n), rest);
    ParseShow(n);
  }

  lemma RowReadBack(r: Row)
    ensures ParseRow(PrintRow(r)) == Some(r)
    ensures IsDigit(PrintRow(r)[0])
  {
    var rest := ":" + r.text;
    assert PrintRow(r) == Show(r.line) + rest;
    NumberReadBack(r.line, rest);
    var d := |Show(r.line)|;
    assert PrintRow(r)[d] == ':' && PrintRow(r)[d + 1..] == rest[1..] == r.text;
  }

  lemma {:induction false} StripKeeps(s: string)
    requires s != "" && !IsSpace(s[0])
    ensures Strip(s) != "" && Strip(s)[0] == s[0]
    ensures !IsSpace(s[|s| - 1]) ==> Strip(s) == s
  {
    StripRightKeeps(s);
  }

  lemma {:induction false} StripRightKeeps(s: string)
    requires s != "" && !IsSpace(s[0])
    ensures StripRight(s) != "" && StripRight(s)[0] == s[0]
    decreases |s|
  {
    if IsSpace(s[|s| - 1]) { StripRightKeeps(s[..|s| - 1]); }
  }

  lemma {:induction false} HeaderSplits(path: string, snapshot: string, at: nat)
    requires path != "" && '#' !in snapshot && ']' !in snapshot && snapshot != ""
    requires |path| + 1 <= at <= |path| + 1 + |snapshot|
    ensures SplitHeader(path + "#" + snapshot, at) == Some((path, snapshot))
    decreases at
  {
    var inner := path + "#" + snapshot;
    if at == |path| + 1 {
      assert inner[..at - 1] == path && inner[at..] == snapshot;
    } else {
      assert inner[at - 1] == snapshot[at - 2 - |path|];
      HeaderSplits(path, snapshot, at - 1);
    }
  }

  lemma HeaderReadBack(path: string, snapshot: string)
    requires path != "" && '#' !in snapshot && ']' !in snapshot && snapshot != ""
    ensures ParseHeader(Strip(PrintHeader(path, snapshot))) == Some((path, snapshot))
  {
    var s, inner := PrintHeader(path, snapshot), path + "#" + snapshot;
    assert s == "[" + inner + "]";
    StripKeeps(s);
    assert s[1..|s| - 1] == inner;
    HeaderSplits(path, snapshot, |inner|);
  }

  lemma {:induction false} PlusReadBack(rows: seq<string>)
    ensures PlusRows(PrintPlus(rows)) == Ok(rows)
    decreases |rows|
  {
    if rows != [] {
      PlusReadBack(rows[1..]);
      FirstPrinted(rows[0], PrintPlus(rows[1..]));
      FirstApart(rows);
    }
  }

  lemma FirstPrinted(row: string, rest: seq<string>)
    ensures var s := ["+" + row] + rest;
      s != [] && IsPlus(s[0]) && s[0][1..] == row && s[1..] == rest
  {
  }

  lemma {:induction false} OldRowsReadBack(olds: seq<Row>, rows: seq<string>)
    ensures OldRows(PrintRows(olds) + PrintPlus(rows)) == Ok((olds, PrintPlus(rows)))
    decreases |olds|
  {
    var body := PrintRows(olds) + PrintPlus(rows);
    if olds == [] {
      assert body == PrintPlus(rows);
    } else {
      RowReadBack(olds[0]);
      assert body[0] == PrintRow(olds[0]) && body[1..] == PrintRows(olds[1..]) + PrintPlus(rows);
      OldRowsReadBack(olds[1..], rows);
      assert olds == [olds[0]] + olds[1..];
    }
  }

  lemma RangeReadBack(start: nat, end: nat)
    ensures ParseRange(Show(start) + ("-" + (Show(end) + ":"))) == Some((start, Some(end)))
  {
    var s2 := Show(end) + ":";
    NumberReadBack(start, "-" + s2);
    DashBehind(Show(start), s2);
    NumberReadBack(end, ":");
    assert ColonEnds(":");
  }

  lemma DashBehind(a: string, b: string)
    ensures var s := a + ("-" + b); s[|a|] == '-' && s[|a| + 1..] == b
  {
  }

  lemma OneSpace(s: string)
    requires s != "" && !IsSpace(s[0])
    ensures CountSpaces(" " + s) == 1 && (" " + s)[1..] == s
  {
    assert (" " + s)[1..] == s;
  }

  lemma DirectiveKeepsItsText(line: string)
    requires |line| > 1 && IsLetter(line[0]) && line[|line| - 1] == ':'
    ensures Strip(line) == line
  {
    StripKeeps(line);
  }

  predicate IsLetter(c: char) { 'A' <= c <= 'Z' }

  lemma SwapOfRange(line: string, range: string)
    requires Begins(line, "SWAP") && line[4..] == " " + range
    requires range != "" && !IsSpace(range[0])
    ensures ParseSwap(line) == ParseRange(range)
  {
    OneSpace(range);
  }

  lemma SwapText(start: string, end: string)
    ensures "SWAP " + start + "-" + end + ":" == "SWAP" + (" " + (start + ("-" + (end + ":"))))
  {
  }

  lemma SwapReadBack(start: nat, end: nat)
    ensures var line := "SWAP " + Show(start) + "-" + Show(end) + ":";
      Strip(line) == line && ParseSwap(line) == Some((start, Some(end)))
  {
    var range := Show(start) + ("-" + (Show(end) + ":"));
    var line := "SWAP " + Show(start) + "-" + Show(end) + ":";
    SwapText(Show(start), Show(end));
    WordFirst("SWAP", " " + range);
    SwapOfRange(line, range);
    RangeReadBack(start, end);
    DirectiveKeepsItsText(line);
  }

  lemma WordFirst(word: string, rest: string)
    requires forall k :: 0 <= k < |word| ==> IsLetter(word[k])
    ensures Begins(word + rest, word) && (word + rest)[|word|..] == rest
  {
  }

  lemma AnchorReadBack(anchor: nat)
    ensures ParseAnchor(" " + (Show(anchor) + ":")) == Some(anchor)
  {
    var s1 := Show(anchor) + ":";
    assert IsDigit(s1[0]);
    OneSpace(s1);
    NumberReadBack(anchor, ":");
    assert ColonEnds(":");
  }

  lemma PlaceAfterWord(word: string, tail: string)
    requires word in {"AFTER", "BEFORE"}
    ensures ParsePlace(" " + (word + tail))
      == (if ParseAnchor(tail).Some? then Some((ParseAnchor(tail).value, word == "AFTER")) else None)
  {
    OneSpace(word + tail);
    WordFirst(word, tail);
    assert (word + tail)[0] == word[0];
  }

  lemma PlaceReadBack(anchor: nat, after: bool)
    ensures ParsePlace(" " + ((if after then "AFTER" else "BEFORE") + (" " + (Show(anchor) + ":")))) == Some((anchor, after))
  {
    PlaceAfterWord(if after then "AFTER" else "BEFORE", " " + (Show(anchor) + ":"));
    AnchorReadBack(anchor);
  }

  lemma InsertReadBack(anchor: nat, after: bool)
    ensures var line := (if after then "INSERT AFTER " else "INSERT BEFORE ") + Show(anchor) + ":";
      Strip(line) == line && ParseSwap(line) == None && ParseInsert(line) == Some((anchor, after))
  {
    var line := (if after then "INSERT AFTER " else "INSERT BEFORE ") + Show(anchor) + ":";
    var rest := " " + ((if after then "AFTER" else "BEFORE") + (" " + (Show(anchor) + ":")));
    assert line == "INSERT" + rest;
    WordFirst("INSERT", rest);
    PlaceReadBack(anchor, after);
    DirectiveKeepsItsText(line);
    NotASwap(line);
  }

  lemma NotASwap(line: string)
    requires line != "" && UpperChar(line[0]) != 'S'
    ensures ParseSwap(line) == None
  {
  }

  lemma RowIsNoDirective(line: string)
    requires line != "" && IsDigit(line[0])
    ensures ParseSwap(Strip(line)) == None && ParseInsert(Strip(line)) == None
  {
    StripKeeps(line);
    NotASwap(Strip(line));
  }

  lemma CopiedReadBack(path: string, snapshot: string, olds: seq<Row>, rows: seq<string>)
    requires olds != [] && Consecutive(olds)
    ensures ParseCopied(path, snapshot, PrintRows(olds) + PrintPlus(rows))
      == Ok(Edit(path, snapshot, olds[0].line, olds[|olds| - 1].line, ReplacementText(rows), olds))
  {
    OldRowsReadBack(olds, rows);
    PlusReadBack(rows);
  }

  /** One printed edit parses to what it means. */
  lemma EditReadBack(b: Block)
    requires Writable(b)
    ensures PrintEdit(b.edit) != [] && ParseHunk(b.path, b.snapshot, PrintEdit(b.edit)) == Ok(Meant(b))
  {
    var body := PrintEdit(b.edit);
    match b.edit
    case Copied(olds, rows) =>
      assert body[0] == PrintRow(olds[0]);
      RowReadBack(olds[0]);
      RowIsNoDirective(body[0]);
      CopiedReadBack(b.path, b.snapshot, olds, rows);
    case Swap(start, end, rows) =>
      SwapReadBack(start, end);
      assert body[1..] == PrintPlus(rows);
      PlusReadBack(rows);
    case InsertAt(anchor, after, rows) =>
      InsertReadBack(anchor, after);
      assert body[1..] == PrintPlus(rows);
      PlusReadBack(rows);
  }

  // ----- the whole input reads back

  /** A line of an edit: not blank and not a header. */
  predicate BodyLine(line: string) { line != "" && !IsSpace(line[0]) && line[0] != '[' }

  lemma {:induction false} RowsAreBodyLines(olds: seq<Row>)
    ensures forall k :: 0 <= k < |olds| ==> BodyLine(PrintRows(olds)[k])
    decreases |olds|
  {
    if olds != [] {
      RowsAreBodyLines(olds[1..]);
      RowReadBack(olds[0]);
    }
  }

  lemma {:induction false} PlusAreBodyLines(rows: seq<string>)
    ensures forall k :: 0 <= k < |rows| ==> BodyLine(PrintPlus(rows)[k])
    decreases |rows|
  {
    if rows != [] { PlusAreBodyLines(rows[1..]); }
  }

  lemma EditsAreBodyLines(w: Written)
    ensures forall k :: 0 <= k < |PrintEdit(w)| ==> BodyLine(PrintEdit(w)[k])
  {
    PlusAreBodyLines(w.rows);
    if w.Copied? { RowsAreBodyLines(w.olds); }
  }

  lemma BodyLineFed(s: State, line: string)
    requires s.header.Some? && BodyLine(line)
    ensures Feed(s, line) == Ok(s.(body := s.body + [line]))
  {
    StripKeeps(line);
  }

  lemma {:induction false} BodyCollected(s: State, lines: seq<string>, done: State)
    requires s.header.Some? && forall k :: 0 <= k < |lines| ==> BodyLine(lines[k])
    requires done == s.(body := s.body + lines)
    ensures FeedAll(s, lines) == Ok(done)
    decreases |lines|
  {
    if lines == [] {
      assert s.body + [] == s.body;
    } else {
      BodyLineFed(s, lines[0]);
      assert s.body + [lines[0]] + lines[1..] == s.body + lines;
      BodyCollected(s.(body := s.body + [lines[0]]), lines[1..], done);
    }
  }

  lemma {:induction false} FeedAllConcat(s: State, a: seq<string>, b: seq<string>)
    ensures FeedAll(s, a + b) == (if FeedAll(s, a).Ok? then FeedAll(FeedAll(s, a).value, b) else FeedAll(s, a))
    decreases |a|
  {
    if a == [] {
      assert a + b == b;
    } else {
      assert (a + b)[1..] == a[1..] + b;
      var next := Feed(s, a[0]);
      if next.Ok? { FeedAllConcat(next.value, a[1..], b); }
    }
  }

  /** The loop's state once a block has been read: its edit collected, not yet a hunk. */
  function Read(b: Block, ops: seq<Parsed>): State {
    State(Some((b.path, b.snapshot)), PrintEdit(b.edit), ops)
  }

  lemma FlushRead(b: Block, ops: seq<Parsed>)
    requires Writable(b)
    ensures Flush(Read(b, ops)) == Ok(State(Some((b.path, b.snapshot)), [], ops + [Meant(b)]))
  {
    EditReadBack(b);
  }

  /** A block after a state that flushes: the header flushes, the edit is collected. */
  lemma BlockRead(s: State, c: Block)
    requires Writable(c) && Flush(s).Ok? && Flush(s).value.body == []
    ensures FeedAll(s, PrintBlock(c)) == Ok(Read(c, Flush(s).value.ops))
  {
    var header := PrintHeader(c.path, c.snapshot);
    HeaderReadBack(c.path, c.snapshot);
    var next := State(Some((c.path, c.snapshot)), [], Flush(s).value.ops);
    assert Feed(s, header) == Ok(next);
    assert PrintBlock(c)[1..] == PrintEdit(c.edit);
    EditsAreBodyLines(c.edit);
    assert [] + PrintEdit(c.edit) == PrintEdit(c.edit);
    BodyCollected(next, PrintEdit(c.edit), next.(body := PrintEdit(c.edit)));
  }

  const START := State(None, [], [])

  lemma OneMoreBlock(before: seq<string>, mid: State, lines: seq<string>, done: State)
    requires FeedAll(START, before) == Ok(mid) && FeedAll(mid, lines) == Ok(done)
    ensures FeedAll(START, before + lines) == Ok(done)
  {
    FeedAllConcat(START, before, lines);
  }

  lemma PrintStep(init: seq<Block>, c: Block)
    ensures Print(init + [c]) == Print(init) + PrintBlock(c)
    ensures AllMeant(init + [c]) == AllMeant(init) + [Meant(c)]
  {
    FrontKept(init, c);
  }

  /** A block read after another one flushes it. */
  lemma BlockAfterBlock(b: Block, ops: seq<Parsed>, c: Block)
    requires Writable(b) && Writable(c)
    ensures FeedAll(Read(b, ops), PrintBlock(c)) == Ok(Read(c, ops + [Meant(b)]))
  {
    FlushRead(b, ops);
    BlockRead(Read(b, ops), c);
  }

  /** Reading all blocks leaves the last one collected and the hunks meant by the others. */
  lemma {:induction false} BlocksReadBack(init: seq<Block>, c: Block)
    requires Writable(c) && AllWritable(init)
    ensures FeedAll(START, Print(init + [c])) == Ok(Read(c, AllMeant(init)))
    decreases |init|
  {
    PrintStep(init, c);
    if init == [] {
      BlockRead(START, c);
      assert [] + PrintBlock(c) == PrintBlock(c);
    } else {
      var rest, b := init[..|init| - 1], init[|init| - 1];
      LastApart(init);
      BlocksReadBack(rest, b);
      PrintStep(rest, b);
      BlockAfterBlock(b, AllMeant(rest), c);
      OneMoreBlock(Print(init), Read(b, AllMeant(rest)), PrintBlock(c), Read(c, AllMeant(init)));
    }
  }

  lemma ReadToTheEnd(lines: seq<string>, c: Block, ops: seq<Parsed>)
    requires lines != [] && Strip(lines[0]) != "" && Strip(lines[|lines| - 1]) != ""
    requires Writable(c) && FeedAll(START, lines) == Ok(Read(c, ops))
    ensures ParseInput(lines) == Ok(ops + [Meant(c)])
  {
    NothingDropped(lines);
    FlushRead(c, ops);
  }

  lemma AppendedReadBack(init: seq<Block>, c: Block, lines: seq<string>)
    requires Writable(c) && AllWritable(init)
    requires lines == Print(init + [c])
    requires lines != [] && Strip(lines[0]) != "" && Strip(lines[|lines| - 1]) != ""
    ensures ParseInput(lines) == Ok(AllMeant(init + [c]))
  {
    PrintStep(init, c);
    BlocksReadBack(init, c);
    ReadToTheEnd(lines, c, AllMeant(init));
  }

  lemma PrintedLinesReadBack(blocks: seq<Block>, init: seq<Block>, c: Block)
    requires blocks == init + [c] && Writable(c) && AllWritable(init)
    ensures ParseInput(Print(blocks)) == Ok(AllMeant(blocks))
  {
    NoBlankEnds(init, c);
    AppendedReadBack(init, c, Print(blocks));
  }

  lemma ShownHasNoBreak(n: nat)
    ensures NoBreak(Show(n))
  {
    assert forall k :: 0 <= k < |Show(n)| ==> IsDigit(Show(n)[k]);
  }

  lemma {:induction false} RowsHaveNoBreak(olds: seq<Row>)
    requires forall k :: 0 <= k < |olds| ==> NoBreak(olds[k].text)
    ensures AllNoBreak(PrintRows(olds))
    decreases |olds|
  {
    if olds != [] {
      RowsHaveNoBreak(olds[1..]);
      ShownHasNoBreak(olds[0].line);
    }
  }

  lemma {:induction false} PlusHaveNoBreak(rows: seq<string>)
    requires AllNoBreak(rows)
    ensures AllNoBreak(PrintPlus(rows))
    decreases |rows|
  {
    if rows != [] { PlusHaveNoBreak(rows[1..]); }
  }

  lemma DirectiveHasNoBreak(w: Written)
    requires !w.Copied?
    ensures NoBreak(PrintEdit(w)[0])
  {
    match w
    case Swap(start, end, _) =>
      ShownHasNoBreak(start);
      ShownHasNoBreak(end);
    case InsertAt(anchor, _, _) => ShownHasNoBreak(anchor);
  }

  lemma EditHasNoBreak(w: Written)
    requires AllNoBreak(w.rows)
    requires w.Copied? ==> forall k :: 0 <= k < |w.olds| ==> NoBreak(w.olds[k].text)
    ensures AllNoBreak(PrintEdit(w))
  {
    PlusHaveNoBreak(w.rows);
    if w.Copied? { RowsHaveNoBreak(w.olds); } else { DirectiveHasNoBreak(w); }
  }

  lemma {:induction false} PrintedHasNoBreak(blocks: seq<Block>)
    requires AllUnbroken(blocks)
    ensures AllNoBreak(Print(blocks))
    decreases |blocks|
  {
    if blocks != [] {
      var n := |blocks| - 1;
      PrintedHasNoBreak(blocks[..n]);
      EditHasNoBreak(blocks[n].edit);
      assert NoBreak(PrintHeader(blocks[n].path, blocks[n].snapshot));
    }
  }

  /** Lines without breaks, the last one not blank, joined by newlines and split again. */
  lemma JoinedLinesSplit(lines: seq<string>)
    requires AllNoBreak(lines) && lines != [] && lines[|lines| - 1] != ""
    ensures Texts(SplitLines(JoinRows(lines))) == lines
  {
    JoinedEnds(lines);
    PlainReplacement(lines);
    ReplacementIsTheRows(lines, false, false);
  }

  lemma PlainReplacement(rows: seq<string>)
    requires rows != [] && rows[|rows| - 1] != "" && JoinRows(rows) != ""
    ensures ReplacementLines(ReplacementText(rows), false, false) == SplitLines(JoinRows(rows))
  {
    assert ReplacementText(rows) == JoinRows(rows) + "" == JoinRows(rows);
  }

  /** Whatever edits are written in the printed form, one line after the other, parse to exactly those
      edits: paths, snapshot ids, line numbers, old texts and new rows, in order. */
  lemma PrintedInputReadsBack(blocks: seq<Block>)
    requires blocks != [] && AllWritable(blocks) && AllUnbroken(blocks)
    ensures ParseText(JoinRows(Print(blocks))) == Ok(AllMeant(blocks))
  {
    LastApart(blocks);
    FrontWritable(blocks);
    PrintedHasNoBreak(blocks);
    AppendedInputReadsBack(blocks, blocks[..|blocks| - 1], blocks[|blocks| - 1]);
  }

  lemma FrontWritable(blocks: seq<Block>)
    requires blocks != [] && AllWritable(blocks)
    ensures AllWritable(blocks[..|blocks| - 1]) && Writable(blocks[|blocks| - 1])
  {
  }

  lemma AppendedInputReadsBack(blocks: seq<Block>, init: seq<Block>, c: Block)
    requires blocks == init + [c] && Writable(c) && AllWritable(init)
    requires AllNoBreak(Print(blocks))
    ensures ParseText(JoinRows(Print(blocks))) == Ok(AllMeant(blocks))
  {
    NoBlankEnds(init, c);
    PrintedLinesReadBack(blocks, init, c);
    JoinedLinesSplit(Print(blocks));
  }

  lemma NothingDropped(lines: seq<string>)
    requires lines != [] && Strip(lines[0]) != "" && Strip(lines[|lines| - 1]) != ""
    ensures DropBlankEnd(DropBlankStart(lines)) == lines
  {
  }

  lemma NoBlankEnds(init: seq<Block>, c: Block)
    requires Writable(c)
    ensures var lines := Print(init + [c]);
      && lines != [] && Strip(lines[0]) != "" && Strip(lines[|lines| - 1]) != ""
      && lines[|lines| - 1] != ""
  {
    var body := PrintEdit(c.edit);
    PrintStep(init, c);
    StartsWithHeader(init + [c]);
    EditsAreBodyLines(c.edit);
    EditReadBack(c);
    LastOfBlock(Print(init), PrintHeader(c.path, c.snapshot), body);
    StripKeeps(body[|body| - 1]);
  }

  lemma LastOfBlock(before: seq<string>, header: string, body: seq<string>)
    requires body != []
    ensures var lines := before + ([header] + body); lines[|lines| - 1] == body[|body| - 1]
  {
  }

  lemma {:induction false} StartsWithHeader(blocks: seq<Block>)
    requires blocks != []
    ensures Print(blocks) != [] && Strip(Print(blocks)[0]) != ""
    decreases |blocks|
  {
    var n := |blocks| - 1;
    if n == 0 {
      StripKeeps(PrintHeader(blocks[0].path, blocks[0].snapshot));
      assert Print(blocks)[0] == PrintHeader(blocks[0].path, blocks[0].snapshot);
    } else {
      StartsWithHeader(blocks[..n]);
    }
  }

  // ----- the loops

  /** The result of the line loop and its final flush. */
  function Finished(read: Result<State>): Result<seq<Parsed>> {
    if read.Err? then Err(read.error)
    else
      var done := Flush(read.value);
      if done.Err? then Err(done.error)
      else if done.value.ops == [] then Err(NoHunk)
      else Ok(done.value.ops)
  }

  method ReadLines(lines: seq<string>) returns (ops: Result<seq<Parsed>>)
    ensures ops == Finished(FeedAll(START, lines))
  {
    var state := START;
    var k := 0;
    assert lines[0..] == lines;
    while k < |lines|
      invariant 0 <= k <= |lines|
      invariant FeedAll(state, lines[k..]) == FeedAll(START, lines)
    {
      var line := lines[k];
      assert lines[k..][1..] == lines[k + 1..];
      var stripped := Strip(line);
      var header := ParseHeader(stripped);
      if header.Some? {
        var flushed := Flush(state);
        if flushed.Err? { return Err(flushed.error); }
        state := flushed.value.(header := header);
      } else if state.header.None? {
        return Err(NoHeader);
      } else if stripped == "" {
        var flushed := Flush(state);
        if flushed.Err? { return Err(flushed.error); }
        state := flushed.value;
      } else {
        state := state.(body := state.body + [line]);
      }
      k := k + 1;
    }
    var done := Flush(state);
    if done.Err? { return Err(done.error); }
    if done.value.ops == [] { return Err(NoHunk); }
    ops := Ok(done.value.ops);
  }

  /** `parse_hashline_edit_input`, loops and all. */
  method ParseHashlineInput(inputText: string) returns (ops: Result<seq<Parsed>>)
    ensures ops == ParseText(inputText)
  {
    var input := Texts(SplitLines(inputText));
    var lines := input;
    while lines != [] && Strip(lines[0]) == ""
      invariant DropBlankStart(lines) == DropBlankStart(input)
      decreases |lines|
    {
      lines := lines[1..];
    }
    while lines != [] && Strip(lines[|lines| - 1]) == ""
      invariant DropBlankEnd(lines) == DropBlankEnd(DropBlankStart(input))
      decreases |lines|
    {
      lines := lines[..|lines| - 1];
    }
    if lines == [] { return Err(InputEmpty); }
    ops := ReadLines(lines);
  }
}
