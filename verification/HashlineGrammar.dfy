/** The parser accepts exactly the hashline grammar: each line form and each hunk, written out as concatenations. */
module HashlineGrammar {
  import opened Common
  import opened Decimal
  import opened HashlineText
  import opened HashlineParse

  predicate AllSpace(s: string) { forall i :: 0 <= i < |s| ==> IsSpace(s[i]) }

  predicate Number(s: string, n: nat) { s != "" && AllDigits(s) && Parse(s) == n }

  /** A colon and nothing but white space. */
  predicate Ends(s: string) { s != "" && s[0] == ':' && AllSpace(s[1..]) }

  /** A letter of the word at each place, in either case. */
  predicate IsWord(s: string, word: string) { |s| == |word| && Begins(s, word) }

  // ----- counting

  lemma {:induction false} DigitsEnd(s: string)
    ensures CountDigits(s) < |s| ==> !IsDigit(s[CountDigits(s)])
  {
    if s != "" && IsDigit(s[0]) { DigitsEnd(s[1..]); }
  }

  lemma {:induction false} SpacesEnd(s: string)
    ensures AllSpace(s[..CountSpaces(s)])
    ensures CountSpaces(s) < |s| ==> !IsSpace(s[CountSpaces(s)])
  {
    if s != "" && IsSpace(s[0]) {
      SpacesEnd(s[1..]);
      assert forall i :: 0 < i < CountSpaces(s) ==> s[..CountSpaces(s)][i] == s[1..][..CountSpaces(s) - 1][i - 1];
    }
  }

  lemma {:induction false} SpacesCounted(gap: string, rest: string)
    requires AllSpace(gap) && (rest == "" || !IsSpace(rest[0]))
    ensures CountSpaces(gap + rest) == |gap| && (gap + rest)[|gap|..] == rest
    decreases |gap|
  {
    if gap == "" {
      assert gap + rest == rest;
    } else {
      assert (gap + rest)[1..] == gap[1..] + rest;
      SpacesCounted(gap[1..], rest);
    }
  }

  lemma EndsIs(s: string)
    ensures ColonEnds(s) <==> Ends(s)
  {
    if s != "" && s[0] == ':' {
      SpacesEnd(s[1..]);
      assert s[1..][..|s| - 1] == s[1..];
      if AllSpace(s[1..]) {
        SpacesCounted(s[1..], "");
        assert s[1..] + "" == s[1..];
      }
    }
  }

  lemma DigitsFirst(digits: string, rest: string)
    requires AllDigits(digits) && (rest == "" || !IsDigit(rest[0]))
    ensures var s := digits + rest;
      CountDigits(s) == |digits| && s[..|digits|] == digits && s[|digits|..] == rest
  {
    DigitsCounted(digits, rest);
  }

  lemma DigitsApart(s: string) returns (digits: string, rest: string)
    ensures s == digits + rest && digits == s[..CountDigits(s)] && rest == s[CountDigits(s)..] && AllDigits(digits)
    ensures rest != "" ==> !IsDigit(rest[0])
  {
    digits, rest := s[..CountDigits(s)], s[CountDigits(s)..];
    DigitsEnd(s);
  }

  // ----- rows

  /** Digits, a colon and the text. */
  ghost predicate RowText(line: string, r: Row) {
    exists digits :: Number(digits, r.line) && line == digits + (":" + r.text)
  }

  lemma RowGrammar(line: string, r: Row)
    ensures ParseRow(line) == Some(r) <==> RowText(line, r)
  {
    if ParseRow(line) == Some(r) {
      var digits, rest := DigitsApart(line);
      assert rest == ":" + r.text;
      assert Number(digits, r.line);
    }
    if RowText(line, r) {
      var digits :| Number(digits, r.line) && line == digits + (":" + r.text);
      DigitsFirst(digits, ":" + r.text);
      assert (":" + r.text)[1..] == r.text;
      assert line[|digits| + 1..] == line[|digits|..][1..];
    }
  }

  // ----- directives

  /** The end of a range: nothing, or a dash and a number; then the colon. */
  ghost predicate RangeEnd(s: string, end: Option<nat>) {
    match end
    case None => Ends(s)
    case Some(n) => exists b, t :: Number(b, n) && Ends(t) && s == "-" + (b + t)
  }

  ghost predicate RangeText(s: string, v: (nat, Option<nat>)) {
    exists a, rest :: Number(a, v.0) && RangeEnd(rest, v.1) && s == a + rest
  }

  lemma RangeRead(s: string, v: (nat, Option<nat>))
    requires ParseRange(s) == Some(v)
    ensures RangeText(s, v)
  {
    var a, rest := DigitsApart(s);
    assert Number(a, v.0);
    if v.1.Some? { RangeEndRead(s, a, rest, v); } else { EndsIs(rest); }
    assert RangeEnd(rest, v.1);
  }

  lemma RangeEndRead(s: string, a: string, rest: string, v: (nat, Option<nat>))
    requires s == a + rest && |a| == CountDigits(s) && ParseRange(s) == Some(v) && v.1.Some?
    ensures RangeEnd(rest, v.1)
  {
    var s2 := s[|a| + 1..];
    var b, t := DigitsApart(s2);
    DashFirst(s, a, rest);
    RangeEndOf(b, t, rest, v.1.value);
  }

  lemma DashFirst(s: string, a: string, rest: string)
    requires s == a + rest && rest != "" && rest[0] == '-'
    ensures rest == "-" + s[|a| + 1..]
  {
  }

  lemma RangeEndOf(b: string, t: string, rest: string, n: nat)
    requires Number(b, n) && ColonEnds(t) && rest == "-" + (b + t)
    ensures RangeEnd(rest, Some(n))
  {
    EndsIs(t);
  }

  lemma RangeWritten(s: string, v: (nat, Option<nat>))
    requires RangeText(s, v)
    ensures ParseRange(s) == Some(v)
  {
    var a, rest :| Number(a, v.0) && RangeEnd(rest, v.1) && s == a + rest;
    if v.1.Some? {
      var b, t :| Number(b, v.1.value) && Ends(t) && rest == "-" + (b + t);
      RangeOf(a, b, t, s, v);
    } else {
      EndsIs(rest);
      DigitsFirst(a, rest);
    }
  }

  lemma RangeOf(a: string, b: string, t: string, s: string, v: (nat, Option<nat>))
    requires v.1.Some? && Number(a, v.0) && Number(b, v.1.value) && Ends(t) && s == a + ("-" + (b + t))
    ensures ParseRange(s) == Some(v)
  {
    DigitsFirst(a, "-" + (b + t));
    EndsIs(t);
    DigitsFirst(b, t);
    assert s[|a|..][1..] == b + t;
    assert s[|a| + 1..] == s[|a|..][1..];
  }

  /** SWAP, white space and a range. */
  ghost predicate SwapText(s: string, v: (nat, Option<nat>)) {
    exists word, gap, range ::
      IsWord(word, "SWAP") && gap != "" && AllSpace(gap) && RangeText(range, v) && s == word + (gap + range)
  }

  lemma RangeStarts(range: string, v: (nat, Option<nat>))
    requires RangeText(range, v)
    ensures range != "" && IsDigit(range[0])
  {
  }

  lemma SpacesApart(s: string) returns (gap: string, rest: string)
    ensures s == gap + rest && gap == s[..CountSpaces(s)] && rest == s[CountSpaces(s)..] && AllSpace(gap)
  {
    gap, rest := s[..CountSpaces(s)], s[CountSpaces(s)..];
    SpacesEnd(s);
  }

  lemma SwapGrammar(s: string, v: (nat, Option<nat>))
    ensures ParseSwap(s) == Some(v) <==> SwapText(s, v)
  {
    if ParseSwap(s) == Some(v) { SwapRead(s, v); }
    if SwapText(s, v) {
      var word, gap, range :|
        IsWord(word, "SWAP") && gap != "" && AllSpace(gap) && RangeText(range, v) && s == word + (gap + range);
      SwapWritten(word, gap, range, s, v);
    }
  }

  lemma SwapRead(s: string, v: (nat, Option<nat>))
    requires ParseSwap(s) == Some(v)
    ensures SwapText(s, v)
  {
    WordOf(s, "SWAP");
    var gap, range := SpacesApart(s[4..]);
    SwapBy(s[..4], gap, range, s, v);
  }

  lemma SwapBy(word: string, gap: string, range: string, s: string, v: (nat, Option<nat>))
    requires IsWord(word, "SWAP") && gap != "" && AllSpace(gap) && ParseRange(range) == Some(v) && s == word + (gap + range)
    ensures SwapText(s, v)
  {
    RangeRead(range, v);
  }

  /** A line that begins with a word. */
  lemma WordOf(s: string, word: string)
    requires Begins(s, word)
    ensures IsWord(s[..|word|], word) && s == s[..|word|] + s[|word|..]
  {
  }

  lemma SwapWritten(word: string, gap: string, range: string, s: string, v: (nat, Option<nat>))
    requires IsWord(word, "SWAP") && gap != "" && AllSpace(gap) && RangeText(range, v) && s == word + (gap + range)
    ensures ParseSwap(s) == Some(v)
  {
    RangeStarts(range, v);
    SpacesCounted(gap, range);
    RangeWritten(range, v);
    assert s[4..] == gap + range;
  }

  /** White space, a number and the colon. */
  ghost predicate AnchorText(s: string, n: nat) {
    exists gap, a, t :: gap != "" && AllSpace(gap) && Number(a, n) && Ends(t) && s == gap + (a + t)
  }

  lemma AnchorGrammar(s: string, n: nat)
    ensures ParseAnchor(s) == Some(n) <==> AnchorText(s, n)
  {
    if ParseAnchor(s) == Some(n) {
      var gap, rest := SpacesApart(s);
      var a, t := DigitsApart(rest);
      EndsIs(t);
      assert Number(a, n) && s == gap + (a + t);
    }
    if AnchorText(s, n) {
      var gap, a, t :| gap != "" && AllSpace(gap) && Number(a, n) && Ends(t) && s == gap + (a + t);
      EndsIs(t);
      DigitsFirst(a, t);
      SpacesCounted(gap, a + t);
    }
  }

  /** The word that says where, or nothing, which means before. */
  ghost predicate PlaceText(s: string, v: (nat, bool)) {
    || (!v.1 && AnchorText(s, v.0))
    || (exists gap, word, tail ::
          && gap != "" && AllSpace(gap) && IsWord(word, if v.1 then "AFTER" else "BEFORE")
          && AnchorText(tail, v.0) && s == gap + (word + tail))
  }

  lemma AnchorStarts(s: string, n: nat)
    requires AnchorText(s, n)
    ensures s != "" && IsSpace(s[0]) && var rest := s[CountSpaces(s)..]; rest != "" && IsDigit(rest[0])
  {
    var gap, a, t :| gap != "" && AllSpace(gap) && Number(a, n) && Ends(t) && s == gap + (a + t);
    SpacesCounted(gap, a + t);
  }

  lemma PlaceBy(gap: string, word: string, tail: string, s: string, v: (nat, bool))
    requires gap != "" && AllSpace(gap) && IsWord(word, if v.1 then "AFTER" else "BEFORE")
    requires ParseAnchor(tail) == Some(v.0) && s == gap + (word + tail)
    ensures PlaceText(s, v)
  {
    AnchorGrammar(tail, v.0);
  }

  lemma PlaceRead(s: string, v: (nat, bool))
    requires ParsePlace(s) == Some(v)
    ensures PlaceText(s, v)
  {
    var gap, s1 := SpacesApart(s);
    if gap != "" && Begins(s1, "BEFORE") {
      BeforeRead(gap, s1, s, v);
    } else if gap != "" && Begins(s1, "AFTER") {
      AfterRead(gap, s1, s, v);
    } else {
      AnchorGrammar(s, v.0);
    }
  }

  lemma BeforeRead(gap: string, s1: string, s: string, v: (nat, bool))
    requires ParsePlace(s) == Some(v) && gap == s[..CountSpaces(s)] && s1 == s[CountSpaces(s)..] && s == gap + s1
    requires gap != "" && AllSpace(gap) && Begins(s1, "BEFORE")
    ensures PlaceText(s, v)
  {
    WordOf(s1, "BEFORE");
    WordStarts(s1[..6], s1[6..], false);
    assert ParseAnchor(s1[6..]) == Some(v.0);
    PlaceBy(gap, s1[..6], s1[6..], s, v);
  }

  lemma AfterRead(gap: string, s1: string, s: string, v: (nat, bool))
    requires ParsePlace(s) == Some(v) && gap == s[..CountSpaces(s)] && s1 == s[CountSpaces(s)..] && s == gap + s1
    requires gap != "" && AllSpace(gap) && Begins(s1, "AFTER")
    ensures PlaceText(s, v)
  {
    WordOf(s1, "AFTER");
    WordStarts(s1[..5], s1[5..], true);
    assert ParseAnchor(s1[5..]) == Some(v.0);
    PlaceBy(gap, s1[..5], s1[5..], s, v);
  }

  /** A number is no word. */
  lemma AnchorIsRead(s: string, n: nat)
    requires AnchorText(s, n)
    ensures ParsePlace(s) == Some((n, false))
  {
    AnchorStarts(s, n);
    AnchorGrammar(s, n);
    var s1 := s[CountSpaces(s)..];
    assert UpperChar(s1[0]) == s1[0];
    assert !Begins(s1, "AFTER") && !Begins(s1, "BEFORE");
  }

  lemma WordIsRead(gap: string, word: string, tail: string, s: string, v: (nat, bool))
    requires gap != "" && AllSpace(gap) && IsWord(word, if v.1 then "AFTER" else "BEFORE")
    requires AnchorText(tail, v.0) && s == gap + (word + tail)
    ensures ParsePlace(s) == Some(v)
  {
    WordStarts(word, tail, v.1);
    SpacesCounted(gap, word + tail);
    AnchorGrammar(tail, v.0);
  }

  lemma WordStarts(word: string, tail: string, after: bool)
    requires IsWord(word, if after then "AFTER" else "BEFORE")
    ensures var s := word + tail;
      s != "" && !IsSpace(s[0]) && s[|word|..] == tail && (Begins(s, "AFTER") <==> after) && (Begins(s, "BEFORE") <==> !after)
  {
    var s := word + tail;
    assert "AFTER"[0] == 'A' && "BEFORE"[0] == 'B';
    assert s[0] == word[0] && UpperChar(word[0]) in {'A', 'B'};
    assert forall k :: 0 <= k < |word| ==> s[k] == word[k];
  }

  lemma PlaceWritten(s: string, v: (nat, bool))
    requires PlaceText(s, v)
    ensures ParsePlace(s) == Some(v)
  {
    if !v.1 && AnchorText(s, v.0) {
      AnchorIsRead(s, v.0);
    } else {
      var gap, word, tail :|
        && gap != "" && AllSpace(gap) && IsWord(word, if v.1 then "AFTER" else "BEFORE")
        && AnchorText(tail, v.0) && s == gap + (word + tail);
      WordIsRead(gap, word, tail, s, v);
    }
  }

  /** INSERT and a place. */
  ghost predicate InsertText(s: string, v: (nat, bool)) {
    exists word, rest :: IsWord(word, "INSERT") && PlaceText(rest, v) && s == word + rest
  }

  lemma InsertGrammar(s: string, v: (nat, bool))
    ensures ParseInsert(s) == Some(v) <==> InsertText(s, v)
  {
    if ParseInsert(s) == Some(v) {
      WordOf(s, "INSERT");
      PlaceRead(s[6..], v);
    }
    if InsertText(s, v) {
      var word, rest :| IsWord(word, "INSERT") && PlaceText(rest, v) && s == word + rest;
      InsertWritten(word, rest, s, v);
    }
  }

  lemma InsertWritten(word: string, rest: string, s: string, v: (nat, bool))
    requires IsWord(word, "INSERT") && PlaceText(rest, v) && s == word + rest
    ensures ParseInsert(s) == Some(v)
  {
    PlaceWritten(rest, v);
    assert s[6..] == rest;
  }

  // ----- headers

  /** A path and a snapshot id between brackets, parted by the last number sign that leaves an id. */
  predicate HeaderText(s: string, path: string, snapshot: string) {
    && s == "[" + (path + ("#" + (snapshot + "]")))
    && path != "" && snapshot != "" && ']' !in snapshot && '#' !in snapshot[..|snapshot| - 1]
  }

  lemma {:induction false} SplitIsLast(inner: string, at: nat, v: (string, string))
    requires at <= |inner| && SplitHeader(inner, at) == Some(v)
    ensures |v.0| + 1 <= at && v.0 != "" && v.1 != "" && inner == v.0 + ("#" + v.1) && ']' !in v.1
    ensures forall j :: |v.0| < j < at && j < |inner| - 1 ==> inner[j] != '#'
    decreases at
  {
    if inner[at - 1] == '#' && at - 1 > 0 && at < |inner| {
      assert inner == inner[..at - 1] + ("#" + inner[at..]);
    } else {
      SplitIsLast(inner, at - 1, v);
    }
  }

  lemma {:induction false} LastSplits(path: string, snapshot: string, at: nat)
    requires path != "" && snapshot != "" && ']' !in snapshot && '#' !in snapshot[..|snapshot| - 1]
    requires |path| + 1 <= at <= |path| + 1 + |snapshot|
    ensures SplitHeader(path + ("#" + snapshot), at) == Some((path, snapshot))
    decreases at
  {
    var inner := path + ("#" + snapshot);
    if at == |path| + 1 {
      assert inner[..at - 1] == path && inner[at..] == snapshot;
    } else {
      if at < |inner| { assert inner[at - 1] == snapshot[..|snapshot| - 1][at - 2 - |path|]; }
      LastSplits(path, snapshot, at - 1);
    }
  }

  lemma HeaderGrammar(s: string, path: string, snapshot: string)
    ensures ParseHeader(s) == Some((path, snapshot)) <==> HeaderText(s, path, snapshot)
  {
    if ParseHeader(s) == Some((path, snapshot)) {
      var inner := s[1..|s| - 1];
      SplitIsLast(inner, |inner|, (path, snapshot));
      assert s == "[" + (inner + "]");
      assert forall j :: 0 <= j < |snapshot| - 1 ==> snapshot[j] == inner[|path| + 1 + j];
    }
    if HeaderText(s, path, snapshot) {
      var inner := path + ("#" + snapshot);
      InnerOf(s, path, snapshot);
      LastSplits(path, snapshot, |inner|);
    }
  }

  lemma InnerOf(s: string, path: string, snapshot: string)
    requires s == "[" + (path + ("#" + (snapshot + "]")))
    ensures |s| >= 2 && s[0] == '[' && s[|s| - 1] == ']' && s[1..|s| - 1] == path + ("#" + snapshot)
  {
    assert s == "[" + (path + ("#" + snapshot)) + "]";
  }

  // ----- hunks

  predicate AllPlus(lines: seq<string>) { forall k :: 0 <= k < |lines| ==> lines[k] != "" && lines[k][0] == '+' }

  /** The lines without their first characters. */
  function Tails(lines: seq<string>): (r: seq<string>)
    requires AllPlus(lines)
  {
    seq(|lines|, k requires 0 <= k < |lines| => lines[k][1..])
  }

  lemma {:induction false} PlusGrammar(lines: seq<string>)
    ensures PlusRows(lines).Ok? <==> AllPlus(lines)
    ensures AllPlus(lines) ==> PlusRows(lines) == Ok(Tails(lines))
    ensures !AllPlus(lines) ==> PlusRows(lines) == Err(NotAPlusRow)
    decreases |lines|
  {
    if lines != [] && IsPlus(lines[0]) {
      PlusGrammar(lines[1..]);
      if AllPlus(lines[1..]) {
        assert forall k :: 0 < k < |lines| ==> lines[k] == lines[1..][k - 1];
        assert Tails(lines) == [lines[0][1..]] + Tails(lines[1..]);
      } else {
        var k :| 0 <= k < |lines| - 1 && !(lines[1..][k] != "" && lines[1..][k][0] == '+');
        assert lines[k + 1] == lines[1..][k];
      }
    } else if lines == [] {
      assert Tails(lines) == [];
    } else {
      assert !AllPlus(lines);
    }
  }

  /** The first lines are these rows, and the next line, if there is one, begins with a plus. */
  ghost predicate RowsFirst(body: seq<string>, olds: seq<Row>) {
    && |olds| <= |body| && (forall k :: 0 <= k < |olds| ==> RowText(body[k], olds[k]))
    && (|olds| < |body| ==> IsPlus(body[|olds|]))
  }

  lemma RowIsNoPlus(line: string, r: Row)
    requires RowText(line, r)
    ensures line != "" && IsDigit(line[0]) && !IsPlus(line)
  {
    var digits :| Number(digits, r.line) && line == digits + (":" + r.text);
    assert line[0] == digits[0];
  }

  lemma {:induction false} OldRowsRead(body: seq<string>)
    requires OldRows(body).Ok?
    ensures var v := OldRows(body).value;
      RowsFirst(body, v.0) && v.1 == body[|v.0|..]
    decreases |body|
  {
    if body != [] && !IsPlus(body[0]) {
      RowGrammar(body[0], ParseRow(body[0]).value);
      OldRowsRead(body[1..]);
    }
  }

  lemma {:induction false} OldRowsWritten(body: seq<string>, olds: seq<Row>)
    requires RowsFirst(body, olds)
    ensures OldRows(body) == Ok((olds, body[|olds|..]))
    decreases |body|
  {
    if olds == [] {
      assert body[0..] == body;
    } else {
      RowGrammar(body[0], olds[0]);
      RowIsNoPlus(body[0], olds[0]);
      assert forall k :: 0 <= k < |olds| - 1 ==> body[1..][k] == body[k + 1];
      OldRowsWritten(body[1..], olds[1..]);
      FirstApart(olds);
      assert body[1..][|olds| - 1..] == body[|olds|..];
    }
  }

  /** What a hunk's lines say: a SWAP of a range, an INSERT of at least one row, or consecutive copied rows, each
      with plus rows after it. */
  ghost predicate SaysSwap(path: string, snapshot: string, body: seq<string>, v: Parsed) {
    && body != [] && v.Edit? && v.expected == [] && AllPlus(body[1..])
    && (exists end :: SwapText(Strip(body[0]), (v.start, end)) && v.end == Or(end, v.start))
    && v.start <= v.end && v == Edit(path, snapshot, v.start, v.end, ReplacementText(Tails(body[1..])), [])
  }

  function Or(end: Option<nat>, start: nat): nat { if end.Some? then end.value else start }

  ghost predicate SaysInsert(path: string, snapshot: string, body: seq<string>, v: Parsed) {
    && |body| > 1 && v.Insert? && AllPlus(body[1..])
    && InsertText(Strip(body[0]), (v.anchor, v.after))
    && v == Insert(path, snapshot, v.anchor, v.after, Tails(body[1..]))
  }

  ghost predicate SaysCopied(path: string, snapshot: string, body: seq<string>, v: Parsed) {
    && v.Edit? && v.expected != [] && RowsFirst(body, v.expected) && AllPlus(body[|v.expected|..])
    && (forall k :: 0 < k < |v.expected| ==> v.expected[k].line == v.expected[k - 1].line + 1)
    && v == Edit(path, snapshot, v.expected[0].line, v.expected[|v.expected| - 1].line,
                 ReplacementText(Tails(body[|v.expected|..])), v.expected)
  }

  ghost predicate Says(path: string, snapshot: string, body: seq<string>, v: Parsed) {
    SaysSwap(path, snapshot, body, v) || SaysInsert(path, snapshot, body, v) || SaysCopied(path, snapshot, body, v)
  }

  lemma {:induction false} ConsecutiveIs(rows: seq<Row>, n: nat)
    requires n < |rows| && forall k :: 0 < k < |rows| ==> rows[k].line == rows[k - 1].line + 1
    ensures forall k :: 0 <= k <= n ==> rows[k].line == rows[0].line + k
  {
    if n > 0 {
      ConsecutiveIs(rows, n - 1);
      assert rows[n].line == rows[n - 1].line + 1;
    }
  }

  lemma HunkRead(path: string, snapshot: string, body: seq<string>, v: Parsed)
    requires ParseHunk(path, snapshot, body) == Ok(v)
    ensures Says(path, snapshot, body, v)
  {
    var directive := Strip(body[0]);
    if ParseSwap(directive).Some? {
      SwapHunkRead(path, snapshot, ParseSwap(directive).value, body, v);
    } else if ParseInsert(directive).Some? {
      InsertHunkRead(path, snapshot, ParseInsert(directive).value, body, v);
    } else {
      CopiedRead(path, snapshot, body, v);
    }
  }

  lemma SwapHunkRead(path: string, snapshot: string, range: (nat, Option<nat>), body: seq<string>, v: Parsed)
    requires body != [] && ParseSwap(Strip(body[0])) == Some(range)
    requires ParseSwapHunk(path, snapshot, range, body[1..]) == Ok(v)
    ensures SaysSwap(path, snapshot, body, v)
  {
    PlusGrammar(body[1..]);
    SwapGrammar(Strip(body[0]), range);
  }

  lemma InsertHunkRead(path: string, snapshot: string, place: (nat, bool), body: seq<string>, v: Parsed)
    requires body != [] && ParseInsert(Strip(body[0])) == Some(place)
    requires ParseInsertHunk(path, snapshot, place, body[1..]) == Ok(v)
    ensures SaysInsert(path, snapshot, body, v)
  {
    PlusGrammar(body[1..]);
    InsertGrammar(Strip(body[0]), place);
  }

  lemma CopiedRead(path: string, snapshot: string, body: seq<string>, v: Parsed)
    requires ParseCopied(path, snapshot, body) == Ok(v)
    ensures SaysCopied(path, snapshot, body, v)
  {
    OldRowsRead(body);
    PlusGrammar(OldRows(body).value.1);
  }

  lemma SwapIsNoInsert(s: string, v: (nat, bool))
    requires InsertText(s, v)
    ensures ParseSwap(s) == None
  {
    InsertGrammar(s, v);
    assert "INSERT"[0] == 'I';
    assert UpperChar(s[0]) == 'I';
    NotASwap(s);
  }

  lemma HunkWritten(path: string, snapshot: string, body: seq<string>, v: Parsed)
    requires Says(path, snapshot, body, v)
    ensures ParseHunk(path, snapshot, body) == Ok(v)
  {
    if SaysSwap(path, snapshot, body, v) {
      SwapHunkWritten(path, snapshot, body, v);
    } else if SaysInsert(path, snapshot, body, v) {
      InsertHunkWritten(path, snapshot, body, v);
    } else {
      CopiedWritten(path, snapshot, body, v);
    }
  }

  lemma SwapHunkWritten(path: string, snapshot: string, body: seq<string>, v: Parsed)
    requires SaysSwap(path, snapshot, body, v)
    ensures ParseHunk(path, snapshot, body) == Ok(v)
  {
    var end :| SwapText(Strip(body[0]), (v.start, end)) && v.end == Or(end, v.start);
    SwapGrammar(Strip(body[0]), (v.start, end));
    PlusGrammar(body[1..]);
  }

  lemma InsertHunkWritten(path: string, snapshot: string, body: seq<string>, v: Parsed)
    requires SaysInsert(path, snapshot, body, v)
    ensures ParseHunk(path, snapshot, body) == Ok(v)
  {
    SwapIsNoInsert(Strip(body[0]), (v.anchor, v.after));
    InsertGrammar(Strip(body[0]), (v.anchor, v.after));
    PlusGrammar(body[1..]);
  }

  lemma CopiedWritten(path: string, snapshot: string, body: seq<string>, v: Parsed)
    requires SaysCopied(path, snapshot, body, v)
    ensures ParseHunk(path, snapshot, body) == Ok(v)
  {
    RowIsNoPlus(body[0], v.expected[0]);
    RowIsNoDirective(body[0]);
    OldRowsWritten(body, v.expected);
    ConsecutiveIs(v.expected, |v.expected| - 1);
    PlusGrammar(body[|v.expected|..]);
  }

  /** A hunk parses to just what its lines say, and lines that say nothing are refused. */
  lemma HunkGrammar(path: string, snapshot: string, body: seq<string>, v: Parsed)
    ensures ParseHunk(path, snapshot, body) == Ok(v) <==> Says(path, snapshot, body, v)
  {
    if ParseHunk(path, snapshot, body) == Ok(v) { HunkRead(path, snapshot, body, v); }
    if Says(path, snapshot, body, v) { HunkWritten(path, snapshot, body, v); }
  }
}
