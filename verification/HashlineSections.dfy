/** Which lines of an input make which hunk: a hunk is a longest run of lines that are neither blank nor headers,
    read under the latest header before it. */
module HashlineSections {
  import opened Common
  import opened HashlineText
  import opened HashlineParse

  predicate Blank(line: string) { Strip(line) == "" }

  predicate Heads(line: string) { ParseHeader(Strip(line)).Some? }

  /** A line of some hunk. */
  predicate Inner(line: string) { !Blank(line) && !Heads(line) }

  /** The lines from `a` up to `b` are of one hunk, and no line next to them is of it. */
  ghost predicate Run(lines: seq<string>, a: nat, b: nat) {
    && a < b <= |lines| && (forall i :: a <= i < b ==> Inner(lines[i]))
    && (a > 0 ==> !Inner(lines[a - 1])) && (b < |lines| ==> !Inner(lines[b]))
  }

  /** The last header among the first `n` lines. */
  ghost predicate LatestHeader(lines: seq<string>, n: nat, path: string, snapshot: string) {
    exists j :: 0 <= j < n <= |lines| && ParseHeader(Strip(lines[j])) == Some((path, snapshot))
                && forall k :: j < k < n ==> !Heads(lines[k])
  }

  /** This run of lines, under its header, says `v`. */
  ghost predicate RunReads(lines: seq<string>, run: (nat, nat), v: Parsed) {
    && run.0 < run.1 <= |lines|
    && exists path, snapshot ::
         LatestHeader(lines, run.0, path, snapshot) && ParseHunk(path, snapshot, lines[run.0..run.1]) == Ok(v)
  }

  // ----- the runs

  /** Where the run that the first `n` lines end with starts. */
  function Open(lines: seq<string>, n: nat): (r: nat)
    requires n <= |lines|
    ensures r <= n
  {
    if n == 0 then 0 else if Inner(lines[n - 1]) then Open(lines, n - 1) else n
  }

  /** The runs over before line `n`. */
  function Over(lines: seq<string>, n: nat): seq<(nat, nat)>
    requires n <= |lines|
  {
    if n == 0 then []
    else if !Inner(lines[n - 1]) && Open(lines, n - 1) < n - 1 then Over(lines, n - 1) + [(Open(lines, n - 1), n - 1)]
    else Over(lines, n - 1)
  }

  function RunsOf(lines: seq<string>): seq<(nat, nat)> {
    var n := |lines|;
    Over(lines, n) + (if Open(lines, n) < n then [(Open(lines, n), n)] else [])
  }

  lemma {:induction false} OpenIs(lines: seq<string>, n: nat)
    requires n <= |lines|
    ensures var a := Open(lines, n);
      (forall i :: a <= i < n ==> Inner(lines[i])) && (a > 0 ==> !Inner(lines[a - 1]))
  {
    if n > 0 && Inner(lines[n - 1]) { OpenIs(lines, n - 1); }
  }

  /** A run that ends with the first `n` lines is the open one. */
  lemma {:induction false} OpenIsTheRun(lines: seq<string>, n: nat, a: nat)
    requires a <= n <= |lines| && (forall i :: a <= i < n ==> Inner(lines[i])) && (a > 0 ==> !Inner(lines[a - 1]))
    ensures Open(lines, n) == a
  {
    if n > a { OpenIsTheRun(lines, n - 1, a); }
  }

  ghost predicate Ascend(runs: seq<(nat, nat)>) { forall i, j :: 0 <= i < j < |runs| ==> runs[i].1 < runs[j].0 }

  lemma {:induction false} OverIs(lines: seq<string>, n: nat)
    requires n <= |lines|
    ensures forall a: nat, b: nat :: (a, b) in Over(lines, n) <==> b < n && Run(lines, a, b)
    ensures Ascend(Over(lines, n)) && forall k :: 0 <= k < |Over(lines, n)| ==> Over(lines, n)[k].1 < n
  {
    if n > 0 {
      OverIs(lines, n - 1);
      OpenIs(lines, n - 1);
      var before, m, a := Over(lines, n - 1), n - 1, Open(lines, n - 1);
      OpenRuns(lines, m);
      if a < m { RunsBefore(lines, before, a, m); }
    }
  }

  lemma OpenRuns(lines: seq<string>, n: nat)
    requires n <= |lines|
    ensures forall x: nat :: Run(lines, x, n) ==> x == Open(lines, n)
    ensures Open(lines, n) < n && (n < |lines| ==> !Inner(lines[n])) ==> Run(lines, Open(lines, n), n)
  {
    OpenIs(lines, n);
    forall x: nat | Run(lines, x, n) ensures x == Open(lines, n) { OpenIsTheRun(lines, n, x); }
  }

  lemma RunsBefore(lines: seq<string>, before: seq<(nat, nat)>, a: nat, n: nat)
    requires a < n <= |lines| && (forall i :: a <= i < n ==> Inner(lines[i]))
    requires forall x: nat, y: nat :: (x, y) in before ==> y < n && Run(lines, x, y)
    ensures forall k :: 0 <= k < |before| ==> before[k].1 < a
  {
    forall k | 0 <= k < |before| ensures before[k].1 < a {
      assert before[k] in before;
      RunBefore(lines, before, k, a);
    }
  }

  lemma RunBefore(lines: seq<string>, before: seq<(nat, nat)>, k: nat, a: nat)
    requires k < |before| && forall x: nat, y: nat :: (x, y) in before ==> y < |lines| && Run(lines, x, y)
    requires a < |lines| && before[k].1 < |lines| && Inner(lines[a])
    requires forall i :: a <= i <= before[k].1 ==> Inner(lines[i])
    ensures before[k].1 < a
  {
    assert before[k] in before;
    assert Run(lines, before[k].0, before[k].1);
  }

  /** The runs, each once, in order. */
  lemma RunsAre(lines: seq<string>)
    ensures forall a: nat, b: nat :: (a, b) in RunsOf(lines) <==> Run(lines, a, b)
    ensures Ascend(RunsOf(lines))
  {
    var n := |lines|;
    OverIs(lines, n);
    OpenIs(lines, n);
    var before, a := Over(lines, n), Open(lines, n);
    OpenRuns(lines, n);
    if a < n { RunsBefore(lines, before, a, n); }
  }

  // ----- headers

  function Header(lines: seq<string>, n: nat): Option<(string, string)>
    requires n <= |lines|
  {
    if n == 0 then None
    else if Heads(lines[n - 1]) then ParseHeader(Strip(lines[n - 1]))
    else Header(lines, n - 1)
  }

  lemma {:induction false} HeaderIs(lines: seq<string>, n: nat, path: string, snapshot: string)
    requires n <= |lines|
    ensures Header(lines, n) == Some((path, snapshot)) <==> LatestHeader(lines, n, path, snapshot)
  {
    if n > 0 && !Heads(lines[n - 1]) {
      HeaderIs(lines, n - 1, path, snapshot);
      if LatestHeader(lines, n, path, snapshot) { HeaderBefore(lines, n, path, snapshot); }
      if LatestHeader(lines, n - 1, path, snapshot) { HeaderStays(lines, n, path, snapshot); }
    }
  }

  lemma HeaderBefore(lines: seq<string>, n: nat, path: string, snapshot: string)
    requires 0 < n <= |lines| && !Heads(lines[n - 1]) && LatestHeader(lines, n, path, snapshot)
    ensures LatestHeader(lines, n - 1, path, snapshot)
  {
    var j :| 0 <= j < n && ParseHeader(Strip(lines[j])) == Some((path, snapshot)) && forall k :: j < k < n ==> !Heads(lines[k]);
    assert j < n - 1;
  }

  lemma HeaderStays(lines: seq<string>, n: nat, path: string, snapshot: string)
    requires 0 < n <= |lines| && !Heads(lines[n - 1]) && LatestHeader(lines, n - 1, path, snapshot)
    ensures LatestHeader(lines, n, path, snapshot)
  {
    var j :| 0 <= j < n - 1 && ParseHeader(Strip(lines[j])) == Some((path, snapshot))
             && forall k :: j < k < n - 1 ==> !Heads(lines[k]);
  }

  /** A hunk's lines hold no header. */
  lemma {:induction false} HeaderOfRun(lines: seq<string>, n: nat)
    requires n <= |lines|
    ensures Header(lines, Open(lines, n)) == Header(lines, n)
  {
    if n > 0 && Inner(lines[n - 1]) { HeaderOfRun(lines, n - 1); }
  }

  /** What a run is read as. */
  lemma RunReadsIs(lines: seq<string>, run: (nat, nat), v: Parsed)
    requires run.0 < run.1 <= |lines|
    ensures RunReads(lines, run, v) <==>
      var h := Header(lines, run.0);
      h.Some? && ParseHunk(h.value.0, h.value.1, lines[run.0..run.1]) == Ok(v)
  {
    var h := Header(lines, run.0);
    if h.Some? { HeaderIs(lines, run.0, h.value.0, h.value.1); }
    forall path, snapshot | LatestHeader(lines, run.0, path, snapshot) ensures h == Some((path, snapshot)) {
      HeaderIs(lines, run.0, path, snapshot);
    }
  }

  // ----- the loop

  ghost predicate Reading(lines: seq<string>, runs: seq<(nat, nat)>, ops: seq<Parsed>) {
    |ops| == |runs| && forall k :: 0 <= k < |runs| ==> RunReads(lines, runs[k], ops[k])
  }

  ghost predicate ReadsSome(lines: seq<string>, run: (nat, nat)) { exists v :: RunReads(lines, run, v) }

  ghost predicate Readable(lines: seq<string>, runs: seq<(nat, nat)>) {
    forall k :: 0 <= k < |runs| ==> ReadsSome(lines, runs[k])
  }

  /** What the loop has done after `n` lines. */
  ghost predicate Follows(lines: seq<string>, n: nat, r: Result<State>)
    requires n <= |lines|
  {
    && (r.Ok? <==> Readable(lines, Over(lines, n)) && (n > 0 ==> Heads(lines[0])))
    && (r.Ok? ==>
          && r.value.header == Header(lines, n) && r.value.body == lines[Open(lines, n)..n]
          && Reading(lines, Over(lines, n), r.value.ops))
  }

  lemma {:induction false} Headed(lines: seq<string>, n: nat)
    requires 0 < n <= |lines| && Heads(lines[0])
    ensures Header(lines, n).Some?
  {
    if n > 1 { Headed(lines, n - 1); }
  }

  /** Flushing reads the open run. */
  lemma FlushReads(lines: seq<string>, n: nat, s: State)
    requires 0 < n <= |lines| && s.header == Header(lines, n) && s.header.Some? && s.body == lines[Open(lines, n)..n]
    ensures var f, a := Flush(s), Open(lines, n);
      if a == n then f == Ok(s)
      else
        && (f.Ok? <==> ReadsSome(lines, (a, n)))
        && (f.Ok? ==> exists v :: RunReads(lines, (a, n), v) && f.value == State(s.header, [], s.ops + [v]))
  {
    var a := Open(lines, n);
    HeaderOfRun(lines, n);
    if a < n {
      var op := ParseHunk(s.header.value.0, s.header.value.1, s.body);
      forall v ensures RunReads(lines, (a, n), v) <==> op == Ok(v) { RunReadsIs(lines, (a, n), v); }
      if op.Ok? { assert RunReads(lines, (a, n), op.value); }
    }
  }

  lemma ReadableMore(lines: seq<string>, runs: seq<(nat, nat)>, run: (nat, nat))
    ensures Readable(lines, runs + [run]) <==> Readable(lines, runs) && ReadsSome(lines, run)
  {
    if Readable(lines, runs + [run]) {
      assert (runs + [run])[|runs|] == run;
      forall k | 0 <= k < |runs| ensures ReadsSome(lines, runs[k]) { assert (runs + [run])[k] == runs[k]; }
    }
  }

  lemma ReadingMore(lines: seq<string>, runs: seq<(nat, nat)>, ops: seq<Parsed>, run: (nat, nat), v: Parsed)
    requires Reading(lines, runs, ops) && RunReads(lines, run, v)
    ensures Reading(lines, runs + [run], ops + [v])
  {
  }

  /** Flushing after `n` lines, before a line that is not of the hunk. */
  lemma FlushFollows(lines: seq<string>, n: nat, s: State)
    requires 0 < n < |lines| && Heads(lines[0]) && !Inner(lines[n])
    requires Readable(lines, Over(lines, n)) && Reading(lines, Over(lines, n), s.ops)
    requires s.header == Header(lines, n) && s.body == lines[Open(lines, n)..n]
    ensures var f := Flush(s);
      && (f.Ok? <==> Readable(lines, Over(lines, n + 1)))
      && (f.Ok? ==> f.value.header == s.header && f.value.body == [] && Reading(lines, Over(lines, n + 1), f.value.ops))
  {
    Headed(lines, n);
    FlushReads(lines, n, s);
    var a := Open(lines, n);
    if a < n {
      ReadableMore(lines, Over(lines, n), (a, n));
      if Flush(s).Ok? {
        var v :| RunReads(lines, (a, n), v) && Flush(s).value == State(s.header, [], s.ops + [v]);
        ReadingMore(lines, Over(lines, n), s.ops, (a, n), v);
      }
    }
  }

  lemma OneMoreLine(lines: seq<string>, n: nat)
    requires n < |lines|
    ensures FeedAll(START, lines[..n + 1])
      == (var r := FeedAll(START, lines[..n]); if r.Ok? then Feed(r.value, lines[n]) else r)
  {
    assert lines[..n + 1] == lines[..n] + [lines[n]];
    FeedAllConcat(START, lines[..n], [lines[n]]);
    OneFed(lines[n]);
  }

  lemma OneFed(line: string)
    ensures forall s: State :: FeedAll(s, [line]) == Feed(s, line)
  {
    assert [line][1..] == [];
  }

  lemma FirstLineFollows(lines: seq<string>)
    requires lines != [] && !Blank(lines[0])
    ensures Follows(lines, 1, Feed(START, lines[0]))
  {
    assert Open(lines, 0) == 0 && Over(lines, 0) == [] && Header(lines, 0) == None;
    assert Over(lines, 1) == [];
    if Heads(lines[0]) { assert lines[1..1] == []; }
  }

  lemma LineFollows(lines: seq<string>, n: nat, s: State)
    requires 0 < n < |lines| && Follows(lines, n, Ok(s))
    ensures Follows(lines, n + 1, Feed(s, lines[n]))
  {
    Headed(lines, n);
    if Inner(lines[n]) {
      assert lines[Open(lines, n)..n] + [lines[n]] == lines[Open(lines, n)..n + 1];
    } else {
      FlushFollows(lines, n, s);
      assert lines[n + 1..n + 1] == [];
    }
  }

  lemma Unreadable(lines: seq<string>, n: nat, r: Result<State>)
    requires 0 < n < |lines| && Follows(lines, n, r) && r.Err?
    ensures Follows(lines, n + 1, r)
  {
    if Readable(lines, Over(lines, n + 1)) && Open(lines, n) < n && !Inner(lines[n]) {
      ReadableMore(lines, Over(lines, n), (Open(lines, n), n));
    }
  }

  lemma {:induction false} LoopFollows(lines: seq<string>, n: nat)
    requires 0 < n <= |lines| && !Blank(lines[0])
    ensures Follows(lines, n, FeedAll(START, lines[..n]))
  {
    OneMoreLine(lines, n - 1);
    if n == 1 {
      assert lines[..0] == [];
      FirstLineFollows(lines);
    } else {
      LoopFollows(lines, n - 1);
      var r := FeedAll(START, lines[..n - 1]);
      if r.Ok? { LineFollows(lines, n - 1, r.value); } else { Unreadable(lines, n - 1, r); }
    }
  }

  // ----- the whole input

  /** What is left of the input: its lines without the blank ones at both ends. */
  ghost predicate Trimmed(input: seq<string>, lines: seq<string>) {
    && (lines != [] ==> !Blank(lines[0]) && !Blank(lines[|lines| - 1]))
    && exists i, j :: 0 <= i <= j <= |input| && lines == input[i..j]
         && (forall k :: 0 <= k < |input| && !(i <= k < j) ==> Blank(input[k]))
  }

  lemma {:induction false} StartDropped(input: seq<string>) returns (i: nat)
    ensures i <= |input| && DropBlankStart(input) == input[i..]
    ensures (forall k :: 0 <= k < i ==> Blank(input[k])) && (i < |input| ==> !Blank(input[i]))
    decreases |input|
  {
    if input != [] && Blank(input[0]) {
      i := StartDropped(input[1..]);
      assert forall k :: 0 < k <= i ==> input[k] == input[1..][k - 1];
      i := i + 1;
    } else {
      i := 0;
    }
  }

  lemma {:induction false} EndDropped(input: seq<string>) returns (j: nat)
    ensures j <= |input| && DropBlankEnd(input) == input[..j]
    ensures (forall k :: j <= k < |input| ==> Blank(input[k])) && (j > 0 ==> !Blank(input[j - 1]))
    decreases |input|
  {
    j := |input|;
    if input != [] && Blank(input[j - 1]) { j := EndDropped(input[..j - 1]); }
  }

  lemma BlankEndsDropped(input: seq<string>)
    ensures Trimmed(input, DropBlankEnd(DropBlankStart(input)))
  {
    var i := StartDropped(input);
    var rest := input[i..];
    var j := EndDropped(rest);
    assert rest[..j] == input[i..i + j];
    forall k | 0 <= k < |input| && !(i <= k < i + j) ensures Blank(input[k]) {
      if k >= i + j { assert input[k] == rest[k - i]; }
    }
  }

  /** The input parses exactly when there is a hunk and every run of hunk lines reads under its header; the hunks
      are then those of the runs, in order. */
  lemma InputIsItsRuns(input: seq<string>, ops: seq<Parsed>)
    ensures var lines := DropBlankEnd(DropBlankStart(input));
      && Trimmed(input, lines)
      && (ParseInput(input) == Ok(ops) <==> ops != [] && Reading(lines, RunsOf(lines), ops))
  {
    BlankEndsDropped(input);
    var lines := DropBlankEnd(DropBlankStart(input));
    var n := |lines|;
    if lines == [] {
      assert RunsOf(lines) == [];
    } else {
      assert lines[..n] == lines;
      LoopFollows(lines, n);
      LastFlush(lines, FeedAll(START, lines), ops);
    }
  }

  /** The line of a run is its own. */
  lemma {:induction false} RunFrom(lines: seq<string>, a: nat, b: nat) returns (end: nat)
    requires a < b <= |lines| && (forall i :: a <= i < b ==> Inner(lines[i])) && (a > 0 ==> !Inner(lines[a - 1]))
    ensures Run(lines, a, end)
    decreases |lines| - b
  {
    end := b;
    if b < |lines| && Inner(lines[b]) { end := RunFrom(lines, a, b + 1); }
  }

  /** Hunk lines without a header are not read. */
  lemma UnheadedIsUnread(lines: seq<string>)
    requires lines != [] && Inner(lines[0])
    ensures !Readable(lines, RunsOf(lines))
  {
    var b := RunFrom(lines, 0, 1);
    RunsAre(lines);
    assert (0, b) in RunsOf(lines);
    var k :| 0 <= k < |RunsOf(lines)| && RunsOf(lines)[k] == (0, b);
    NothingBefore(lines, b);
  }

  lemma NothingBefore(lines: seq<string>, b: nat)
    ensures !ReadsSome(lines, (0, b))
  {
  }

  /** A run is read as one hunk only. */
  lemma ReadingIsOne(lines: seq<string>, runs: seq<(nat, nat)>, ops: seq<Parsed>, ops': seq<Parsed>)
    requires Reading(lines, runs, ops) && Reading(lines, runs, ops')
    ensures ops == ops'
  {
    forall k | 0 <= k < |ops| ensures ops[k] == ops'[k] {
      RunReadsIs(lines, runs[k], ops[k]);
      RunReadsIs(lines, runs[k], ops'[k]);
    }
  }

  lemma AllFlushed(lines: seq<string>, s: State)
    requires lines != [] && Heads(lines[0]) && Follows(lines, |lines|, Ok(s))
    ensures var f := Flush(s);
      && (f.Ok? <==> Readable(lines, RunsOf(lines)))
      && (f.Ok? ==> Reading(lines, RunsOf(lines), f.value.ops))
  {
    var n := |lines|;
    var a := Open(lines, n);
    Headed(lines, n);
    FlushReads(lines, n, s);
    if a < n {
      ReadableMore(lines, Over(lines, n), (a, n));
      if Flush(s).Ok? {
        var v :| RunReads(lines, (a, n), v) && Flush(s).value == State(s.header, [], s.ops + [v]);
        ReadingMore(lines, Over(lines, n), s.ops, (a, n), v);
      }
    } else {
      assert RunsOf(lines) == Over(lines, n);
    }
  }

  lemma ReadingIsReadable(lines: seq<string>, runs: seq<(nat, nat)>, ops: seq<Parsed>)
    requires Reading(lines, runs, ops)
    ensures Readable(lines, runs)
  {
  }

  lemma NoneFlushed(lines: seq<string>, r: Result<State>)
    requires lines != [] && !Blank(lines[0]) && Follows(lines, |lines|, r) && r.Err?
    ensures !Readable(lines, RunsOf(lines))
  {
    var n := |lines|;
    if Heads(lines[0]) {
      ReadableMore(lines, Over(lines, n), (Open(lines, n), n));
      assert Over(lines, n) + [] == Over(lines, n);
    } else {
      UnheadedIsUnread(lines);
    }
  }

  lemma LastFlush(lines: seq<string>, r: Result<State>, ops: seq<Parsed>)
    requires lines != [] && !Blank(lines[0]) && Follows(lines, |lines|, r)
    ensures r.Ok? && Flush(r.value).Ok? && Flush(r.value).value.ops == ops <==> Reading(lines, RunsOf(lines), ops)
  {
    if r.Err? {
      NoneFlushed(lines, r);
    } else {
      AllFlushed(lines, r.value);
    }
    if Reading(lines, RunsOf(lines), ops) {
      ReadingIsReadable(lines, RunsOf(lines), ops);
      ReadingIsOne(lines, RunsOf(lines), ops, Flush(r.value).value.ops);
    }
  }
}
