/** Which error an impossible operation gets, told line by line. */
module HashlineRefusals {
  import opened Common
  import opened HashlineText
  import opened HashlineEdit
  import opened HashlineApply

  /** The first and last line of an operation: an insertion's anchor is both. */
  predicate Covers(op: Operation, lo: nat, hi: nat) {
    match op
    case Edit(start, end, _, _, _) => lo == start && hi == end
    case Insert(anchor, _, _, _) => lo == anchor && hi == anchor
  }

  predicate Within(line: nat, range: (nat, nat)) { range.0 <= line <= range.1 }

  ghost predicate ShowsAll(range: (nat, nat), lo: nat, hi: nat) { forall line: nat :: lo <= line <= hi ==> Within(line, range) }

  /** The range was shown: the whole file was, or one of the shown ranges has all of its lines. */
  ghost predicate WasShown(ranges: seq<(nat, nat)>, lo: nat, hi: nat) {
    ranges == [] || exists k :: 0 <= k < |ranges| && ShowsAll(ranges[k], lo, hi)
  }

  lemma VisibleIs(ranges: seq<(nat, nat)>, lo: nat, hi: nat)
    requires lo <= hi
    ensures ranges == [] || Visible(lo, hi, ranges) <==> WasShown(ranges, lo, hi)
  {
    forall k | 0 <= k < |ranges| ensures ShowsAll(ranges[k], lo, hi) <==> ranges[k].0 <= lo && hi <= ranges[k].1 {
      if ShowsAll(ranges[k], lo, hi) { assert Within(lo, ranges[k]) && Within(hi, ranges[k]); }
    }
  }

  /** The old text given for an edit is that of its lines, line by line. */
  ghost predicate OldTextFits(texts: seq<string>, op: Operation) {
    op.Edit? && op.expected != [] ==>
      && |op.expected| == op.end + 1 - op.start
      && forall k :: 0 <= k < |op.expected| && 1 <= op.start && op.start - 1 + k < |texts| ==> op.expected[k] == texts[op.start - 1 + k]
  }

  predicate Refused(r: Result<Hunk>, e: Error) { r.Err? && r.error == e }

  /** The size check comes first, then the bounds. */
  lemma RefusedByBounds(lines: seq<string>, op: Operation, limit: nat, lo: nat, hi: nat)
    requires Covers(op, lo, hi)
    ensures var r := Prepare(lines, op, limit);
      if TextBytes(Join(lines)) > limit then Refused(r, FileTooLarge)
      else if lo == 0 then Refused(r, BelowOne)
      else if hi < lo then Refused(r, EndBeforeStart)
      else if |lines| < hi then Refused(r, BeyondFile)
      else r.Err? ==> r.error in {SnapshotNotFound, SnapshotOfOtherFile, FileChanged, RangeNotShown, OldTextDiffers}
  {
  }

  /** Of a range in the file the snapshot is checked, then the lines shown, then the old text. */
  lemma RefusedBySnapshot(lines: seq<string>, op: Operation, limit: nat, lo: nat, hi: nat)
    requires Covers(op, lo, hi) && TextBytes(Join(lines)) <= limit && 1 <= lo <= hi <= |lines|
    ensures Checked(Prepare(lines, op, limit), op, Join(lines), Texts(lines), lo, hi)
  {
    PreparedInFile(lines, op, limit);
    ChecksFollow(Prepare(lines, op, limit), op, Join(lines), Texts(lines), lo, hi);
  }

  ghost predicate Checked(r: Result<Hunk>, op: Operation, content: string, texts: seq<string>, lo: nat, hi: nat) {
    match op.view
    case NotFound => Refused(r, SnapshotNotFound)
    case OtherFile => Refused(r, SnapshotOfOtherFile)
    case Shown(taken, ranges) =>
      if taken != content then Refused(r, FileChanged)
      else if !WasShown(ranges, lo, hi) then Refused(r, RangeNotShown)
      else if !OldTextFits(texts, op) then Refused(r, OldTextDiffers)
      else r.Ok?
  }

  predicate OldTextDiffersFrom(texts: seq<string>, op: Operation)
    requires 1 <= First(op) <= Final(op) <= |texts|
  {
    op.Edit? && op.expected != [] && texts[op.start - 1..op.end] != op.expected
  }

  lemma PreparedInFile(lines: seq<string>, op: Operation, limit: nat)
    requires TextBytes(Join(lines)) <= limit && 1 <= First(op) <= Final(op) <= |lines|
    ensures var r, refusal := Prepare(lines, op, limit), Refusal(op, Join(lines));
      if refusal.Some? then Refused(r, refusal.value)
      else if OldTextDiffersFrom(Texts(lines), op) then Refused(r, OldTextDiffers)
      else r.Ok?
  {
  }

  lemma ChecksFollow(r: Result<Hunk>, op: Operation, content: string, texts: seq<string>, lo: nat, hi: nat)
    requires Covers(op, lo, hi) && 1 <= lo <= hi <= |texts|
    requires var refusal := Refusal(op, content);
      if refusal.Some? then Refused(r, refusal.value)
      else if OldTextDiffersFrom(texts, op) then Refused(r, OldTextDiffers)
      else r.Ok?
    ensures Checked(r, op, content, texts, lo, hi)
  {
    RefusalIs(op, content, lo, hi);
    if op.Edit? { OldTextIs(texts, op); }
  }

  lemma RefusalIs(op: Operation, content: string, lo: nat, hi: nat)
    requires Covers(op, lo, hi) && lo <= hi
    ensures match op.view
      case NotFound => Refusal(op, content) == Some(SnapshotNotFound)
      case OtherFile => Refusal(op, content) == Some(SnapshotOfOtherFile)
      case Shown(taken, ranges) =>
        Refusal(op, content) ==
          (if taken != content then Some(FileChanged) else if !WasShown(ranges, lo, hi) then Some(RangeNotShown) else None)
  {
    if op.view.Shown? { VisibleIs(op.view.ranges, lo, hi); }
  }

  lemma OldTextIs(texts: seq<string>, op: Operation)
    requires op.Edit? && 1 <= op.start <= op.end <= |texts|
    ensures OldTextFits(texts, op) <==> op.expected == [] || texts[op.start - 1..op.end] == op.expected
  {
  }

  /** Sizes are those of UTF-8, and add up. */
  lemma SizesAreUtf8(a: string, b: string, c: char)
    ensures TextBytes(a + b) == TextBytes(a) + TextBytes(b) && TextBytes("") == 0
    ensures TextBytes([c]) == (if c <= '\U{7F}' then 1 else if c <= '\U{7FF}' then 2 else if c <= '\U{FFFF}' then 3 else 4)
  {
    TextBytesConcat(a, b);
    assert [c][1..] == "";
  }
}
