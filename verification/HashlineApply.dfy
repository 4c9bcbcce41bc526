/** Hashline operations on one file: preparation, the overlap check, the splices and the report. */
module HashlineApply {
  import opened Common
  import opened HashlineText
  import opened HashlineEdit

  /** What the session has under the operation's snapshot id: nothing, a snapshot of another path, or the
      contents the file had and the line ranges that were shown. */
  datatype View = NotFound | OtherFile | Shown(content: string, ranges: seq<(nat, nat)>)

  /** `expected` holds the old rows' texts; it is empty for a SWAP. */
  datatype Operation =
    | Edit(start: nat, end: nat, replacement: string, expected: seq<string>, view: View)
    | Insert(anchor: nat, after: bool, rows: seq<string>, view: View)

  datatype Error =
    | FileTooLarge | BelowOne | EndBeforeStart | BeyondFile
    | SnapshotNotFound | SnapshotOfOtherFile | FileChanged | RangeNotShown
    | OldTextDiffers | Overlap | ResultTooLarge

  datatype Result<+T> = Ok(value: T) | Err(error: Error)

  function First(op: Operation): nat { if op.Edit? then op.start else op.anchor }

  function Final(op: Operation): nat { if op.Edit? then op.end else op.anchor }

  /** An insertion's rows with its anchor line. */
  function Anchored(texts: seq<string>, op: Operation): seq<string>
    requires op.Insert? && 1 <= op.anchor <= |texts|
  {
    if op.after then [texts[op.anchor - 1]] + op.rows else op.rows + [texts[op.anchor - 1]]
  }

  /** The text that replaces the operation's range. */
  function NewText(texts: seq<string>, op: Operation): string
    requires op.Insert? ==> 1 <= op.anchor <= |texts|
  {
    if op.Edit? then op.replacement else ReplacementText(Anchored(texts, op))
  }

  /** `_range_is_visible`. */
  predicate Visible(first: nat, last: nat, ranges: seq<(nat, nat)>) {
    exists k :: 0 <= k < |ranges| && ranges[k].0 <= first && last <= ranges[k].1
  }

  /** `_validate_snapshot_for_edit`, for a file that now has these contents. */
  function Refusal(op: Operation, content: string): Option<Error> {
    match op.view
    case NotFound => Some(SnapshotNotFound)
    case OtherFile => Some(SnapshotOfOtherFile)
    case Shown(taken, ranges) =>
      if taken != content then Some(FileChanged)
      else if ranges != [] && !Visible(First(op), Final(op), ranges) then Some(RangeNotShown)
      else None
  }

  /** `_prepare_hashline_hunk`. */
  function Prepare(lines: seq<string>, op: Operation, limit: nat): Result<Hunk> {
    if TextBytes(Join(lines)) > limit then Err(FileTooLarge)
    else if First(op) < 1 then Err(BelowOne)
    else if Final(op) < First(op) then Err(EndBeforeStart)
    else if Final(op) > |lines| then Err(BeyondFile)
    else if Refusal(op, Join(lines)).Some? then Err(Refusal(op, Join(lines)).value)
    else if op.Edit? && op.expected != [] && Texts(lines)[op.start - 1..op.end] != op.expected then Err(OldTextDiffers)
    else Ok(Prepared(lines, op))
  }

  function Prepared(lines: seq<string>, op: Operation): Hunk
    requires 1 <= First(op) <= Final(op) <= |lines|
  {
    Hunk(First(op), Final(op),
         ReplacementLines(NewText(Texts(lines), op), Ended(lines[Final(op) - 1]), Final(op) < |lines|))
  }

  function PrepareAll(lines: seq<string>, ops: seq<Operation>, limit: nat): Result<seq<Hunk>> {
    if ops == [] then Ok([])
    else
      var hunk := Prepare(lines, ops[0], limit);
      if hunk.Err? then Err(hunk.error)
      else
        var rest := PrepareAll(lines, ops[1..], limit);
        if rest.Err? then rest else Ok([hunk.value] + rest.value)
  }

  /** `_hashline_edit_locked` for one file, up to the report. */
  function EditFile(lines: seq<string>, ops: seq<Operation>, limit: nat): Result<seq<string>> {
    var hunks := PrepareAll(lines, ops, limit);
    if hunks.Err? then Err(hunks.error)
    else if !NextApart(InOrder(hunks.value)) then Err(Overlap)
    else if TextBytes(Join(Updated(lines, hunks.value))) > limit then Err(ResultTooLarge)
    else Ok(Updated(lines, hunks.value))
  }

  // ----- what was asked for

  /** The snapshot is this file as it is now, and showed the range if it showed only ranges. */
  predicate Grounded(op: Operation, content: string) {
    && op.view.Shown? && op.view.content == content
    && (op.view.ranges == [] || Visible(First(op), Final(op), op.view.ranges))
  }

  predicate CanPrepare(texts: seq<string>, op: Operation) {
    && 1 <= First(op) <= Final(op) <= |texts|
    && (op.Edit? && op.expected != [] ==> texts[op.start - 1..op.end] == op.expected)
  }

  /** The line texts the operation puts in place of its range. */
  function Rows(texts: seq<string>, op: Operation): seq<string>
    requires op.Insert? ==> 1 <= op.anchor <= |texts|
  {
    if op.Edit? then RowsOf(op.replacement) else Anchored(texts, op)
  }

  /** The operation on line texts alone. */
  function Asked(texts: seq<string>, op: Operation): Hunk
    requires CanPrepare(texts, op)
  {
    Hunk(First(op), Final(op), Rows(texts, op))
  }

  function AllAsked(texts: seq<string>, ops: seq<Operation>): (r: seq<Hunk>)
    requires forall k :: 0 <= k < |ops| ==> CanPrepare(texts, ops[k])
    ensures |r| == |ops| && forall k :: 0 <= k < |ops| ==> r[k] == Asked(texts, ops[k])
  {
    if ops == [] then [] else [Asked(texts, ops[0])] + AllAsked(texts, ops[1..])
  }

  function ToText(h: Hunk): Hunk { Hunk(h.start, h.end, Texts(h.lines)) }

  /** A prepared hunk fits its file: only a hunk at its very end may leave its last line open. */
  ghost predicate Fits(h: Hunk, n: nat) {
    && InFile(h, n) && FileLines(h.lines)
    && (h.end < n ==> forall k :: 0 <= k < |h.lines| ==> Closed(h.lines[k]))
  }

  predicate CleanRows(op: Operation) { if op.Edit? then NoReturn(op.replacement) else AllNoBreak(op.rows) }

  lemma TextsAreClean(lines: seq<string>)
    requires FileLines(lines)
    ensures AllNoBreak(Texts(lines))
  {
    forall k | 0 <= k < |lines| ensures NoBreak(Text(lines[k])) {
      if !Closed(lines[k]) {
        assert !Ended(lines[k]);
      }
    }
  }

  lemma PreparedEdit(lines: seq<string>, op: Operation)
    requires op.Edit? && CleanRows(op) && CanPrepare(Texts(lines), op)
    ensures Fits(Prepared(lines, op), |lines|) && ToText(Prepared(lines, op)) == Asked(Texts(lines), op)
  {
    ReplacementKeepsTexts(op.replacement, Ended(lines[Final(op) - 1]), Final(op) < |lines|);
  }

  lemma AnchoredIsClean(texts: seq<string>, op: Operation)
    requires op.Insert? && 1 <= op.anchor <= |texts| && AllNoBreak(texts) && AllNoBreak(op.rows)
    ensures AllNoBreak(Anchored(texts, op))
  {
    assert NoBreak(texts[op.anchor - 1]);
  }

  lemma PreparedInsert(lines: seq<string>, op: Operation)
    requires op.Insert? && AllNoBreak(Texts(lines)) && CleanRows(op) && CanPrepare(Texts(lines), op)
    ensures Fits(Prepared(lines, op), |lines|) && ToText(Prepared(lines, op)) == Asked(Texts(lines), op)
  {
    var rows := Anchored(Texts(lines), op);
    AnchoredIsClean(Texts(lines), op);
    ReplacementIsTheRows(rows, Ended(lines[Final(op) - 1]), Final(op) < |lines|);
  }

  lemma PreparedHunk(lines: seq<string>, op: Operation)
    requires FileLines(lines) && CleanRows(op) && CanPrepare(Texts(lines), op)
    ensures Fits(Prepared(lines, op), |lines|) && ToText(Prepared(lines, op)) == Asked(Texts(lines), op)
  {
    TextsAreClean(lines);
    if op.Edit? { PreparedEdit(lines, op); } else { PreparedInsert(lines, op); }
  }

  lemma PreparedWhen(lines: seq<string>, op: Operation, limit: nat)
    ensures Prepare(lines, op, limit).Ok?
      <==> TextBytes(Join(lines)) <= limit && Grounded(op, Join(lines)) && CanPrepare(Texts(lines), op)
    ensures Prepare(lines, op, limit).Ok? ==> Prepare(lines, op, limit).value == Prepared(lines, op)
  {
  }

  /** A hunk can be prepared exactly when the file is not too large, the range is in it and was shown, the
      snapshot is the file as it is now and the old text matches; and then it replaces the range by the
      rows asked for. */
  lemma PreparedMeansAsked(lines: seq<string>, op: Operation, limit: nat)
    requires FileLines(lines) && CleanRows(op)
    ensures Prepare(lines, op, limit).Ok?
      <==> TextBytes(Join(lines)) <= limit && Grounded(op, Join(lines)) && CanPrepare(Texts(lines), op)
    ensures Prepare(lines, op, limit).Ok? ==>
      var h := Prepare(lines, op, limit).value;
      Fits(h, |lines|) && ToText(h) == Asked(Texts(lines), op)
  {
    PreparedWhen(lines, op, limit);
    if Prepare(lines, op, limit).Ok? { PreparedHunk(lines, op); }
  }

  ghost predicate AllCan(texts: seq<string>, ops: seq<Operation>) {
    forall k :: 0 <= k < |ops| ==> CanPrepare(texts, ops[k])
  }

  ghost predicate AllGrounded(ops: seq<Operation>, content: string) {
    forall k :: 0 <= k < |ops| ==> Grounded(ops[k], content)
  }

  lemma AllGroundedHead(ops: seq<Operation>, content: string)
    requires ops != []
    ensures AllGrounded(ops, content) <==> Grounded(ops[0], content) && AllGrounded(ops[1..], content)
  {
    if Grounded(ops[0], content) && AllGrounded(ops[1..], content) {
      forall k | 0 <= k < |ops| ensures Grounded(ops[k], content) {
        if k > 0 { assert ops[k] == ops[1..][k - 1]; }
      }
    }
  }

  ghost predicate Wanted(hunks: seq<Hunk>, lines: seq<string>, ops: seq<Operation>)
    requires AllCan(Texts(lines), ops)
  {
    && |hunks| == |ops|
    && (forall k :: 0 <= k < |ops| ==> Fits(hunks[k], |lines|) && ToText(hunks[k]) == Asked(Texts(lines), ops[k]))
  }

  lemma AllCanHead(texts: seq<string>, ops: seq<Operation>)
    requires ops != []
    ensures AllCan(texts, ops) <==> CanPrepare(texts, ops[0]) && AllCan(texts, ops[1..])
  {
    if CanPrepare(texts, ops[0]) && AllCan(texts, ops[1..]) {
      forall k | 0 <= k < |ops| ensures CanPrepare(texts, ops[k]) {
        if k > 0 { assert ops[k] == ops[1..][k - 1]; }
      }
    }
  }

  lemma WantedHead(h: Hunk, rest: seq<Hunk>, lines: seq<string>, ops: seq<Operation>)
    requires ops != [] && AllCan(Texts(lines), ops) && AllCan(Texts(lines), ops[1..])
    requires Fits(h, |lines|) && ToText(h) == Asked(Texts(lines), ops[0]) && Wanted(rest, lines, ops[1..])
    ensures Wanted([h] + rest, lines, ops)
  {
  }

  lemma {:induction false} AllPreparedMeansAsked(lines: seq<string>, ops: seq<Operation>, limit: nat)
    requires FileLines(lines) && forall k :: 0 <= k < |ops| ==> CleanRows(ops[k])
    ensures PrepareAll(lines, ops, limit).Ok?
      <==> (ops != [] ==> TextBytes(Join(lines)) <= limit) && AllGrounded(ops, Join(lines)) && AllCan(Texts(lines), ops)
    ensures PrepareAll(lines, ops, limit).Ok? ==> Wanted(PrepareAll(lines, ops, limit).value, lines, ops)
    decreases |ops|
  {
    if ops != [] {
      PreparedMeansAsked(lines, ops[0], limit);
      AllPreparedMeansAsked(lines, ops[1..], limit);
      AllCanHead(Texts(lines), ops);
      AllGroundedHead(ops, Join(lines));
      if PrepareAll(lines, ops, limit).Ok? {
        WantedHead(Prepare(lines, ops[0], limit).value, PrepareAll(lines, ops[1..], limit).value, lines, ops);
      }
    }
  }

  // ----- texts and lines

  function TextHunks(hunks: seq<Hunk>): (r: seq<Hunk>)
    ensures |r| == |hunks| && forall k :: 0 <= k < |hunks| ==> r[k] == ToText(hunks[k])
  {
    if hunks == [] then [] else [ToText(hunks[0])] + TextHunks(hunks[1..])
  }

  lemma {:induction false} InsertByStart(h: Hunk, hunks: seq<Hunk>)
    ensures TextHunks(InsertByKey(h, hunks, Start)) == InsertByKey(ToText(h), TextHunks(hunks), Start)
    decreases |hunks|
  {
    if hunks != [] && Start(h) > Start(hunks[0]) { InsertByStart(h, hunks[1..]); }
  }

  lemma {:induction false} OrderOfTexts(hunks: seq<Hunk>)
    ensures TextHunks(InOrder(hunks)) == InOrder(TextHunks(hunks))
    decreases |hunks|
  {
    if hunks != [] {
      OrderOfTexts(hunks[1..]);
      InsertByStart(hunks[0], InOrder(hunks[1..]));
    }
  }

  lemma TextsConcat(a: seq<string>, b: seq<string>)
    ensures Texts(a + b) == Texts(a) + Texts(b)
  {
  }

  lemma FileLinesConcat(a: seq<string>, b: seq<string>)
    requires FileLines(b) && forall k :: 0 <= k < |a| ==> Closed(a[k])
    ensures FileLines(a + b)
  {
  }

  lemma {:induction false} LaidTexts(sorted: seq<Hunk>, from: nat, n: nat)
    requires Laid(sorted, from, n)
    ensures Laid(TextHunks(sorted), from, n)
    decreases |sorted|
  {
    if sorted != [] { LaidTexts(sorted[1..], sorted[0].end, n); }
  }

  /** The substitution does to the texts what it does to the lines. */
  lemma {:induction false} InterleavedTexts(lines: seq<string>, from: nat, sorted: seq<Hunk>)
    requires Laid(sorted, from, |lines|) && Laid(TextHunks(sorted), from, |lines|)
    ensures Texts(Interleaved(lines, from, sorted)) == Interleaved(Texts(lines), from, TextHunks(sorted))
    decreases |sorted|
  {
    if sorted != [] {
      var h := sorted[0];
      var gap, rest := lines[from..h.start - 1], Interleaved(lines, h.end, sorted[1..]);
      InterleavedTexts(lines, h.end, sorted[1..]);
      assert Texts(gap) == Texts(lines)[from..h.start - 1];
      TextsConcat(gap, h.lines);
      TextsConcat(gap + h.lines, rest);
    }
  }

  lemma FileLinesFrom(lines: seq<string>, from: nat)
    requires FileLines(lines) && from <= |lines|
    ensures FileLines(lines[from..])
  {
    forall k | 0 <= k < |lines| - from
      ensures Closed(lines[from..][k]) || (k == |lines| - from - 1 && lines[from..][k] != "" && NoBreak(lines[from..][k]))
    {
      assert lines[from..][k] == lines[from + k];
    }
  }

  /** And it keeps the shape of a file: only the last line may be open. */
  lemma {:induction false} InterleavedShape(lines: seq<string>, from: nat, sorted: seq<Hunk>)
    requires FileLines(lines) && Laid(sorted, from, |lines|)
    requires forall k :: 0 <= k < |sorted| ==> Fits(sorted[k], |lines|)
    ensures FileLines(Interleaved(lines, from, sorted))
    decreases |sorted|
  {
    if sorted == [] {
      FileLinesFrom(lines, from);
    } else {
      var h, n := sorted[0], |lines|;
      var gap, rest := lines[from..h.start - 1], Interleaved(lines, h.end, sorted[1..]);
      InterleavedShape(lines, h.end, sorted[1..]);
      ReplacedShape(h, rest, n, sorted[1..], lines);
      assert gap + h.lines + rest == gap + (h.lines + rest);
      assert forall k :: 0 <= k < |gap| ==> gap[k] == lines[from + k] && from + k < n - 1;
      FileLinesConcat(gap, h.lines + rest);
    }
  }

  lemma ReplacedShape(h: Hunk, rest: seq<string>, n: nat, after: seq<Hunk>, lines: seq<string>)
    requires Fits(h, n) && FileLines(rest) && n == |lines| && Laid(after, h.end, n)
    requires rest == Interleaved(lines, h.end, after)
    ensures FileLines(h.lines + rest)
  {
    if h.end < n {
      FileLinesConcat(h.lines, rest);
    } else {
      assert after == [] && rest == [];
      assert h.lines + rest == h.lines;
    }
  }

  lemma HunksFit(lines: seq<string>, ops: seq<Operation>, hunks: seq<Hunk>)
    requires AllCan(Texts(lines), ops) && Wanted(hunks, lines, ops)
    ensures forall k :: 0 <= k < |hunks| ==> InFile(hunks[k], |lines|)
    ensures forall k :: 0 <= k < |hunks| ==> Fits(InOrder(hunks)[k], |lines|)
    ensures TextHunks(hunks) == AllAsked(Texts(lines), ops)
  {
    SortKeepsMembers(hunks, Start);
    forall k | 0 <= k < |hunks| ensures Fits(InOrder(hunks)[k], |lines|) {
      assert InOrder(hunks)[k] in hunks;
    }
  }

  /** The substitution of prepared hunks, in terms of texts. */
  lemma SubstitutionOfTexts(lines: seq<string>, hunks: seq<Hunk>, asked: seq<Hunk>)
    requires FileLines(lines) && NextApart(InOrder(hunks)) && TextHunks(hunks) == asked
    requires forall k :: 0 <= k < |hunks| ==> InFile(hunks[k], |lines|)
    requires forall k :: 0 <= k < |hunks| ==> Fits(InOrder(hunks)[k], |lines|)
    ensures Laid(InOrder(asked), 0, |lines|)
    ensures Texts(Updated(lines, hunks)) == Interleaved(Texts(lines), 0, InOrder(asked))
    ensures FileLines(Updated(lines, hunks))
  {
    UpdateIsASubstitution(lines, hunks);
    OrderOfTexts(hunks);
    LaidTexts(InOrder(hunks), 0, |lines|);
    InterleavedTexts(lines, 0, InOrder(hunks));
    InterleavedShape(lines, 0, InOrder(hunks));
  }

  /** The updated lines' texts are the old texts with the hunks substituted at once, and the file with
      these lines reads back as exactly them. */
  ghost predicate Substituted(lines: seq<string>, updated: seq<string>, hunks: seq<Hunk>) {
    && Laid(InOrder(hunks), 0, |lines|)
    && Texts(updated) == Interleaved(Texts(lines), 0, InOrder(hunks))
    && FileLines(updated) && SplitLines(Join(updated)) == updated
  }

  /** When an edit succeeds: the line texts afterwards are the asked-for substitution in the old texts,
      and the written file, read again, has exactly the reported lines. */
  lemma EditsDoWhatWasAsked(lines: seq<string>, ops: seq<Operation>, limit: nat)
    requires FileLines(lines) && forall k :: 0 <= k < |ops| ==> CleanRows(ops[k])
    requires EditFile(lines, ops, limit).Ok?
    ensures AllCan(Texts(lines), ops)
    ensures Substituted(lines, EditFile(lines, ops, limit).value, AllAsked(Texts(lines), ops))
  {
    AllPreparedMeansAsked(lines, ops, limit);
    var hunks := PrepareAll(lines, ops, limit).value;
    HunksFit(lines, ops, hunks);
    SubstitutionOfTexts(lines, hunks, AllAsked(Texts(lines), ops));
    ResplitIsStable(Updated(lines, hunks));
  }

  /** No two ranges overlap. */
  ghost predicate RangesApart(ops: seq<Operation>) {
    forall i, j :: 0 <= i < j < |ops| ==> Final(ops[i]) < First(ops[j]) || Final(ops[j]) < First(ops[i])
  }

  lemma ApartIffRangesApart(hunks: seq<Hunk>, ops: seq<Operation>)
    requires |hunks| == |ops|
    requires forall k :: 0 <= k < |ops| ==> hunks[k].start == First(ops[k]) <= Final(ops[k]) == hunks[k].end
    ensures NextApart(InOrder(hunks)) <==> RangesApart(ops)
  {
    NeighboursSuffice(hunks);
    if AllApart(hunks) {
      forall i, j | 0 <= i < j < |ops| ensures Final(ops[i]) < First(ops[j]) || Final(ops[j]) < First(ops[i]) {
        assert Apart(hunks[i], hunks[j]);
      }
    }
  }

  /** Preparation succeeds exactly when the file is not too large to edit and every operation is possible
      on its own; the edit then succeeds exactly when no two ranges overlap and the new size, which is the
      old size with what each hunk adds, is within the limit. */
  lemma EditSucceedsWhen(lines: seq<string>, ops: seq<Operation>, limit: nat)
    requires FileLines(lines) && forall k :: 0 <= k < |ops| ==> CleanRows(ops[k])
    ensures PrepareAll(lines, ops, limit).Ok?
      <==> (ops != [] ==> TextBytes(Join(lines)) <= limit) && AllGrounded(ops, Join(lines)) && AllCan(Texts(lines), ops)
    ensures PrepareAll(lines, ops, limit).Ok? ==>
      (EditFile(lines, ops, limit).Ok?
       <==> RangesApart(ops) && SizeAfter(lines, PrepareAll(lines, ops, limit).value) <= limit)
  {
    AllPreparedMeansAsked(lines, ops, limit);
    if PrepareAll(lines, ops, limit).Ok? {
      var hunks := PrepareAll(lines, ops, limit).value;
      HunksFit(lines, ops, hunks);
      forall k | 0 <= k < |ops| ensures hunks[k].start == First(ops[k]) <= Final(ops[k]) == hunks[k].end {
        assert ToText(hunks[k]) == Asked(Texts(lines), ops[k]);
      }
      ApartIffRangesApart(hunks, ops);
      if NextApart(InOrder(hunks)) { UpdatedBytes(lines, hunks); }
    }
  }

  /** An edit that changed the file makes the snapshots it was written against stale: given again, it is
      refused. */
  lemma SecondEditIsRefused(lines: seq<string>, ops: seq<Operation>, limit: nat)
    requires FileLines(lines) && ops != [] && forall k :: 0 <= k < |ops| ==> CleanRows(ops[k])
    requires EditFile(lines, ops, limit).Ok? && Join(EditFile(lines, ops, limit).value) != Join(lines)
    ensures EditFile(EditFile(lines, ops, limit).value, ops, limit).Err?
  {
    var updated := EditFile(lines, ops, limit).value;
    EditSucceedsWhen(lines, ops, limit);
    EditsDoWhatWasAsked(lines, ops, limit);
    assert Grounded(ops[0], Join(lines));
    EditSucceedsWhen(updated, ops, limit);
    assert !Grounded(ops[0], Join(updated));
  }

  lemma OneHunk(texts: seq<string>, h: Hunk)
    requires InFile(h, |texts|)
    ensures InOrder([h]) == [h] && Laid([h], 0, |texts|)
    ensures Interleaved(texts, 0, [h]) == texts[..h.start - 1] + h.lines + texts[h.end..]
  {
    assert [h][1..] == [];
    assert Laid([h][1..], h.end, |texts|);
    assert SortByKey([h][1..], Start) == [];
    assert texts[0..h.start - 1] == texts[..h.start - 1];
  }

  /** An insertion leaves every old line's text in place around the new rows. */
  lemma InsertionOnlyAdds(lines: seq<string>, op: Operation, limit: nat)
    requires FileLines(lines) && CleanRows(op) && op.Insert?
    requires EditFile(lines, [op], limit).Ok?
    ensures 1 <= op.anchor <= |lines|
    ensures var texts, at := Texts(lines), if op.after then op.anchor else op.anchor - 1;
      Texts(EditFile(lines, [op], limit).value) == texts[..at] + op.rows + texts[at..]
  {
    OneEdit(lines, op, limit);
    InsertedAround(Texts(lines), op, Texts(EditFile(lines, [op], limit).value));
  }

  lemma InsertedAround(texts: seq<string>, op: Operation, updated: seq<string>)
    requires op.Insert? && CanPrepare(texts, op)
    requires updated == texts[..op.anchor - 1] + Asked(texts, op).lines + texts[op.anchor..]
    ensures var at := if op.after then op.anchor else op.anchor - 1;
      updated == texts[..at] + op.rows + texts[at..]
  {
    AroundAnchor(texts, op.anchor, op.rows);
  }

  lemma OneEdit(lines: seq<string>, op: Operation, limit: nat)
    requires FileLines(lines) && CleanRows(op)
    requires EditFile(lines, [op], limit).Ok?
    ensures CanPrepare(Texts(lines), op)
    ensures var texts, h := Texts(lines), Asked(Texts(lines), op);
      Texts(EditFile(lines, [op], limit).value) == texts[..h.start - 1] + h.lines + texts[h.end..]
  {
    EditsDoWhatWasAsked(lines, [op], limit);
    assert CanPrepare(Texts(lines), [op][0]);
    var h := Asked(Texts(lines), op);
    assert AllAsked(Texts(lines), [op]) == [h];
    OneHunk(Texts(lines), h);
  }

  lemma AroundAnchor(texts: seq<string>, a: nat, rows: seq<string>)
    requires 1 <= a <= |texts|
    ensures texts[..a - 1] + ([texts[a - 1]] + rows) + texts[a..] == texts[..a] + rows + texts[a..]
    ensures texts[..a - 1] + (rows + [texts[a - 1]]) + texts[a..] == texts[..a - 1] + rows + texts[a - 1..]
  {
    assert texts[..a] == texts[..a - 1] + [texts[a - 1]];
    assert texts[a - 1..] == [texts[a - 1]] + texts[a..];
  }

  // ----- the loops

  /** `_validate_hashline_hunk_overlap`, for the hunks of one file. */
  method ValidateOverlap(hunks: seq<Hunk>) returns (ok: bool)
    requires forall k :: 0 <= k < |hunks| ==> hunks[k].start <= hunks[k].end
    ensures ok <==> AllApart(hunks)
  {
    NeighboursSuffice(hunks);
    var sorted := InOrder(hunks);
    var previous: Option<Hunk> := None;
    for k := 0 to |sorted|
      invariant previous == if k == 0 then None else Some(sorted[k - 1])
      invariant forall j :: 0 <= j < k - 1 ==> sorted[j].end < sorted[j + 1].start
    {
      if previous.Some? && sorted[k].start <= previous.value.end {
        return false;
      }
      previous := Some(sorted[k]);
    }
    ok := true;
  }

  /** The splice loop. */
  method ApplyHunks(lines: seq<string>, hunks: seq<Hunk>) returns (updated: seq<string>)
    requires forall k :: 0 <= k < |hunks| ==> InFile(hunks[k], |lines|)
    requires AllApart(hunks)
    ensures Laid(InOrder(hunks), 0, |lines|)
    ensures updated == Interleaved(lines, 0, InOrder(hunks))
  {
    NeighboursSuffice(hunks);
    UpdateIsASubstitution(lines, hunks);
    updated := lines;
    var todo := LastFirst(hunks);
    while todo != []
      invariant SpliceAll(updated, todo) == Updated(lines, hunks)
      decreases |todo|
    {
      updated := Splice(updated, todo[0]);
      todo := todo[1..];
    }
  }

  /** One hunk's report: its new first line and the lines shown around it. */
  datatype Context = Context(newStart: int, first: int, last: int)

  /** A report for a replacement of `count` lines at `line` of a file of `size` lines: it says so, and shows what
      there is from three lines before it to four behind it, the replacement included. */
  predicate ContextFits(c: Context, line: int, count: nat, size: nat) {
    && c.newStart == line
    && (if size == 0 then c.first == c.last == 1 else 1 <= c.first == line - Min(3, line - 1) <= c.last == Min(size, line + Max(count, 1) + 3))
    && (count > 0 ==> c.first <= line && line + count - 1 <= c.last)
  }

  method ContextOf(line: int, count: nat, size: nat) returns (c: Context)
    requires 1 <= line && line - 1 + count <= size
    ensures ContextFits(c, line, count, size)
  {
    var newStart := Max(1, line);
    var first := Max(1, newStart - 3);
    var last := Min(size, Max(newStart, newStart + Max(count, 1) + 3));
    if size == 0 { first, last := 1, 1; }
    c := Context(newStart, first, last);
  }

  /** Where each replacement stands, in input order. */
  function Places(hunks: seq<Hunk>): (r: seq<int>)
    ensures |r| == |hunks|
    ensures forall k :: 0 <= k < |hunks| ==> r[k] == hunks[k].start + DeltaBefore(hunks, hunks[k].start)
  {
    seq(|hunks|, k requires 0 <= k < |hunks| => hunks[k].start + DeltaBefore(hunks, hunks[k].start))
  }

  /** Reports in input order: each names the line where its hunk's replacement stands. */
  ghost predicate ReportFits(contexts: seq<Context>, hunks: seq<Hunk>, size: nat) {
    && |contexts| == |hunks|
    && forall k :: 0 <= k < |hunks| ==> ContextFits(contexts[k], Places(hunks)[k], |hunks[k].lines|, size)
  }

  // a hunk with its place in the input

  datatype Numbered = Numbered(index: nat, hunk: Hunk)

  function NumberedStart(n: Numbered): int { Start(n.hunk) }

  function Number(hunks: seq<Hunk>): (r: seq<Numbered>)
    ensures |r| == |hunks| && forall k :: 0 <= k < |hunks| ==> r[k] == Numbered(k, hunks[k])
  {
    seq(|hunks|, k requires 0 <= k < |hunks| => Numbered(k, hunks[k]))
  }

  function Bare(ns: seq<Numbered>): (r: seq<Hunk>)
    ensures |r| == |ns| && forall k :: 0 <= k < |ns| ==> r[k] == ns[k].hunk
  {
    if ns == [] then [] else [ns[0].hunk] + Bare(ns[1..])
  }

  lemma {:induction false} InsertByNumberedStart(n: Numbered, ns: seq<Numbered>)
    ensures Bare(InsertByKey(n, ns, NumberedStart)) == InsertByKey(n.hunk, Bare(ns), Start)
    decreases |ns|
  {
    if ns != [] && NumberedStart(n) > NumberedStart(ns[0]) { InsertByNumberedStart(n, ns[1..]); }
  }

  lemma {:induction false} OrderOfNumbered(ns: seq<Numbered>)
    ensures Bare(SortByKey(ns, NumberedStart)) == InOrder(Bare(ns))
    decreases |ns|
  {
    if ns != [] {
      OrderOfNumbered(ns[1..]);
      InsertByNumberedStart(ns[0], SortByKey(ns[1..], NumberedStart));
    }
  }

  /** The numbered hunks in file order are the hunks in file order, each input position once. */
  lemma NumberedInOrder(hunks: seq<Hunk>, ns: seq<Numbered>)
    requires ns == SortByKey(Number(hunks), NumberedStart)
    ensures |ns| == |hunks| && Bare(ns) == InOrder(hunks)
    ensures forall j :: 0 <= j < |ns| ==> ns[j].index < |hunks| && ns[j].hunk == hunks[ns[j].index]
    ensures forall k :: 0 <= k < |hunks| ==> Numbered(k, hunks[k]) in ns
  {
    assert Bare(Number(hunks)) == hunks;
    OrderOfNumbered(Number(hunks));
    SortKeepsElements(Number(hunks), NumberedStart);
    SortKeepsMembers(Number(hunks), NumberedStart);
    forall j | 0 <= j < |ns| ensures ns[j].index < |hunks| && ns[j].hunk == hunks[ns[j].index] {
      assert ns[j] in Number(hunks);
    }
    forall k | 0 <= k < |hunks| ensures Numbered(k, hunks[k]) in ns {
      assert Number(hunks)[k] in Number(hunks);
    }
  }

  /** The running delta before the `j`-th hunk in file order. */
  function RunningDelta(ns: seq<Numbered>, j: nat): int
    requires j <= |ns|
  {
    if j == 0 then 0 else RunningDelta(ns, j - 1) + Delta(ns[j - 1].hunk)
  }

  lemma {:induction false} RunningDeltaIsShift(ns: seq<Numbered>, j: nat)
    requires j <= |ns|
    ensures RunningDelta(ns, j) == Shift(Bare(ns), j)
  {
    if j > 0 { RunningDeltaIsShift(ns, j - 1); }
  }

  /** The `j`-th hunk in file order has an input position, and the running delta leads to its place. */
  predicate InPlace(ns: seq<Numbered>, hunks: seq<Hunk>, places: seq<int>, j: nat)
    requires j < |ns| && |places| == |hunks|
  {
    var n := ns[j];
    n.index < |hunks| && n.hunk == hunks[n.index] && n.hunk.start + RunningDelta(ns, j) == places[n.index]
  }

  lemma SortedIsInPlace(hunks: seq<Hunk>, ns: seq<Numbered>, j: nat)
    requires ns == SortByKey(Number(hunks), NumberedStart) && Strictly(InOrder(hunks), Start) && j < |ns|
    ensures InPlace(ns, hunks, Places(hunks), j)
  {
    NumberedInOrder(hunks, ns);
    RunningDeltaIsShift(ns, j);
    ShiftIs(InOrder(hunks), j);
    DeltaBeforeInOrder(hunks, ns[j].hunk.start);
  }

  /** A replacement at this place lies in the file. */
  predicate Lies(place: int, h: Hunk, size: nat) { 1 <= place && place - 1 + |h.lines| <= size }

  lemma ReportedLies(updated: seq<string>, hunks: seq<Hunk>, k: nat)
    requires k < |hunks| && Reported(updated, hunks, k)
    ensures Lies(Places(hunks)[k], hunks[k], |updated|)
  {
  }

  /** The reports made so far fit. */
  ghost predicate Reports(byIndex: map<nat, Context>, hunks: seq<Hunk>, places: seq<int>, size: nat)
    requires |places| == |hunks|
  {
    forall k :: k in byIndex ==> k < |hunks| && ContextFits(byIndex[k], places[k], |hunks[k].lines|, size)
  }

  /** `_hashline_hunk_contexts`: reports are made in file order and returned in input order. */
  method Contexts(hunks: seq<Hunk>, updated: seq<string>) returns (contexts: seq<Context>)
    requires forall k :: 0 <= k < |hunks| ==> Reported(updated, hunks, k)
    requires Strictly(InOrder(hunks), Start)
    ensures ReportFits(contexts, hunks, |updated|)
  {
    var ns := SortByKey(Number(hunks), NumberedStart);
    NumberedInOrder(hunks, ns);
    forall j | 0 <= j < |ns| ensures InPlace(ns, hunks, Places(hunks), j) { SortedIsInPlace(hunks, ns, j); }
    forall k | 0 <= k < |hunks| ensures Lies(Places(hunks)[k], hunks[k], |updated|) { ReportedLies(updated, hunks, k); }
    var byIndex := ReportInFileOrder(ns, hunks, Places(hunks), |updated|);
    EveryIndexReported(hunks, ns, byIndex);
    contexts := seq(|hunks|, k requires 0 <= k < |hunks| && k in byIndex => byIndex[k]);
  }

  /** The report loop, hunks in file order. */
  method ReportInFileOrder(ns: seq<Numbered>, hunks: seq<Hunk>, ghost places: seq<int>, size: nat)
    returns (byIndex: map<nat, Context>)
    requires |places| == |hunks|
    requires forall j :: 0 <= j < |ns| ==> InPlace(ns, hunks, places, j)
    requires forall k :: 0 <= k < |hunks| ==> Lies(places[k], hunks[k], size)
    ensures Reports(byIndex, hunks, places, size)
    ensures forall j :: 0 <= j < |ns| ==> ns[j].index in byIndex
  {
    byIndex := map[];
    var delta, j := 0, 0;
    while j < |ns|
      invariant 0 <= j <= |ns|
      invariant delta == RunningDelta(ns, j)
      invariant forall i :: 0 <= i < j ==> ns[i].index in byIndex
      invariant Reports(byIndex, hunks, places, size)
    {
      assert InPlace(ns, hunks, places, j);
      var index, h := ns[j].index, ns[j].hunk;
      assert Lies(places[index], hunks[index], size);
      var c := ContextOf(h.start + delta, |h.lines|, size);
      byIndex := byIndex[index := c];
      delta := delta + Delta(h);
      j := j + 1;
    }
  }

  lemma EveryIndexReported(hunks: seq<Hunk>, ns: seq<Numbered>, byIndex: map<nat, Context>)
    requires forall k :: 0 <= k < |hunks| ==> Numbered(k, hunks[k]) in ns
    requires forall i :: 0 <= i < |ns| ==> ns[i].index in byIndex
    ensures forall k :: 0 <= k < |hunks| ==> k in byIndex
  {
    forall k | 0 <= k < |hunks| ensures k in byIndex { NumberReported(ns, Numbered(k, hunks[k]), byIndex); }
  }

  lemma NumberReported(ns: seq<Numbered>, n: Numbered, byIndex: map<nat, Context>)
    requires n in ns && forall i :: 0 <= i < |ns| ==> ns[i].index in byIndex
    ensures n.index in byIndex
  {
    var i :| 0 <= i < |ns| && ns[i] == n;
  }

  function Following(prepared: seq<Hunk>, rest: Result<seq<Hunk>>): Result<seq<Hunk>> {
    if rest.Err? then rest else Ok(prepared + rest.value)
  }

  method PrepareHunks(lines: seq<string>, ops: seq<Operation>, limit: nat) returns (hunks: Result<seq<Hunk>>)
    ensures hunks == PrepareAll(lines, ops, limit)
    ensures hunks.Ok? ==> forall k :: 0 <= k < |hunks.value| ==> InFile(hunks.value[k], |lines|)
  {
    var prepared: seq<Hunk> := [];
    var i := 0;
    assert ops[0..] == ops;
    FollowingNothing(PrepareAll(lines, ops, limit));
    while i < |ops|
      invariant 0 <= i <= |ops|
      invariant Following(prepared, PrepareAll(lines, ops[i..], limit)) == PrepareAll(lines, ops, limit)
      invariant forall k :: 0 <= k < |prepared| ==> InFile(prepared[k], |lines|)
    {
      var hunk := Prepare(lines, ops[i], limit);
      assert ops[i..][1..] == ops[i + 1..];
      if hunk.Err? { return Err(hunk.error); }
      FollowingOneMore(prepared, hunk.value, PrepareAll(lines, ops[i + 1..], limit));
      prepared := prepared + [hunk.value];
      i := i + 1;
    }
    assert prepared + [] == prepared;
    hunks := Ok(prepared);
  }

  lemma FollowingNothing(rest: Result<seq<Hunk>>)
    ensures Following([], rest) == rest
  {
    if rest.Ok? { assert [] + rest.value == rest.value; }
  }

  lemma FollowingOneMore(prepared: seq<Hunk>, h: Hunk, rest: Result<seq<Hunk>>)
    ensures rest.Ok? ==> prepared + ([h] + rest.value) == (prepared + [h]) + rest.value
  {
  }

  /** `_hashline_edit_locked` for one file: the first operation that cannot be prepared, an overlap or a
      result over the limit refuses the edit; otherwise the file becomes the substitution and the reports,
      in input order, fit their hunks. */
  method EditLocked(lines: seq<string>, ops: seq<Operation>, limit: nat)
    returns (result: Result<seq<string>>, contexts: seq<Context>)
    ensures result == EditFile(lines, ops, limit)
    ensures result.Ok? ==> ReportFits(contexts, PrepareAll(lines, ops, limit).value, |result.value|)
  {
    var hunks := PrepareHunks(lines, ops, limit);
    if hunks.Err? { return Err(hunks.error), []; }
    NeighboursSuffice(hunks.value);
    var apart := ValidateOverlap(hunks.value);
    if !apart { return Err(Overlap), []; }
    var updated := ApplyHunks(lines, hunks.value);
    UpdateIsASubstitution(lines, hunks.value);
    if TextBytes(Join(updated)) > limit { return Err(ResultTooLarge), []; }
    SortedHunks(hunks.value, |lines|);
    ReplacementsAreWhereReported(lines, hunks.value);
    contexts := Contexts(hunks.value, updated);
    result := Ok(updated);
  }
}
