/** From printed rows to the edited file: copying, editing, parsing and applying. */
module HashlineRoundTrip {
  import opened HashlineText
  import opened HashlineEdit
  import Apply = HashlineApply
  import Parse = HashlineParse

  function OldTexts(rows: seq<Parse.Row>): (r: seq<string>)
    ensures |r| == |rows| && forall k :: 0 <= k < |rows| ==> r[k] == rows[k].text
  {
    seq(|rows|, k requires 0 <= k < |rows| => rows[k].text)
  }

  /** What the session's snapshots say about a file, by path and snapshot id. */
  type Snapshots = map<(string, string), Apply.View>

  function ViewOf(path: string, snapshot: string, snapshots: Snapshots): Apply.View {
    if (path, snapshot) in snapshots then snapshots[(path, snapshot)] else Apply.NotFound
  }

  /** A parsed hunk as the operation applied to its file. */
  function ToOperation(p: Parse.Parsed, snapshots: Snapshots): Apply.Operation {
    match p
    case Edit(path, id, start, end, replacement, expected) =>
      Apply.Edit(start, end, replacement, OldTexts(expected), ViewOf(path, id, snapshots))
    case Insert(path, id, anchor, after, rows) => Apply.Insert(anchor, after, rows, ViewOf(path, id, snapshots))
  }

  function ToOperations(ps: seq<Parse.Parsed>, snapshots: Snapshots): (r: seq<Apply.Operation>)
    ensures |r| == |ps| && forall k :: 0 <= k < |ps| ==> r[k] == ToOperation(ps[k], snapshots)
  {
    seq(|ps|, k requires 0 <= k < |ps| => ToOperation(ps[k], snapshots))
  }

  /** The old lines a written edit names. */
  function FirstLine(w: Parse.Written): nat {
    match w
    case Copied(olds, _) => if olds == [] then 0 else olds[0].line
    case Swap(start, _, _) => start
    case InsertAt(anchor, _, _) => anchor
  }

  function LastLine(w: Parse.Written): nat {
    match w
    case Copied(olds, _) => if olds == [] then 0 else olds[|olds| - 1].line
    case Swap(_, end, _) => end
    case InsertAt(anchor, _, _) => anchor
  }

  /** The edit names lines of this file, and copied rows show their texts. */
  predicate Names(w: Parse.Written, texts: seq<string>) {
    && 1 <= FirstLine(w) <= LastLine(w) <= |texts|
    && (w.Copied? ==> |w.olds| == LastLine(w) - FirstLine(w) + 1
                      && forall k :: 0 <= k < |w.olds| ==> w.olds[k].text == texts[FirstLine(w) - 1 + k])
  }

  /** The same edit on line texts: its lines become its rows; an insertion keeps its anchor. */
  function OnTexts(w: Parse.Written, texts: seq<string>): Hunk
    requires Names(w, texts)
  {
    Hunk(FirstLine(w), LastLine(w),
         if w.InsertAt? then (if w.after then [texts[w.anchor - 1]] + w.rows else w.rows + [texts[w.anchor - 1]]) else w.rows)
  }

  predicate AllName(blocks: seq<Parse.Block>, texts: seq<string>) {
    forall k :: 0 <= k < |blocks| ==> Names(blocks[k].edit, texts)
  }

  function AllOnTexts(blocks: seq<Parse.Block>, texts: seq<string>): (r: seq<Hunk>)
    requires AllName(blocks, texts)
    ensures |r| == |blocks| && forall k :: 0 <= k < |blocks| ==> r[k] == OnTexts(blocks[k].edit, texts)
  {
    seq(|blocks|, k requires 0 <= k < |blocks| => OnTexts(blocks[k].edit, texts))
  }

  lemma {:induction false} MeantAt(blocks: seq<Parse.Block>, k: nat)
    requires k < |blocks|
    ensures Parse.AllMeant(blocks)[k] == Parse.Meant(blocks[k])
    decreases |blocks|
  {
    if k < |blocks| - 1 { MeantAt(blocks[..|blocks| - 1], k); }
  }

  lemma ReplacementHasNoReturn(rows: seq<string>)
    requires AllNoBreak(rows)
    ensures NoReturn(ReplacementText(rows)) && RowsOf(ReplacementText(rows)) == rows
  {
    ReplacementIsTheRows(rows, true, true);
    JoinedHasNoReturn(rows);
  }

  lemma {:induction false} JoinedHasNoReturn(rows: seq<string>)
    requires AllNoBreak(rows)
    ensures NoReturn(JoinRows(rows))
    decreases |rows|
  {
    if |rows| > 1 { JoinedHasNoReturn(rows[1..]); }
  }

  /** The snapshot holds these contents and showed these lines. */
  predicate Shows(view: Apply.View, first: nat, last: nat, content: string) {
    view.Shown? && view.content == content && (view.ranges == [] || Apply.Visible(first, last, view.ranges))
  }

  /** A written edit that can be read, names lines of the file and was shown them in the file as it is now. */
  predicate Fitting(b: Parse.Block, texts: seq<string>, content: string, snapshots: Snapshots) {
    && Parse.Writable(b) && Parse.Unbroken(b) && Names(b.edit, texts)
    && Shows(ViewOf(b.path, b.snapshot, snapshots), FirstLine(b.edit), LastLine(b.edit), content)
  }

  lemma OldTextsNamed(w: Parse.Written, texts: seq<string>)
    requires w.Copied? && w.olds != [] && Names(w, texts)
    ensures OldTexts(w.olds) == texts[FirstLine(w) - 1..LastLine(w)]
  {
  }

  /** The operation can be prepared on these texts and asks for the edit. */
  predicate AsksFor(op: Apply.Operation, w: Parse.Written, texts: seq<string>) {
    && Names(w, texts)
    && Apply.CleanRows(op) && Apply.CanPrepare(texts, op)
    && Apply.First(op) == FirstLine(w) && Apply.Final(op) == LastLine(w)
    && Apply.Asked(texts, op) == OnTexts(w, texts)
  }

  lemma ReplacementAsked(start: nat, end: nat, rows: seq<string>, expected: seq<string>, view: Apply.View, texts: seq<string>)
    requires AllNoBreak(rows) && 1 <= start <= end <= |texts|
    requires expected != [] ==> texts[start - 1..end] == expected
    ensures var op := Apply.Edit(start, end, ReplacementText(rows), expected, view);
      Apply.CleanRows(op) && Apply.CanPrepare(texts, op) && Apply.Asked(texts, op) == Hunk(start, end, rows)
  {
    ReplacementHasNoReturn(rows);
  }

  lemma CopiedIsAsked(w: Parse.Written, view: Apply.View, texts: seq<string>)
    requires w.Copied? && w.olds != [] && AllNoBreak(w.rows) && Names(w, texts)
    ensures AsksFor(Apply.Edit(FirstLine(w), LastLine(w), ReplacementText(w.rows), OldTexts(w.olds), view), w, texts)
  {
    OldTextsNamed(w, texts);
    ReplacementAsked(FirstLine(w), LastLine(w), w.rows, OldTexts(w.olds), view, texts);
  }

  lemma SwapIsAsked(w: Parse.Written, view: Apply.View, texts: seq<string>)
    requires w.Swap? && AllNoBreak(w.rows) && Names(w, texts)
    ensures AsksFor(Apply.Edit(w.start, w.end, ReplacementText(w.rows), [], view), w, texts)
  {
    ReplacementAsked(w.start, w.end, w.rows, [], view, texts);
  }

  lemma InsertIsAsked(w: Parse.Written, view: Apply.View, texts: seq<string>)
    requires w.InsertAt? && AllNoBreak(w.rows) && Names(w, texts)
    ensures AsksFor(Apply.Insert(w.anchor, w.after, w.rows, view), w, texts)
  {
  }

  /** What one written edit becomes can be prepared on a file it names, and asks for that edit. */
  lemma WrittenIsAsked(b: Parse.Block, texts: seq<string>, content: string, snapshots: Snapshots)
    requires Fitting(b, texts, content, snapshots)
    ensures AsksFor(ToOperation(Parse.Meant(b), snapshots), b.edit, texts)
    ensures Apply.Grounded(ToOperation(Parse.Meant(b), snapshots), content)
  {
    var view := ViewOf(b.path, b.snapshot, snapshots);
    match b.edit
    case Copied(olds, rows) => CopiedIsAsked(b.edit, view, texts);
    case Swap(start, end, rows) =>
      assert OldTexts([]) == [];
      SwapIsAsked(b.edit, view, texts);
    case InsertAt(anchor, after, rows) => InsertIsAsked(b.edit, view, texts);
  }

  lemma AllWrittenAreAsked(blocks: seq<Parse.Block>, ops: seq<Apply.Operation>, texts: seq<string>, content: string,
                          snapshots: Snapshots)
    requires forall k :: 0 <= k < |blocks| ==> Fitting(blocks[k], texts, content, snapshots)
    requires ops == ToOperations(Parse.AllMeant(blocks), snapshots)
    ensures AllName(blocks, texts)
    ensures forall k :: 0 <= k < |ops| ==> Apply.CleanRows(ops[k])
    ensures Apply.AllCan(texts, ops) && Apply.AllGrounded(ops, content)
    ensures Apply.AllAsked(texts, ops) == AllOnTexts(blocks, texts)
    ensures forall k :: 0 <= k < |ops| ==>
      Apply.First(ops[k]) == FirstLine(blocks[k].edit) && Apply.Final(ops[k]) == LastLine(blocks[k].edit)
  {
    forall k | 0 <= k < |blocks| ensures AsksFor(ops[k], blocks[k].edit, texts) && Apply.Grounded(ops[k], content) {
      MeantAt(blocks, k);
      WrittenIsAsked(blocks[k], texts, content, snapshots);
    }
  }

  /** No two written edits name a line in common. */
  predicate LinesApart(blocks: seq<Parse.Block>) {
    forall i, j :: 0 <= i < j < |blocks| ==>
      LastLine(blocks[i].edit) < FirstLine(blocks[j].edit) || LastLine(blocks[j].edit) < FirstLine(blocks[i].edit)
  }

  /** The input text of some edits, one line after the other. */
  function InputText(blocks: seq<Parse.Block>): string { JoinRows(Parse.Print(blocks)) }

  /** The operations the input text parses to. */
  function Operations(blocks: seq<Parse.Block>, snapshots: Snapshots): seq<Apply.Operation> {
    ToOperations(Parse.AllMeant(blocks), snapshots)
  }

  /** Edits written against one file, on lines that were shown and do not overlap, all parse. The edit
      succeeds exactly when the old and the new size are within the limit; afterwards the file's line texts
      are the written edits substituted at once, and the file reads back as its lines. */
  lemma WrittenEditsTakeEffect(lines: seq<string>, blocks: seq<Parse.Block>, snapshots: Snapshots, limit: nat)
    requires FileLines(lines) && blocks != [] && LinesApart(blocks)
    requires forall k :: 0 <= k < |blocks| ==> Fitting(blocks[k], Texts(lines), Join(lines), snapshots)
    ensures Parse.ParseText(InputText(blocks)) == Parse.Ok(Parse.AllMeant(blocks))
    ensures AllName(blocks, Texts(lines))
    ensures var prepared := Apply.PrepareAll(lines, Operations(blocks, snapshots), limit);
      var result := Apply.EditFile(lines, Operations(blocks, snapshots), limit);
      && (prepared.Ok? <==> TextBytes(Join(lines)) <= limit)
      && (prepared.Ok? ==> (result.Ok? <==> SizeAfter(lines, prepared.value) <= limit))
      && (result.Ok? ==> prepared.Ok? && Apply.Substituted(lines, result.value, AllOnTexts(blocks, Texts(lines))))
  {
    Parse.PrintedInputReadsBack(blocks);
    AllWrittenAreAsked(blocks, Operations(blocks, snapshots), Texts(lines), Join(lines), snapshots);
    WrittenRangesApart(blocks, Operations(blocks, snapshots));
    OperationsTakeEffect(lines, Operations(blocks, snapshots), AllOnTexts(blocks, Texts(lines)), limit);
  }

  lemma WrittenRangesApart(blocks: seq<Parse.Block>, ops: seq<Apply.Operation>)
    requires |ops| == |blocks| && LinesApart(blocks)
    requires forall k :: 0 <= k < |ops| ==>
      Apply.First(ops[k]) == FirstLine(blocks[k].edit) && Apply.Final(ops[k]) == LastLine(blocks[k].edit)
    ensures Apply.RangesApart(ops)
  {
  }

  lemma OperationsTakeEffect(lines: seq<string>, ops: seq<Apply.Operation>, asked: seq<Hunk>, limit: nat)
    requires FileLines(lines) && ops != [] && Apply.RangesApart(ops)
    requires forall k :: 0 <= k < |ops| ==> Apply.CleanRows(ops[k])
    requires Apply.AllGrounded(ops, Join(lines))
    requires Apply.AllCan(Texts(lines), ops) && Apply.AllAsked(Texts(lines), ops) == asked
    ensures var prepared, result := Apply.PrepareAll(lines, ops, limit), Apply.EditFile(lines, ops, limit);
      && (prepared.Ok? <==> TextBytes(Join(lines)) <= limit)
      && (prepared.Ok? ==> (result.Ok? <==> SizeAfter(lines, prepared.value) <= limit))
      && (result.Ok? ==> prepared.Ok? && Apply.Substituted(lines, result.value, asked))
  {
    Apply.EditSucceedsWhen(lines, ops, limit);
    if Apply.EditFile(lines, ops, limit).Ok? { Apply.EditsDoWhatWasAsked(lines, ops, limit); }
  }
}
