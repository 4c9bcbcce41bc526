/** Deferred-update journal: what one transaction reads back, replays and may remove. */
module Journal {
  import opened Common
  import opened Decimal
  import opened JobState

  datatype JournalContent = Recorded(key: JobKey, update: ManagedUpdate) | Invalid

  /** One journal file. A directory listing is a sequence of entries in file-name order. */
  datatype Entry = Entry(id: UpdateId, content: JournalContent)
  {
    predicate For(key: JobKey) { content.Recorded? && content.key == key }
  }

  /** A store file as `load_store_file` sees it. */
  datatype StoreFile = Absent | Damaged | Stored(rows: seq<JobRow>)

  /** `load_store`: the primary, else the backup, else an empty store only if neither exists. */
  function LoadStore(primary: StoreFile, backup: StoreFile): Option<seq<JobRow>> {
    if primary.Stored? then Some(primary.rows)
    else if backup.Stored? then Some(backup.rows)
    else if primary.Absent? && backup.Absent? then Some([])
    else None
  }

  function Ids(entries: seq<Entry>): set<UpdateId> {
    set e | e in entries :: e.id
  }

  /** Replayed ids that still have a journal file, in order. */
  function StillListed(ids: seq<UpdateId>, listed: set<UpdateId>): (r: seq<UpdateId>)
    ensures forall x :: x in r <==> x in ids && x in listed
  {
    if ids == [] then []
    else (if ids[0] in listed then [ids[0]] else []) + StillListed(ids[1..], listed)
  }

  function TrimRow(r: JobRow, listed: set<UpdateId>): JobRow {
    r.(applied := StillListed(r.applied, listed))
  }

  function TrimAll(rows: seq<JobRow>, listed: set<UpdateId>): seq<JobRow> {
    seq(|rows|, i requires 0 <= i < |rows| => TrimRow(rows[i], listed))
  }

  /** After trimming a row lists exactly those of its ids that still have a file, and is otherwise the same. */
  lemma TrimmedIds(rows: seq<JobRow>, entries: seq<Entry>, i: nat, id: UpdateId)
    requires i < |rows|
    ensures var r := TrimAll(rows, Ids(entries))[i];
      && r == rows[i].(applied := r.applied)
      && (id in r.applied <==> id in rows[i].applied && exists e :: e in entries && e.id == id)
  {
  }

  /** In their old order. */
  lemma {:induction false} TrimmedInOrder(ids: seq<UpdateId>, listed: set<UpdateId>, a: seq<UpdateId>, b: seq<UpdateId>)
    requires ids == a + b
    ensures StillListed(ids, listed) == StillListed(a, listed) + StillListed(b, listed)
    decreases |a|
  {
    if a == [] {
      assert ids == b;
    } else {
      assert ids[1..] == a[1..] + b;
      TrimmedInOrder(ids[1..], listed, a[1..], b);
    }
  }

  /** Replay one journal file into the store. A file that cannot be read, holds no valid record,
      names no row, or is already listed in its row changes nothing; an update that raises keeps
      its partial change but is not listed. */
  function ReplayEntry(rows: seq<JobRow>, e: Entry, unreadable: set<UpdateId>, now: int): seq<JobRow> {
    if e.id in unreadable || e.content.Invalid? then rows
    else
      var i := FindSessionJob(rows, e.content.key);
      if i == |rows| || e.id in rows[i].applied then rows
      else
        var a := ApplyManagedUpdate(rows[i], e.content.update, now);
        if !a.ok then rows[i := a.row]
        else rows[i := a.row.(applied := rows[i].applied + [e.id])]
  }

  function Replay(rows: seq<JobRow>, entries: seq<Entry>, unreadable: set<UpdateId>, now: int): seq<JobRow> {
    if entries == [] then rows
    else
      var n := |entries| - 1;
      ReplayEntry(Replay(rows, entries[..n], unreadable, now), entries[n], unreadable, now)
  }

  /** Files the transaction may unlink once the store is saved: every file it could open. */
  function Removable(entries: seq<Entry>, unreadable: set<UpdateId>): (r: seq<UpdateId>)
    ensures forall x :: x in r <==> x in Ids(entries) && x !in unreadable
  {
    if entries == [] then []
    else
      var n := |entries| - 1;
      assert entries == entries[..n] + [entries[n]];
      Removable(entries[..n], unreadable) + (if entries[n].id in unreadable then [] else [entries[n].id])
  }

  function WithoutId(entries: seq<Entry>, id: UpdateId): (r: seq<Entry>)
    ensures forall e :: e in r <==> e in entries && e.id != id
    ensures |r| <= |entries|
  {
    if entries == [] then []
    else (if entries[0].id == id then [] else [entries[0]]) + WithoutId(entries[1..], id)
  }

  /** No two files have the same name. */
  ghost predicate DistinctIds(entries: seq<Entry>) {
    forall i, j :: 0 <= i < j < |entries| ==> entries[i].id != entries[j].id
  }

  // ----- names

  const SEQUENCE_WIDTH := 20

  /** The stem of one journal file. */
  function FileName(id: UpdateId): string {
    Padded(id.sequence, SEQUENCE_WIDTH) + ("-" + Padded(id.stamp, SEQUENCE_WIDTH) + "-" + id.nonce)
  }

  predicate NamedBefore(a: UpdateId, b: UpdateId) { Before(FileName(a), FileName(b)) }

  /** Where a new file appears in a listing sorted by name: behind the last file whose name sorts before
      its own. */
  function NamePlace(entries: seq<Entry>, id: UpdateId): (at: nat)
    ensures at <= |entries|
    ensures forall i :: at <= i < |entries| ==> !NamedBefore(entries[i].id, id)
    ensures at > 0 ==> NamedBefore(entries[at - 1].id, id)
  {
    if entries == [] then 0
    else
      var n := |entries| - 1;
      LastApart(entries);
      if NamedBefore(entries[n].id, id) then n + 1 else NamePlace(entries[..n], id)
  }

  function Inserted(entries: seq<Entry>, at: nat, e: Entry): seq<Entry>
    requires at <= |entries|
  {
    entries[..at] + [e] + entries[at..]
  }

  /** The next free sequence number over the listed files. */
  function NextFree(entries: seq<Entry>): (n: nat)
    ensures forall e :: e in entries ==> e.id.sequence < n
    ensures n == 0 || exists e :: e in entries && e.id.sequence == n - 1
  {
    if entries == [] then 0
    else
      var m := |entries| - 1;
      assert entries == entries[..m] + [entries[m]];
      var rest := NextFree(entries[..m]);
      if entries[m].id.sequence + 1 > rest then
        assert entries[m] in entries;
        entries[m].id.sequence + 1
      else rest
  }

  /** A log record that a repeated replay counts again: its bytes convert, its time stamp does not. */
  predicate CountsAgain(u: ManagedUpdate) {
    u.AppendLog? && u.bytes.Number? && u.bytes.n > 0 && u.updatedAt.Junk?
  }

  /** A finish that a replay at another time applies again: it leaves the row active, gives no completion
      time, and its result does not fit, so that it raises after its changes. */
  predicate FinishesAgain(row: JobRow, u: ManagedUpdate) {
    && u.Finish? && row.status.Active() && u.status.Some? && u.status.value.Active()
    && !u.completedAt.Junk? && (u.completedAt.Missing? || u.completedAt.n == 0)
    && u.result.Some? && !u.result.value.Fits()
  }

  lemma ReplayAlone(row: JobRow, e: Entry, now: int)
    requires e.For(row.key)
    ensures ReplayEntry([row], e, {}, now) ==
      if e.id in row.applied then [row]
      else
        var a := ApplyManagedUpdate(row, e.content.update, now);
        [if a.ok then a.row.(applied := row.applied + [e.id]) else a.row]
  {
    assert FindSessionJob([row], row.key) == 0;
  }

  /** Replaying one surviving file in a second transaction, at any later time, changes nothing, unless the
      record is one of those two; the runtime writes neither (see `WellFormed`). */
  lemma SecondReplayChangesNothing(row: JobRow, e: Entry, first: int, second: int)
    requires e.For(row.key) && e.id !in row.applied
    ensures var once := ReplayEntry([row], e, {}, first);
      var twice := ReplayEntry(once, e, {}, second);
      && |once| == |twice| == 1
      && (Content(twice[0]) == Content(once[0]) <==>
            !CountsAgain(e.content.update) && !(FinishesAgain(row, e.content.update) && first != second))
  {
    var u := e.content.update;
    ReplayAlone(row, e, first);
    var once := ReplayEntry([row], e, {}, first)[0];
    ReplayAlone(once, e, second);
    if u.Finish? {
      if !ApplyManagedUpdate(row, u, first).ok { FinishTwice(row, u, first, second); }
    } else {
      OtherTwice(row, u, first, second);
    }
  }

  lemma OtherTwice(row: JobRow, u: ManagedUpdate, first: int, second: int)
    requires !u.Finish?
    ensures var a := ApplyManagedUpdate(row, u, first);
      !a.ok ==> (Content(ApplyManagedUpdate(a.row, u, second).row) == Content(a.row) <==> !CountsAgain(u))
    ensures CountsAgain(u) ==> !ApplyManagedUpdate(row, u, first).ok
  {
  }

  lemma FinishTwice(row: JobRow, u: ManagedUpdate, first: int, second: int)
    requires u.Finish? && !ApplyManagedUpdate(row, u, first).ok
    ensures var once := ApplyManagedUpdate(row, u, first).row;
      var again := ApplyManagedUpdate(once, u, second).row;
      Content(again) == Content(once) <==> !(FinishesAgain(row, u) && first != second)
  {
  }
}
