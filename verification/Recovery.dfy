/** The job store on disk and the operations that change it in place. */
module Recovery {
  import opened Common
  import opened JobState
  import opened Decimal
  import opened Journal
  import opened JournalNames
  import opened Retention

  /** Unlink each queued file unless the file system refuses. */
  function WithoutIds(entries: seq<Entry>, ids: seq<UpdateId>, stuck: set<UpdateId>): seq<Entry> {
    if ids == [] then entries
    else
      var n := |ids| - 1;
      var rest := WithoutIds(entries, ids[..n], stuck);
      if ids[n] in stuck then rest else WithoutId(rest, ids[n])
  }

  /** How one managed update ended. */
  datatype Outcome = Committed | JobMissing | Refused | Unloadable | WriteFailed | Journaled | TooLarge

  /** How far a save gets: each file is replaced as a whole, the primary first. */
  datatype Writes = NoFile | PrimaryOnly | BothFiles

  const MANAGED_DEFERRED_MAX_RECORD_BYTES := 524_288

  const MANAGED_JOB_STORE_RETRY_ATTEMPTS := 2

  /** How a transaction around one direct update ends, and the rows it saves when it commits: the
      loaded rows with the journal replayed first, then the update, then pruning. */
  function UpdateResult(primary: StoreFile, backup: StoreFile, journal: seq<Entry>, key: JobKey,
                        update: ManagedUpdate, unreadable: set<UpdateId>, limit: int, now: int)
    : (Outcome, seq<JobRow>)
  {
    var loaded := LoadStore(primary, backup);
    if loaded.None? then (Unloadable, [])
    else
      var jobs := Replay(TrimAll(loaded.value, Ids(journal)), journal, unreadable, now);
      var at := FindSessionJob(jobs, key);
      if at == |jobs| then
        if update.AppendLog? then (Committed, PruneStore(jobs, limit)) else (JobMissing, [])
      else
        var result := ApplyManagedUpdate(jobs[at], update, now);
        if result.ok then (Committed, PruneStore(jobs[at := result.row], limit)) else (Refused, [])
  }

  /** The two store files and the journal directory. */
  datatype Files = Files(primary: StoreFile, backup: StoreFile, journal: seq<Entry>)

  /** One attempt at a direct update: the wait for the lock, or the load, times out; or the transaction
      runs, its writes getting as far as `writes`, and `timedOut` says whether the write that fails is
      reported as a timeout. `unreadable` files cannot be opened, `stuck` ones not unlinked. */
  datatype Try =
    | Busy
    | Runs(unreadable: set<UpdateId>, stuck: set<UpdateId>, writes: Writes, timedOut: bool, now: int)

  /** What one transaction around an update leaves: nothing changes unless its body completes; a failed
      write leaves the files written so far and the whole journal; files are unlinked only after both
      writes. */
  function TransactionResult(f: Files, key: JobKey, update: ManagedUpdate, a: Try, limit: int): (Outcome, Files)
    requires a.Runs?
  {
    var (o, rows) := UpdateResult(f.primary, f.backup, f.journal, key, update, a.unreadable, limit, a.now);
    if o != Committed then (o, f)
    else match a.writes
      case NoFile => (WriteFailed, f)
      case PrimaryOnly => (WriteFailed, f.(primary := Stored(rows)))
      case BothFiles =>
        (Committed, Files(Stored(rows), Stored(rows), WithoutIds(f.journal, Removable(f.journal, a.unreadable), a.stuck)))
  }

  /** Direct attempts one after the other: one that times out, in its wait or in a write, is followed by
      the next; any other decides. */
  function Attempts(f: Files, key: JobKey, update: ManagedUpdate, attempts: seq<Try>, limit: int): (Option<Outcome>, Files)
    decreases |attempts|
  {
    if attempts == [] then (None, f)
    else if attempts[0].Busy? then Attempts(f, key, update, attempts[1..], limit)
    else
      var (o, g) := TransactionResult(f, key, update, attempts[0], limit);
      if o.WriteFailed? && attempts[0].timedOut then Attempts(g, key, update, attempts[1..], limit) else (Some(o), g)
  }

  /** What a deferral leaves: the store files stay and the journal has the update in its place by name,
      unless its record is too large. */
  function Deferral(f: Files, sequence: nat, key: JobKey, update: ManagedUpdate, size: nat, stamp: nat, nonce: string)
    : (Outcome, Files)
  {
    var id := UpdateId(sequence, stamp, nonce);
    if size > MANAGED_DEFERRED_MAX_RECORD_BYTES then (TooLarge, f)
    else (Journaled, f.(journal := Inserted(f.journal, NamePlace(f.journal, id), Entry(id, Recorded(key, update)))))
  }

  /** What follows the attempts: a deferral when they all timed out. */
  function AfterAttempts(d: Option<Outcome>, g: Files, next: Option<nat>, key: JobKey, update: ManagedUpdate, size: nat,
                         stamp: nat, nonce: string): (Outcome, Files, Option<nat>)
  {
    if d.Some? then (d.value, g, next)
    else
      var sequence := if next.Some? then next.value else NextFree(g.journal);
      var (o, h) := Deferral(g, sequence, key, update, size, stamp, nonce);
      (o, h, Some(sequence + 1))
  }

  /** `_managed_store_update`. */
  function StoreUpdate(f: Files, next: Option<nat>, key: JobKey, update: ManagedUpdate, attempts: seq<Try>, limit: int,
                       size: nat, stamp: nat, nonce: string): (Outcome, Files, Option<nat>)
  {
    var (d, g) := Attempts(f, key, update, attempts, limit);
    AfterAttempts(d, g, next, key, update, size, stamp, nonce)
  }

  class JobStoreFiles {
    var primary: StoreFile
    var backup: StoreFile
    var journal: seq<Entry>
    var nextSequence: Option<nat>

    function Now(): Files
      reads this
    {
      Files(primary, backup, journal)
    }

    /** A process that starts on the files it finds. */
    constructor (primary: StoreFile, backup: StoreFile, journal: seq<Entry>)
      ensures this.primary == primary && this.backup == backup && this.journal == journal
      ensures nextSequence == None
    {
      this.primary, this.backup, this.journal, nextSequence := primary, backup, journal, None;
    }

    /** Allocate one sequence number, continuing past any file a previous process left. */
    method NextDeferredSequence() returns (sequence: nat)
      modifies this`nextSequence
      ensures sequence == if old(nextSequence).Some? then old(nextSequence).value else NextFree(journal)
      ensures nextSequence == Some(sequence + 1)
    {
      if nextSequence.None? {
        var maximum: int := -1;
        var i := 0;
        while i < |journal|
          invariant 0 <= i <= |journal| && nextSequence.None?
          invariant -1 <= maximum && maximum + 1 == NextFree(journal[..i])
        {
          NextFreeExtends(journal, i);
          maximum := Max(maximum, journal[i].id.sequence);
          i := i + 1;
        }
        assert journal[..i] == journal;
        nextSequence := Some(maximum + 1);
      }
      sequence := nextSequence.value;
      nextSequence := Some(sequence + 1);
    }

    /** Journal one update under a new name, in its place by name. A record over the size limit is refused
        after its number was taken. `size`: the encoded record's bytes. */
    method WriteDeferred(key: JobKey, update: ManagedUpdate, size: nat, stamp: nat, nonce: string)
      returns (id: Option<UpdateId>)
      modifies this`journal, this`nextSequence
      ensures id.Some? <==> size <= MANAGED_DEFERRED_MAX_RECORD_BYTES
      ensures nextSequence ==
        Some((if old(nextSequence).Some? then old(nextSequence).value else NextFree(old(journal))) + 1)
      ensures id.Some? ==>
        && id.value.sequence + 1 == nextSequence.value && id.value.stamp == stamp && id.value.nonce == nonce
        && journal == Inserted(old(journal), NamePlace(old(journal), id.value), Entry(id.value, Recorded(key, update)))
      ensures id.None? ==> journal == old(journal)
    {
      var sequence := NextDeferredSequence();
      if size > MANAGED_DEFERRED_MAX_RECORD_BYTES { return None; }
      var name := UpdateId(sequence, stamp, nonce);
      var at := NamePlace(journal, name);
      journal := journal[..at] + [Entry(name, Recorded(key, update))] + journal[at..];
      id := Some(name);
    }

    /** Forget ids without a file, then replay each file once, in order, noting what may be removed. */
    method ReconcileDeferred(loaded: seq<JobRow>, unreadable: set<UpdateId>, now: int)
      returns (jobs: seq<JobRow>, removable: seq<UpdateId>)
      ensures jobs == Replay(TrimAll(loaded, Ids(journal)), journal, unreadable, now)
      ensures removable == Removable(journal, unreadable)
    {
      var active := set e | e in journal :: e.id;
      jobs := loaded;
      var i := 0;
      while i < |jobs|
        invariant 0 <= i <= |jobs| == |loaded|
        invariant jobs[..i] == TrimAll(loaded, active)[..i] && jobs[i..] == loaded[i..]
      {
        jobs := jobs[i := TrimRow(jobs[i], active)];
        i := i + 1;
      }
      ghost var trimmed := TrimAll(loaded, active);
      assert jobs == trimmed by { assert jobs[..|jobs|] == jobs; assert trimmed[..|jobs|] == trimmed; }
      removable := [];
      i := 0;
      while i < |journal|
        invariant 0 <= i <= |journal|
        invariant jobs == Replay(trimmed, journal[..i], unreadable, now)
        invariant removable == Removable(journal[..i], unreadable)
      {
        assert journal[..i + 1][..i] == journal[..i];
        var e := journal[i];
        if e.id !in unreadable {
          removable := removable + [e.id];
          if e.content.Recorded? {
            var at := FindSessionJob(jobs, e.content.key);
            if at < |jobs| && e.id !in jobs[at].applied {
              var applied := jobs[at].applied;
              var result := ApplyManagedUpdate(jobs[at], e.content.update, now);
              jobs := jobs[at := if result.ok then result.row.(applied := applied + [e.id]) else result.row];
            }
          }
        }
        i := i + 1;
      }
      assert journal[..i] == journal;
    }

    /** Prune, then replace the primary and after it the backup, as far as the writes succeed. */
    method SaveStore(jobs: seq<JobRow>, limit: int, writes: Writes) returns (saved: bool)
      modifies this`primary, this`backup
      ensures saved <==> writes.BothFiles?
      ensures primary == if writes.NoFile? then old(primary) else Stored(PruneStore(jobs, limit))
      ensures backup == if writes.BothFiles? then Stored(PruneStore(jobs, limit)) else old(backup)
    {
      var payload := PruneStore(jobs, limit);
      if writes.NoFile? { return false; }
      primary := Stored(payload);
      if writes.PrimaryOnly? { return false; }
      backup := Stored(payload);
      saved := true;
    }

    method RemoveDeferred(paths: seq<UpdateId>, stuck: set<UpdateId>)
      modifies this`journal
      ensures journal == WithoutIds(old(journal), paths, stuck)
    {
      var i := 0;
      while i < |paths|
        invariant 0 <= i <= |paths| && journal == WithoutIds(old(journal), paths[..i], stuck)
      {
        assert paths[..i + 1][..i] == paths[..i];
        if paths[i] !in stuck {
          journal := WithoutId(journal, paths[i]);
        }
        i := i + 1;
      }
      assert paths[..i] == paths;
    }

    /** One complete transaction whose body is one direct managed update. */
    method UpdateTransaction(key: JobKey, update: ManagedUpdate, a: Try, limit: int) returns (outcome: Outcome)
      requires a.Runs?
      modifies this`primary, this`backup, this`journal
      ensures (outcome, Now()) == TransactionResult(old(Now()), key, update, a, limit)
    {
      var loaded := LoadStore(primary, backup);
      if loaded.None? { return Unloadable; }
      var jobs, removable := ReconcileDeferred(loaded.value, a.unreadable, a.now);
      var at := FindSessionJob(jobs, key);
      if at == |jobs| {
        if !update.AppendLog? { return JobMissing; }
      } else {
        var result := ApplyManagedUpdate(jobs[at], update, a.now);
        if !result.ok { return Refused; }
        jobs := jobs[at := result.row];
      }
      var saved := SaveStore(jobs, limit, a.writes);
      if !saved { return WriteFailed; }
      RemoveDeferred(removable, a.stuck);
      return Committed;
    }

    /** The direct attempts; `None` when every one times out. */
    method TryDirect(key: JobKey, update: ManagedUpdate, attempts: seq<Try>, limit: int) returns (outcome: Option<Outcome>)
      modifies this`primary, this`backup, this`journal
      ensures (outcome, Now()) == Attempts(old(Now()), key, update, attempts, limit)
    {
      var k := 0;
      assert attempts[0..] == attempts;
      while k < |attempts|
        invariant 0 <= k <= |attempts|
        invariant Attempts(Now(), key, update, attempts[k..], limit) == Attempts(old(Now()), key, update, attempts, limit)
      {
        assert attempts[k..][1..] == attempts[k + 1..];
        if attempts[k].Runs? {
          var o := UpdateTransaction(key, update, attempts[k], limit);
          if !(o.WriteFailed? && attempts[k].timedOut) { return Some(o); }
        }
        k := k + 1;
      }
      outcome := None;
    }

    method Postpone(key: JobKey, update: ManagedUpdate, size: nat, stamp: nat, nonce: string) returns (outcome: Outcome)
      modifies this`journal, this`nextSequence
      ensures var sequence := if old(nextSequence).Some? then old(nextSequence).value else NextFree(old(journal));
        (outcome, Now()) == Deferral(old(Now()), sequence, key, update, size, stamp, nonce) && nextSequence == Some(sequence + 1)
    {
      var id := WriteDeferred(key, update, size, stamp, nonce);
      outcome := if id.Some? then Journaled else TooLarge;
    }

    /** `_managed_store_update`, with as many attempts as the source makes. */
    method ManagedStoreUpdate(key: JobKey, update: ManagedUpdate, attempts: seq<Try>, limit: int, size: nat, stamp: nat,
                              nonce: string)
      returns (outcome: Outcome)
      requires |attempts| == MANAGED_JOB_STORE_RETRY_ATTEMPTS
      modifies this
      ensures (outcome, Now(), nextSequence)
        == StoreUpdate(old(Now()), old(nextSequence), key, update, attempts, limit, size, stamp, nonce)
    {
      var direct := TryDirect(key, update, attempts, limit);
      outcome := AfterDirect(direct, key, update, size, stamp, nonce);
    }

    /** The deferral, unless an attempt decided. */
    method AfterDirect(direct: Option<Outcome>, key: JobKey, update: ManagedUpdate, size: nat, stamp: nat, nonce: string)
      returns (outcome: Outcome)
      modifies this`journal, this`nextSequence
      ensures (outcome, Now(), nextSequence)
        == AfterAttempts(direct, old(Now()), old(nextSequence), key, update, size, stamp, nonce)
    {
      if direct.Some? { return direct.value; }
      outcome := Postpone(key, update, size, stamp, nonce);
    }
  }

  /** A process that starts on the files another one left: the first update it journals is numbered above
      every file found, and, while numbers fit the width, listed behind them all. */
  method JournalAfterRestart(left: JobStoreFiles, key: JobKey, update: ManagedUpdate, size: nat, stamp: nat, nonce: string)
    returns (process: JobStoreFiles, id: Option<UpdateId>)
    ensures fresh(process) && process.primary == left.primary && process.backup == left.backup
    ensures id.Some? <==> size <= MANAGED_DEFERRED_MAX_RECORD_BYTES
    ensures id.None? ==> process.journal == left.journal
    ensures id.Some? ==> forall e :: e in left.journal ==> e.id.sequence < id.value.sequence
    ensures id.Some? && id.value.sequence < Pow10(SEQUENCE_WIDTH) ==>
      process.journal == left.journal + [Entry(id.value, Recorded(key, update))]
  {
    process := new JobStoreFiles(left.primary, left.backup, left.journal);
    id := process.WriteDeferred(key, update, size, stamp, nonce);
    if id.Some? && id.value.sequence < Pow10(SEQUENCE_WIDTH) {
      LargestIsLast(left.journal, id.value);
      assert left.journal[..|left.journal|] == left.journal;
    }
  }

  lemma LargestIsLast(journal: seq<Entry>, id: UpdateId)
    requires id.sequence < Pow10(SEQUENCE_WIDTH) && forall e :: e in journal ==> e.id.sequence < id.sequence
    ensures NamePlace(journal, id) == |journal|
  {
    if journal != [] {
      assert journal[|journal| - 1] in journal;
      NameOrderIsSequenceOrder(journal[|journal| - 1].id, id);
    }
  }

  /** What is left after the unlinks: files never queued, and files the file system refused to remove. */
  lemma {:induction false} RemovedLeavesStuck(entries: seq<Entry>, ids: seq<UpdateId>, stuck: set<UpdateId>)
    ensures forall e :: e in WithoutIds(entries, ids, stuck) <==> e in entries && (e.id in stuck || e.id !in ids)
    decreases |ids|
  {
    if ids != [] {
      var n := |ids| - 1;
      RemovedLeavesStuck(entries, ids[..n], stuck);
      assert ids == ids[..n] + [ids[n]];
    }
  }

  lemma LeftAre(entries: seq<Entry>, unreadable: set<UpdateId>, stuck: set<UpdateId>)
    ensures var left := WithoutIds(entries, Removable(entries, unreadable), stuck);
      forall e :: e in left <==> e in entries && (e.id in stuck || e.id in unreadable)
  {
    RemovedLeavesStuck(entries, Removable(entries, unreadable), stuck);
    assert forall e :: e in entries ==> e.id in Ids(entries);
  }

  lemma JournalLeft(f: Files, key: JobKey, update: ManagedUpdate, a: Try, limit: int)
    requires a.Runs?
    ensures var (o, g) := TransactionResult(f, key, update, a, limit);
      g.journal == if o.Committed? then WithoutIds(f.journal, Removable(f.journal, a.unreadable), a.stuck) else f.journal
  {
  }

  /** After a committed transaction exactly the files that could not be opened, or not be unlinked, are
      left; any other transaction leaves the journal as it was. */
  lemma LeftInPlace(f: Files, key: JobKey, update: ManagedUpdate, a: Try, limit: int)
    requires a.Runs?
    ensures var (o, g) := TransactionResult(f, key, update, a, limit);
      if o.Committed? then forall e :: e in g.journal <==> e in f.journal && (e.id in a.stuck || e.id in a.unreadable)
      else g.journal == f.journal
  {
    JournalLeft(f, key, update, a, limit);
    LeftAre(f.journal, a.unreadable, a.stuck);
  }

  // ----- what rows list

  /** Every update a row lists has a journal file. */
  ghost predicate ListsFiles(rows: seq<JobRow>, entries: seq<Entry>) {
    forall r, id :: r in rows && id in r.applied ==> id in Ids(entries)
  }

  lemma TrimmedListFiles(rows: seq<JobRow>, entries: seq<Entry>)
    ensures ListsFiles(TrimAll(rows, Ids(entries)), entries)
  {
  }

  lemma UpdatesListNothing(row: JobRow, u: ManagedUpdate, now: int)
    ensures ApplyManagedUpdate(row, u, now).row.applied == row.applied
  {
  }

  lemma ReplayedEntryListsFiles(rows: seq<JobRow>, entries: seq<Entry>, e: Entry, unreadable: set<UpdateId>, now: int)
    requires ListsFiles(rows, entries) && e in entries
    ensures ListsFiles(ReplayEntry(rows, e, unreadable, now), entries)
  {
    if e.id !in unreadable && e.content.Recorded? {
      var i := FindSessionJob(rows, e.content.key);
      if i < |rows| && e.id !in rows[i].applied {
        UpdatesListNothing(rows[i], e.content.update, now);
        assert rows[i] in rows;
      }
    }
  }

  lemma {:induction false} ReplayedListFiles(rows: seq<JobRow>, entries: seq<Entry>, n: nat, unreadable: set<UpdateId>, now: int)
    requires n <= |entries| && ListsFiles(rows, entries)
    ensures ListsFiles(Replay(rows, entries[..n], unreadable, now), entries)
  {
    if n > 0 {
      ReplayedListFiles(rows, entries, n - 1, unreadable, now);
      assert entries[..n][..n - 1] == entries[..n - 1];
      ReplayedEntryListsFiles(Replay(rows, entries[..n - 1], unreadable, now), entries, entries[n - 1], unreadable, now);
    }
  }

  lemma PrunedListFiles(rows: seq<JobRow>, entries: seq<Entry>, limit: int)
    requires ListsFiles(rows, entries)
    ensures ListsFiles(PruneStore(rows, limit), entries)
  {
  }

  lemma ResultListsFiles(primary: StoreFile, backup: StoreFile, journal: seq<Entry>, key: JobKey, update: ManagedUpdate,
                         unreadable: set<UpdateId>, limit: int, now: int)
    requires UpdateResult(primary, backup, journal, key, update, unreadable, limit, now).0 == Committed
    ensures ListsFiles(UpdateResult(primary, backup, journal, key, update, unreadable, limit, now).1, journal)
  {
    var trimmed := TrimAll(LoadStore(primary, backup).value, Ids(journal));
    TrimmedListFiles(LoadStore(primary, backup).value, journal);
    ReplayedListFiles(trimmed, journal, |journal|, unreadable, now);
    assert journal[..|journal|] == journal;
    UpdatedListFiles(Replay(trimmed, journal, unreadable, now), journal, key, update, now, limit);
  }

  /** What a committed transaction stores lists only updates whose files it found, so lists do not outgrow the
      journal. */
  lemma StoredRowsListFiles(f: Files, key: JobKey, update: ManagedUpdate, a: Try, limit: int)
    requires a.Runs? && TransactionResult(f, key, update, a, limit).0 == Committed
    ensures var g := TransactionResult(f, key, update, a, limit).1;
      && g.primary.Stored? && g.backup == g.primary
      && forall r, id :: r in g.primary.rows && id in r.applied ==> exists e :: e in f.journal && e.id == id
  {
    ResultListsFiles(f.primary, f.backup, f.journal, key, update, a.unreadable, limit, a.now);
  }

  lemma UpdatedListFiles(jobs: seq<JobRow>, entries: seq<Entry>, key: JobKey, update: ManagedUpdate, now: int, limit: int)
    requires ListsFiles(jobs, entries)
    ensures ListsFiles(PruneStore(jobs, limit), entries)
    ensures var at := FindSessionJob(jobs, key);
      at < |jobs| ==> ListsFiles(PruneStore(jobs[at := ApplyManagedUpdate(jobs[at], update, now).row], limit), entries)
  {
    var at := FindSessionJob(jobs, key);
    PrunedListFiles(jobs, entries, limit);
    if at < |jobs| {
      UpdatesListNothing(jobs[at], update, now);
      assert jobs[at] in jobs;
      PrunedListFiles(jobs[at := ApplyManagedUpdate(jobs[at], update, now).row], entries, limit);
    }
  }

  lemma NextFreeExtends(entries: seq<Entry>, i: nat)
    requires i < |entries|
    ensures NextFree(entries[..i + 1]) == Max(NextFree(entries[..i]), entries[i].id.sequence + 1)
  {
    assert entries[..i + 1][..i] == entries[..i];
  }

  // ----- how often one update lands

  /** No write was reported as a timeout. */
  predicate NoWriteTimesOut(attempts: seq<Try>) {
    forall k :: 0 <= k < |attempts| && attempts[k].Runs? ==> attempts[k].writes.BothFiles? || !attempts[k].timedOut
  }

  /** The first attempt that gets the lock. */
  function FirstRun(attempts: seq<Try>): (r: Option<Try>)
    ensures r.Some? ==> r.value.Runs? && r.value in attempts
    ensures r.None? <==> forall k :: 0 <= k < |attempts| ==> attempts[k].Busy?
  {
    if attempts == [] then None
    else if attempts[0].Runs? then Some(attempts[0])
    else
      FirstApart(attempts);
      FirstRun(attempts[1..])
  }

  /** Unless a write times out, the first attempt that gets the lock decides, on the files as they were, and
      with none that does the files stay as they were. */
  lemma {:induction false} FirstAttemptDecides(f: Files, key: JobKey, update: ManagedUpdate, attempts: seq<Try>, limit: int)
    requires NoWriteTimesOut(attempts)
    ensures var run, (o, g) := FirstRun(attempts), Attempts(f, key, update, attempts, limit);
      if run.None? then o.None? && g == f
      else o.Some? && (o.value, g) == TransactionResult(f, key, update, run.value, limit)
    decreases |attempts|
  {
    if attempts != [] && attempts[0].Busy? {
      assert forall k :: 0 <= k < |attempts| - 1 ==> attempts[1..][k] == attempts[k + 1];
      FirstAttemptDecides(f, key, update, attempts[1..], limit);
    }
  }

  /** How many attempts write the primary before one decides, when no body refuses the update. */
  function Landed(attempts: seq<Try>): nat {
    if attempts == [] then 0
    else
      match attempts[0]
      case Busy => Landed(attempts[1..])
      case Runs(_, _, NoFile, timedOut, _) => if timedOut then Landed(attempts[1..]) else 0
      case Runs(_, _, PrimaryOnly, timedOut, _) => 1 + (if timedOut then Landed(attempts[1..]) else 0)
      case Runs(_, _, BothFiles, _, _) => 1
  }

  /** The store has one row a job, and the job's row is active and counts this many bytes. */
  ghost predicate Counts(rows: seq<JobRow>, key: JobKey, bytes: int) {
    && DistinctKeys(rows)
    && var i := FindSessionJob(rows, key);
       i < |rows| && rows[i].status.Active() && rows[i].outputBytes == bytes
  }

  ghost predicate NoneFor(entries: seq<Entry>, key: JobKey) { forall e :: e in entries ==> !e.For(key) }

  /** The primary counts this many bytes for the job, and no file of the job waits. */
  ghost predicate PrimaryCounts(f: Files, key: JobKey, bytes: int) {
    f.primary.Stored? && Counts(f.primary.rows, key, bytes) && NoneFor(f.journal, key)
  }

  lemma CountsMember(rows: seq<JobRow>, key: JobKey, bytes: int, r: JobRow)
    requires DistinctKeys(rows) && r in rows && r.key == key && r.status.Active() && r.outputBytes == bytes
    ensures Counts(rows, key, bytes)
  {
    var j :| 0 <= j < |rows| && rows[j] == r;
  }

  lemma TrimKeepsCount(rows: seq<JobRow>, listed: set<UpdateId>, key: JobKey, bytes: int)
    requires Counts(rows, key, bytes)
    ensures Counts(TrimAll(rows, listed), key, bytes)
  {
    var i, t := FindSessionJob(rows, key), TrimAll(rows, listed);
    assert t[i] == TrimRow(rows[i], listed);
    CountsMember(t, key, bytes, t[i]);
  }

  /** Another job's row may change and keeps its key. */
  lemma OtherRowChanges(rows: seq<JobRow>, i: nat, r: JobRow, key: JobKey, bytes: int)
    requires Counts(rows, key, bytes) && i < |rows| && r.key == rows[i].key != key
    ensures Counts(rows[i := r], key, bytes)
  {
    var at, s := FindSessionJob(rows, key), rows[i := r];
    assert forall j :: 0 <= j < |s| ==> s[j].key == rows[j].key;
    assert s[at] == rows[at];
    CountsMember(s, key, bytes, s[at]);
  }

  lemma EntryKeepsCount(rows: seq<JobRow>, e: Entry, unreadable: set<UpdateId>, now: int, key: JobKey, bytes: int)
    requires Counts(rows, key, bytes) && !e.For(key)
    ensures Counts(ReplayEntry(rows, e, unreadable, now), key, bytes)
  {
    if e.id !in unreadable && e.content.Recorded? {
      var i := FindSessionJob(rows, e.content.key);
      if i < |rows| && e.id !in rows[i].applied {
        var a := ApplyManagedUpdate(rows[i], e.content.update, now);
        OtherRowChanges(rows, i, if a.ok then a.row.(applied := rows[i].applied + [e.id]) else a.row, key, bytes);
      }
    }
  }

  lemma {:induction false} ReplayKeepsCount(rows: seq<JobRow>, entries: seq<Entry>, unreadable: set<UpdateId>, now: int, key: JobKey, bytes: int)
    requires Counts(rows, key, bytes) && NoneFor(entries, key)
    ensures Counts(Replay(rows, entries, unreadable, now), key, bytes)
    decreases |entries|
  {
    if entries != [] {
      var n := |entries| - 1;
      ReplayKeepsCount(rows, entries[..n], unreadable, now, key, bytes);
      EntryKeepsCount(Replay(rows, entries[..n], unreadable, now), entries[n], unreadable, now, key, bytes);
    }
  }

  lemma AppendCounts(rows: seq<JobRow>, key: JobKey, bytes: int, update: ManagedUpdate, now: int, limit: int)
    requires Counts(rows, key, bytes) && WellFormed(update) && update.AppendLog?
    ensures var i := FindSessionJob(rows, key);
      var a := ApplyManagedUpdate(rows[i], update, now);
      a.ok && Counts(PruneStore(rows[i := a.row], limit), key, bytes + update.bytes.n)
  {
    var i := FindSessionJob(rows, key);
    var r := ApplyManagedUpdate(rows[i], update, now).row;
    var s := rows[i := r];
    assert s[i] == r && r in s;
    assert DistinctKeys(s) by { assert forall j :: 0 <= j < |s| ==> s[j].key == rows[j].key; }
    PruneKeepsRows(s, limit);
    CountsMember(PruneStore(s, limit), key, bytes + update.bytes.n, r);
  }

  /** A transaction around a log append never refuses it, and counts its bytes once more. */
  lemma TransactionCounts(f: Files, key: JobKey, update: ManagedUpdate, a: Try, limit: int, bytes: int)
    requires a.Runs? && WellFormed(update) && update.AppendLog?
    requires PrimaryCounts(f, key, bytes)
    ensures var (o, g) := TransactionResult(f, key, update, a, limit);
      && o == (if a.writes.BothFiles? then Committed else WriteFailed)
      && PrimaryCounts(g, key, if a.writes.NoFile? then bytes else bytes + update.bytes.n)
  {
    var trimmed := TrimAll(f.primary.rows, Ids(f.journal));
    TrimKeepsCount(f.primary.rows, Ids(f.journal), key, bytes);
    ReplayKeepsCount(trimmed, f.journal, a.unreadable, a.now, key, bytes);
    AppendCounts(Replay(trimmed, f.journal, a.unreadable, a.now), key, bytes, update, a.now, limit);
    LeftInPlace(f, key, update, a, limit);
  }

  /** What the attempts come to, when no body refuses the update. */
  function Decision(attempts: seq<Try>): Option<Outcome> {
    if attempts == [] then None
    else if attempts[0].Busy? then Decision(attempts[1..])
    else if attempts[0].writes.BothFiles? then Some(Committed)
    else if attempts[0].timedOut then Decision(attempts[1..])
    else Some(WriteFailed)
  }

  lemma Multiplied(k: nat, n: nat, bytes: int)
    ensures bytes + n + k * n == bytes + (1 + k) * n
  {
  }

  /** A log append counts its bytes once for every attempt that wrote the primary. */
  lemma {:induction false} BytesPerLandedWrite(f: Files, key: JobKey, update: ManagedUpdate, attempts: seq<Try>, limit: int, bytes: int)
    requires WellFormed(update) && update.AppendLog?
    requires PrimaryCounts(f, key, bytes)
    ensures var (o, g) := Attempts(f, key, update, attempts, limit);
      && o == Decision(attempts)
      && PrimaryCounts(g, key, bytes + Landed(attempts) * update.bytes.n)
    decreases |attempts|
  {
    if attempts != [] {
      if attempts[0].Busy? {
        BytesPerLandedWrite(f, key, update, attempts[1..], limit, bytes);
      } else {
        RunLands(f, key, update, attempts, limit, bytes);
      }
    }
  }

  lemma {:induction false} RunLands(f: Files, key: JobKey, update: ManagedUpdate, attempts: seq<Try>, limit: int, bytes: int)
    requires WellFormed(update) && update.AppendLog? && attempts != [] && attempts[0].Runs?
    requires PrimaryCounts(f, key, bytes)
    ensures var (o, g) := Attempts(f, key, update, attempts, limit);
      && o == Decision(attempts)
      && PrimaryCounts(g, key, bytes + Landed(attempts) * update.bytes.n)
    decreases |attempts|, 0
  {
    var a, rest, n := attempts[0], attempts[1..], update.bytes.n;
    var (o, g) := TransactionResult(f, key, update, a, limit);
    var counted := if a.writes.NoFile? then bytes else bytes + n;
    TransactionCounts(f, key, update, a, limit, bytes);
    if o.WriteFailed? && a.timedOut {
      var (d, h) := Attempts(g, key, update, rest, limit);
      BytesPerLandedWrite(g, key, update, rest, limit, counted);
      LandsAndGoesOn(h, key, attempts, bytes, n);
    } else {
      LandsLast(g, key, attempts, bytes, n);
    }
  }

  lemma LandsAndGoesOn(h: Files, key: JobKey, attempts: seq<Try>, bytes: int, n: nat)
    requires attempts != [] && attempts[0].Runs? && !attempts[0].writes.BothFiles? && attempts[0].timedOut
    requires PrimaryCounts(h, key, (if attempts[0].writes.NoFile? then bytes else bytes + n) + Landed(attempts[1..]) * n)
    ensures PrimaryCounts(h, key, bytes + Landed(attempts) * n)
  {
    Multiplied(Landed(attempts[1..]), n, bytes);
  }

  lemma LandsLast(g: Files, key: JobKey, attempts: seq<Try>, bytes: int, n: nat)
    requires attempts != [] && attempts[0].Runs? && (attempts[0].writes.BothFiles? || !attempts[0].timedOut)
    requires PrimaryCounts(g, key, if attempts[0].writes.NoFile? then bytes else bytes + n)
    ensures PrimaryCounts(g, key, bytes + Landed(attempts) * n)
  {
    Multiplied(0, n, bytes);
  }

  /** An attempt is reached that writes the primary and then times out on the backup. */
  predicate RewritesLater(attempts: seq<Try>) {
    && attempts != []
    && (if attempts[0].Busy? then RewritesLater(attempts[1..])
        else !attempts[0].writes.BothFiles? && attempts[0].timedOut
             && (attempts[0].writes.PrimaryOnly? || RewritesLater(attempts[1..])))
  }

  lemma {:induction false} LandedOnceWhen(attempts: seq<Try>)
    ensures Decision(attempts) == Some(Committed) ==> Landed(attempts) >= 1 && (Landed(attempts) == 1 <==> !RewritesLater(attempts))
    ensures Decision(attempts) == None ==> (Landed(attempts) == 0 <==> !RewritesLater(attempts))
    decreases |attempts|
  {
    if attempts != [] { LandedOnceWhen(attempts[1..]); }
  }

  lemma OneCount(f: Files, key: JobKey, bytes: int, n: nat, k: nat, m: nat)
    requires n > 0 && PrimaryCounts(f, key, bytes + k * n)
    ensures PrimaryCounts(f, key, bytes + m * n) <==> k == m
  {
    if k * n == m * n {
      assert (k - m) * n == 0;
      if k > m { MulAtLeast(n, k - m); } else if k < m { MulAtLeast(n, m - k); }
    }
  }

  /** An append that ends committed is counted exactly once, and one that ends journaled only waits, if and
      only if no attempt wrote the primary and then timed out on the backup. */
  lemma CountedOnceWhen(f: Files, next: Option<nat>, key: JobKey, update: ManagedUpdate, attempts: seq<Try>, limit: int,
                        bytes: int, size: nat, stamp: nat, nonce: string)
    requires WellFormed(update) && update.AppendLog? && update.bytes.n > 0
    requires PrimaryCounts(f, key, bytes)
    ensures var (o, g, _) := StoreUpdate(f, next, key, update, attempts, limit, size, stamp, nonce);
      && (o == Committed ==> (PrimaryCounts(g, key, bytes + update.bytes.n) <==> !RewritesLater(attempts)))
      && (o == Journaled ==> (g.primary.Stored? && Counts(g.primary.rows, key, bytes) <==> !RewritesLater(attempts)))
  {
    var (d, g) := Attempts(f, key, update, attempts, limit);
    BytesPerLandedWrite(f, key, update, attempts, limit, bytes);
    OnceAfter(d, g, next, key, update, attempts, bytes, size, stamp, nonce);
  }

  lemma OnceAfter(d: Option<Outcome>, g: Files, next: Option<nat>, key: JobKey, update: ManagedUpdate, attempts: seq<Try>,
                  bytes: int, size: nat, stamp: nat, nonce: string)
    requires WellFormed(update) && update.AppendLog? && update.bytes.n > 0
    requires d == Decision(attempts) && PrimaryCounts(g, key, bytes + Landed(attempts) * update.bytes.n)
    ensures var (o, h, _) := AfterAttempts(d, g, next, key, update, size, stamp, nonce);
      && (o == Committed ==> (PrimaryCounts(h, key, bytes + update.bytes.n) <==> !RewritesLater(attempts)))
      && (o == Journaled ==> (h.primary.Stored? && Counts(h.primary.rows, key, bytes) <==> !RewritesLater(attempts)))
  {
    DecisionIs(attempts);
    OnceWhen(d, g, key, attempts, bytes, update.bytes.n);
  }

  lemma {:induction false} DecisionIs(attempts: seq<Try>)
    ensures Decision(attempts) in {None, Some(Committed), Some(WriteFailed)}
  {
    if attempts != [] { DecisionIs(attempts[1..]); }
  }

  lemma OnceWhen(d: Option<Outcome>, g: Files, key: JobKey, attempts: seq<Try>, bytes: int, n: nat)
    requires n > 0 && d == Decision(attempts) && PrimaryCounts(g, key, bytes + Landed(attempts) * n)
    ensures d == Some(Committed) ==> (PrimaryCounts(g, key, bytes + n) <==> !RewritesLater(attempts))
    ensures d == None ==> (Counts(g.primary.rows, key, bytes) <==> !RewritesLater(attempts))
  {
    LandedOnceWhen(attempts);
    OneCount(g, key, bytes, n, Landed(attempts), if d.Some? then 1 else 0);
    assert 0 * n == 0 && 1 * n == n;
  }

  /** The failing case: the first attempt writes the primary and times out on the backup, the second commits;
      the bytes are counted twice. */
  lemma TimedOutBackupCountsTwice(f: Files, key: JobKey, update: ManagedUpdate, first: Try, second: Try, limit: int, bytes: int)
    requires WellFormed(update) && update.AppendLog? && update.bytes.n > 0
    requires PrimaryCounts(f, key, bytes)
    requires first.Runs? && first.writes.PrimaryOnly? && first.timedOut && second.Runs? && second.writes.BothFiles?
    ensures var (o, g) := Attempts(f, key, update, [first, second], limit);
      && o == Some(Committed)
      && PrimaryCounts(g, key, bytes + 2 * update.bytes.n) && !PrimaryCounts(g, key, bytes + update.bytes.n)
  {
    assert [first, second][1..] == [second] && [second][1..] == [];
    BytesPerLandedWrite(f, key, update, [first, second], limit, bytes);
    TransactionCounts(f, key, update, first, limit, bytes);
    var (_, g) := TransactionResult(f, key, update, first, limit);
    TransactionCounts(g, key, update, second, limit, bytes + update.bytes.n);
  }
}
