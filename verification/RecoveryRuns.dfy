/** One transaction of the store object is a run of the store's state machine. */
module RecoveryRuns {
  import opened Common
  import opened JobState
  import opened Journal
  import opened JournalRuns
  import opened Retention
  import opened Recovery

  /** The transaction the machine opens loads and replays what `UpdateTransaction` does. */
  lemma BeginLoadsAndReplays(w: World, unreadable: set<UpdateId>, now: int)
    requires Safe(w) && Loaded(w).Some?
    ensures LoadStore(File(w.primary), File(w.backup)).Some?
    ensures var loaded := LoadStore(File(w.primary), File(w.backup)).value;
      BeginCopy(w, unreadable, now).rows == Replay(TrimAll(loaded, Ids(w.journal)), w.journal, unreadable, now)
    ensures CopyOk(BeginCopy(w, unreadable, now), w)
  {
    var c := Loaded(w).value;
    CopyTrimmed(c, w);
    AllReplayed(c.(rows := TrimAll(c.rows, Ids(w.journal))), w, |w.journal|, unreadable, now);
    assert w.journal[..|w.journal|] == w.journal;
  }

  // ----- runs of the machine between two states

  /** These steps lead from `w` to `v`. */
  ghost predicate Goes(w: World, steps: seq<Step>, v: World)
    decreases |steps|
  {
    if steps == [] then w == v else Enabled(w, steps[0]) && Goes(Take(w, steps[0]), steps[1..], v)
  }

  lemma {:induction false} GoesOn(w: World, s: seq<Step>, u: World, t: seq<Step>, v: World)
    requires Goes(w, s, u) && Goes(u, t, v)
    ensures Goes(w, s + t, v)
    decreases |s|
  {
    if s == [] {
      assert s + t == t;
    } else {
      assert (s + t)[1..] == s[1..] + t;
      GoesOn(Take(w, s[0]), s[1..], u, t, v);
    }
  }

  lemma GoesOneStep(w: World, s: Step)
    requires Enabled(w, s)
    ensures Goes(w, [s], Take(w, s))
  {
    assert [s][1..] == [];
  }

  lemma {:induction false} GoesSafely(w: World, steps: seq<Step>, v: World)
    requires Safe(w) && Goes(w, steps, v)
    ensures Safe(v)
    decreases |steps|
  {
    if steps != [] {
      SafeStep(w, steps[0]);
      GoesSafely(Take(w, steps[0]), steps[1..], v);
    }
  }

  ghost function FilesOf(w: World): Files { Files(File(w.primary), File(w.backup), w.journal) }

  /** The sequence counter of one process. */
  ghost function Counter(w: World, process: nat): Option<nat> {
    if process in w.next then Some(w.next[process]) else None
  }

  /** What no transaction changes. */
  ghost predicate SameJobs(w: World, v: World) {
    v.next == w.next && v.used == w.used && v.created == w.created && v.issued.Keys == w.issued.Keys
  }

  // ----- from the body on

  /** The machine works off its queue of unlinks, those of stuck files failing. */
  lemma {:induction false} UnlinksAreARun(w: World, stuck: set<UpdateId>, n: nat) returns (steps: seq<Step>, v: World)
    requires w.txn.Open? && w.txn.phase.BothSaved? && n <= |w.txn.removable|
    ensures Goes(w, steps, v) && SameJobs(w, v)
    ensures v.txn.Open? && v.txn.phase.BothSaved? && v.txn.removable == w.txn.removable[n..]
    ensures v.journal == WithoutIds(w.journal, w.txn.removable[..n], stuck)
    ensures v.primary == w.primary && v.backup == w.backup
    decreases n
  {
    var queue := w.txn.removable;
    if n == 0 {
      steps, v := [], w;
      assert queue[0..] == queue && queue[..0] == [];
    } else {
      var before, u := UnlinksAreARun(w, stuck, n - 1);
      assert queue[..n][..n - 1] == queue[..n - 1];
      assert queue[n - 1..][1..] == queue[n..];
      var succeeds := queue[n - 1] !in stuck;
      var s := Unlink(succeeds);
      OneUnlink(u, queue[n - 1], succeeds);
      steps, v := before + [s], Take(u, s);
      GoesOneStep(u, s);
      GoesOn(w, before, u, [s], v);
    }
  }

  lemma OneUnlink(u: World, id: UpdateId, succeeds: bool)
    requires u.txn.Open? && u.txn.phase.BothSaved? && u.txn.removable != [] && u.txn.removable[0] == id
    ensures Enabled(u, Unlink(succeeds))
    ensures var v := Take(u, Unlink(succeeds));
      && SameJobs(u, v) && v.txn.Open? && v.txn.phase.BothSaved? && v.txn.removable == u.txn.removable[1..]
      && v.journal == (if succeeds then WithoutId(u.journal, id) else u.journal)
      && v.primary == u.primary && v.backup == u.backup
  {
  }

  /** After both writes: the unlinks, and the end. */
  lemma UnlinksAndEnd(w: World, stuck: set<UpdateId>) returns (steps: seq<Step>, v: World)
    requires w.txn.Open? && w.txn.phase.BothSaved?
    ensures Goes(w, steps, v) && SameJobs(w, v) && v.txn.Closed?
    ensures FilesOf(v) == FilesOf(w).(journal := WithoutIds(w.journal, w.txn.removable, stuck))
  {
    var queue := w.txn.removable;
    var before, u := UnlinksAreARun(w, stuck, |queue|);
    assert queue[..|queue|] == queue && queue[|queue|..] == [];
    GoesOneStep(u, End);
    v := Take(u, End);
    steps := before + [End];
    GoesOn(w, before, u, [End], v);
  }

  /** The files a transaction leaves whose body ended with these rows. */
  ghost function Left(f: Files, rows: seq<JobRow>, removable: seq<UpdateId>, a: Try): Files
    requires a.Runs?
  {
    match a.writes
    case NoFile => f
    case PrimaryOnly => f.(primary := Stored(rows))
    case BothFiles => Files(Stored(rows), Stored(rows), WithoutIds(f.journal, removable, a.stuck))
  }

  lemma StopsUnsaved(w: World) returns (steps: seq<Step>, v: World)
    requires w.txn.Open?
    ensures Goes(w, steps, v) && SameJobs(w, v) && v.txn.Closed? && FilesOf(v) == FilesOf(w)
  {
    GoesOneStep(w, Abort);
    steps, v := [Abort], Take(w, Abort);
  }

  lemma SavesPrimary(w: World, limit: int) returns (v: World)
    requires w.txn.Open? && w.txn.phase.Body?
    ensures Goes(w, [SavePrimary(limit)], v) && SameJobs(w, v)
    ensures v.txn.Open? && v.txn.phase.PrimarySaved? && v.txn.removable == w.txn.removable
    ensures v.txn.copy.rows == PruneStore(w.txn.copy.rows, limit)
    ensures FilesOf(v) == FilesOf(w).(primary := Stored(PruneStore(w.txn.copy.rows, limit)))
  {
    GoesOneStep(w, SavePrimary(limit));
    v := Take(w, SavePrimary(limit));
  }

  lemma SavesBackup(w: World) returns (v: World)
    requires w.txn.Open? && w.txn.phase.PrimarySaved?
    ensures Goes(w, [SaveBackup], v) && SameJobs(w, v)
    ensures v.txn.Open? && v.txn.phase.BothSaved? && v.txn.removable == w.txn.removable
    ensures FilesOf(v) == FilesOf(w).(backup := Stored(w.txn.copy.rows))
  {
    GoesOneStep(w, SaveBackup);
    v := Take(w, SaveBackup);
  }

  /** Writes that fail anywhere, or succeed, end the transaction with just those files. */
  lemma SavesAsFarAsItGets(w: World, a: Try, limit: int) returns (steps: seq<Step>, v: World)
    requires w.txn.Open? && w.txn.phase.Body? && a.Runs?
    ensures Goes(w, steps, v) && SameJobs(w, v) && v.txn.Closed?
    ensures FilesOf(v) == Left(FilesOf(w), PruneStore(w.txn.copy.rows, limit), w.txn.removable, a)
  {
    if a.writes.NoFile? {
      steps, v := StopsUnsaved(w);
    } else {
      var u := SavesPrimary(w, limit);
      var rest: seq<Step>;
      if a.writes.PrimaryOnly? {
        rest, v := StopsUnsaved(u);
      } else {
        var x := SavesBackup(u);
        var last: seq<Step>;
        last, v := UnlinksAndEnd(x, a.stuck);
        rest := [SaveBackup] + last;
        GoesOn(u, [SaveBackup], x, last, v);
      }
      steps := [SavePrimary(limit)] + rest;
      GoesOn(w, [SavePrimary(limit)], u, rest, v);
    }
  }

  // ----- whole transactions

  /** The machine's state once a transaction's body has ended, the update having changed its row. */
  lemma BodyIsARun(w: World, process: nat, key: JobKey, update: ManagedUpdate, unreadable: set<UpdateId>, now: int)
    returns (steps: seq<Step>, u: World)
    requires Safe(w) && w.txn.Closed? && WellFormed(update) && Loaded(w).Some?
    ensures Goes(w, steps, u) && SameJobs(w, u) && FilesOf(u) == FilesOf(w)
    ensures u.txn.Open? && u.txn.phase.Body? && u.txn.removable == Removable(w.journal, unreadable)
    ensures var rows := BeginCopy(w, unreadable, now).rows;
      var at := FindSessionJob(rows, key);
      u.txn.copy.rows == if at < |rows| then rows[at := ApplyManagedUpdate(rows[at], update, now).row] else rows
  {
    var b := Begin(process, Some(key), unreadable, now);
    var begun := Take(w, b);
    var copy := BeginCopy(w, unreadable, now);
    var i := FindSessionJob(copy.rows, key);
    GoesOneStep(w, b);
    steps, u := [b], begun;
    if i < |copy.rows| {
      BeginLoadsAndReplays(w, unreadable, now);
      assert copy.rows[i] in copy.rows && RowFits(copy.rows[i], copy, w);
      GoesOneStep(begun, Direct(update, now));
      u := Take(begun, Direct(update, now));
      steps := [b] + [Direct(update, now)];
      GoesOn(w, [b], begun, [Direct(update, now)], u);
    }
  }

  /** The outcome and rows of a transaction, in terms of the copy the machine works on. */
  lemma BodyResult(w: World, key: JobKey, update: ManagedUpdate, unreadable: set<UpdateId>, limit: int, now: int)
    requires Safe(w) && WellFormed(update) && Loaded(w).Some?
    ensures var rows := BeginCopy(w, unreadable, now).rows;
      var at := FindSessionJob(rows, key);
      UpdateResult(File(w.primary), File(w.backup), w.journal, key, update, unreadable, limit, now)
        == if at < |rows| then (Committed, PruneStore(rows[at := ApplyManagedUpdate(rows[at], update, now).row], limit))
           else if update.AppendLog? then (Committed, PruneStore(rows, limit))
           else (JobMissing, [])
  {
    BeginLoadsAndReplays(w, unreadable, now);
    var rows := BeginCopy(w, unreadable, now).rows;
    var at := FindSessionJob(rows, key);
    if at < |rows| { WellFormedUpdatesAreDeterministic(rows[at], update, now, []); }
  }

  lemma UnloadableResult(w: World, key: JobKey, update: ManagedUpdate, a: Try, limit: int)
    requires Loaded(w).None? && a.Runs?
    ensures TransactionResult(FilesOf(w), key, update, a, limit) == (Unloadable, FilesOf(w))
  {
  }

  /** What a transaction leaves, given its body's result. */
  lemma TransactionLeaves(f: Files, key: JobKey, update: ManagedUpdate, a: Try, limit: int, o: Outcome, rows: seq<JobRow>)
    requires a.Runs?
    requires (o, rows) == UpdateResult(f.primary, f.backup, f.journal, key, update, a.unreadable, limit, a.now)
    ensures TransactionResult(f, key, update, a, limit).1
      == if o == Committed then Left(f, rows, Removable(f.journal, a.unreadable), a) else f
  {
  }

  /** Every transaction of the store object around an update, whatever becomes of it, is a run of the
      machine: it loads or not, its body ends or stops, its writes get as far as they get, its unlinks succeed
      or not; afterwards the files are those the object leaves. */
  lemma TransactionIsARun(w: World, process: nat, key: JobKey, update: ManagedUpdate, a: Try, limit: int)
    returns (steps: seq<Step>, v: World)
    requires Safe(w) && w.txn.Closed? && WellFormed(update) && a.Runs?
    ensures Goes(w, steps, v) && SameJobs(w, v) && v.txn.Closed?
    ensures FilesOf(v) == TransactionResult(FilesOf(w), key, update, a, limit).1
  {
    if Loaded(w).None? {
      UnloadableResult(w, key, update, a, limit);
      steps, v := [], w;
    } else {
      var rows := BeginCopy(w, a.unreadable, a.now).rows;
      var (o, kept) := UpdateResult(File(w.primary), File(w.backup), w.journal, key, update, a.unreadable, limit, a.now);
      BodyResult(w, key, update, a.unreadable, limit, a.now);
      TransactionLeaves(FilesOf(w), key, update, a, limit, o, kept);
      var body, u := BodyIsARun(w, process, key, update, a.unreadable, a.now);
      var rest: seq<Step>;
      if o == Committed {
        rest, v := SavesAsFarAsItGets(u, a, limit);
      } else {
        rest, v := StopsUnsaved(u);
      }
      steps := body + rest;
      GoesOn(w, body, u, rest, v);
    }
  }

  // ----- whole updates

  /** All direct attempts together are a run. */
  lemma {:induction false} AttemptsAreARun(w: World, process: nat, key: JobKey, update: ManagedUpdate, attempts: seq<Try>, limit: int)
    returns (steps: seq<Step>, v: World)
    requires Safe(w) && w.txn.Closed? && WellFormed(update)
    ensures Goes(w, steps, v) && SameJobs(w, v) && v.txn.Closed? && Safe(v)
    ensures FilesOf(v) == Attempts(FilesOf(w), key, update, attempts, limit).1
    decreases |attempts|
  {
    if attempts == [] {
      steps, v := [], w;
    } else if attempts[0].Busy? {
      steps, v := AttemptsAreARun(w, process, key, update, attempts[1..], limit);
    } else {
      var first, u := TransactionIsARun(w, process, key, update, attempts[0], limit);
      GoesSafely(w, first, u);
      var (o, g) := TransactionResult(FilesOf(w), key, update, attempts[0], limit);
      if o.WriteFailed? && attempts[0].timedOut {
        var rest: seq<Step>;
        rest, v := AttemptsAreARun(u, process, key, update, attempts[1..], limit);
        steps := first + rest;
        GoesOn(w, first, u, rest, v);
      } else {
        steps, v := first, u;
      }
    }
  }

  lemma DeferStepIs(w: World, process: nat, key: JobKey, update: ManagedUpdate, stamp: nat, nonce: string, id: UpdateId)
    requires Enabled(w, Defer(process, key, update, stamp, nonce)) && id == NewId(w, process, stamp, nonce)
    ensures var v := Take(w, Defer(process, key, update, stamp, nonce));
      && FilesOf(v) == FilesOf(w).(journal := Inserted(w.journal, NamePlace(w.journal, id), Entry(id, Recorded(key, update))))
      && Counter(v, process) == Some(id.sequence + 1)
  {
  }

  lemma DeferralLeaves(g: Files, next: Option<nat>, key: JobKey, update: ManagedUpdate, size: nat, stamp: nat, nonce: string,
                       id: UpdateId)
    requires size <= MANAGED_DEFERRED_MAX_RECORD_BYTES
    requires id == UpdateId(if next.Some? then next.value else NextFree(g.journal), stamp, nonce)
    ensures AfterAttempts(None, g, next, key, update, size, stamp, nonce)
      == (Journaled, g.(journal := Inserted(g.journal, NamePlace(g.journal, id), Entry(id, Recorded(key, update)))),
          Some(id.sequence + 1))
  {
    DeferralPlaces(g, key, update, size, stamp, nonce, id);
  }

  lemma DeferralPlaces(g: Files, key: JobKey, update: ManagedUpdate, size: nat, stamp: nat, nonce: string, id: UpdateId)
    requires size <= MANAGED_DEFERRED_MAX_RECORD_BYTES && id.stamp == stamp && id.nonce == nonce
    ensures Deferral(g, id.sequence, key, update, size, stamp, nonce)
      == (Journaled, g.(journal := Inserted(g.journal, NamePlace(g.journal, id), Entry(id, Recorded(key, update)))))
  {
    assert UpdateId(id.sequence, stamp, nonce) == id;
  }

  /** A deferral is the machine's step, with the same number. */
  lemma DeferralIsAStep(w: World, process: nat, key: JobKey, update: ManagedUpdate, size: nat, stamp: nat, nonce: string)
    requires Enabled(w, Defer(process, key, update, stamp, nonce)) && size <= MANAGED_DEFERRED_MAX_RECORD_BYTES
    ensures var v := Take(w, Defer(process, key, update, stamp, nonce));
      (Journaled, FilesOf(v), Counter(v, process))
        == AfterAttempts(None, FilesOf(w), Counter(w, process), key, update, size, stamp, nonce)
  {
    var id := NewId(w, process, stamp, nonce);
    DeferStepIs(w, process, key, update, stamp, nonce, id);
    DeferralLeaves(FilesOf(w), Counter(w, process), key, update, size, stamp, nonce, id);
  }

  /** The whole of `_managed_store_update` is a run of the machine, for any attempts and failures: afterwards
      files, journal and the process's counter are those the object has. (The suffix of a journal name is
      fresh, and the record fits.) */
  lemma StoreUpdateIsARun(w: World, process: nat, key: JobKey, update: ManagedUpdate, attempts: seq<Try>, limit: int,
                          size: nat, stamp: nat, nonce: string)
    returns (steps: seq<Step>, v: World)
    requires Safe(w) && w.txn.Closed? && WellFormed(update) && key in w.created
    requires size <= MANAGED_DEFERRED_MAX_RECORD_BYTES && forall id :: id in w.used ==> id.nonce != nonce
    ensures Goes(w, steps, v) && v.txn.Closed?
    ensures var (_, g, next) := StoreUpdate(FilesOf(w), Counter(w, process), key, update, attempts, limit, size, stamp, nonce);
      FilesOf(v) == g && Counter(v, process) == next
  {
    var before, u := AttemptsAreARun(w, process, key, update, attempts, limit);
    if Attempts(FilesOf(w), key, update, attempts, limit).0.Some? {
      steps, v := before, u;
    } else {
      var s := Defer(process, key, update, stamp, nonce);
      assert Enabled(u, s);
      DeferralIsAStep(u, process, key, update, size, stamp, nonce);
      GoesOneStep(u, s);
      v := Take(u, s);
      steps := before + [s];
      GoesOn(w, before, u, [s], v);
    }
  }
}
