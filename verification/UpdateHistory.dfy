/** What a history of managed updates shows in its row, field by field. */
module UpdateHistory {
  import opened Common
  import opened JobState
  import opened Journal
  import opened JournalRuns
  import opened JournalTheorems

  /** The `i`-th update takes effect: an append always, any other only on a row that is active, which it is
      until the first finish. */
  ghost predicate Takes(c: JobRow, events: seq<Event>, i: nat)
    requires AllUpdates(events)
  {
    && i < |events|
    && (events[i].update.AppendLog?
        || (c.status.Active() && forall j :: 0 <= j < i ==> !events[j].update.Finish?))
  }

  ghost predicate TakesProgress(c: JobRow, events: seq<Event>, i: nat)
    requires AllUpdates(events)
  {
    Takes(c, events, i) && events[i].update.UpdateProgress?
  }

  ghost predicate TakesFinish(c: JobRow, events: seq<Event>, i: nat)
    requires AllUpdates(events)
  {
    Takes(c, events, i) && events[i].update.Finish?
  }

  /** The time an update carries. */
  function TimeOf(u: ManagedUpdate): int
    requires WellFormed(u)
  {
    match u
    case AppendLog(_, _, updatedAt) => updatedAt.n
    case UpdateProgress(_, updatedAt) => updatedAt.n
    case Finish(_, completedAt, _, _, _) => completedAt.n
  }

  /** The progress is the text of the last progress update that took effect, the first value's without one. */
  ghost predicate ProgressShown(c: JobRow, events: seq<Event>, r: JobRow)
    requires AllUpdates(events)
  {
    && (forall i: nat :: TakesProgress(c, events, i) && (forall j: nat :: i < j ==> !TakesProgress(c, events, j)) ==>
          events[i].update.progress.Object? && r.progress == Some(events[i].update.progress.text))
    && ((forall i: nat :: !TakesProgress(c, events, i)) ==> r.progress == c.progress)
  }

  /** The time shown is that of the last update that took effect. */
  ghost predicate TimeShown(c: JobRow, events: seq<Event>, r: JobRow)
    requires AllUpdates(events)
  {
    && (forall i: nat :: Takes(c, events, i) && (forall j: nat :: i < j ==> !Takes(c, events, j)) ==>
          WellFormed(events[i].update) && r.updatedAt == TimeOf(events[i].update))
    && ((forall i: nat :: !Takes(c, events, i)) ==> r.updatedAt == c.updatedAt)
  }

  /** The log counts as cut when it did or when some append says so. */
  ghost predicate TruncationShown(c: JobRow, events: seq<Event>, r: JobRow)
    requires AllUpdates(events)
  {
    r.logTruncated <==> c.logTruncated || exists i: nat :: i < |events| && Truncates(events[i])
  }

  predicate Truncates(x: Event) { x.Update? && x.update.AppendLog? && x.update.truncated }

  /** The outcome is that of the finish that took effect, if one did. */
  ghost predicate OutcomeShown(c: JobRow, events: seq<Event>, r: JobRow)
    requires AllUpdates(events)
  {
    && (forall i: nat :: TakesFinish(c, events, i) ==> DecidedBy(r, events[i].update, c))
    && ((forall i: nat :: !TakesFinish(c, events, i)) ==> OutcomeKept(c, r))
  }

  predicate OutcomeKept(c: JobRow, r: JobRow) {
    && r.status == c.status && r.completedAt == c.completedAt && r.exitCode == c.exitCode && r.error == c.error
    && r.result == c.result && r.operation == c.operation
  }

  /** No managed update touches these. */
  predicate RestShown(c: JobRow, r: JobRow) {
    && r.key == c.key && r.kind == c.kind && r.current == c.current && r.pending == c.pending && r.createdAt == c.createdAt
    && r.lastStartedAt == c.lastStartedAt && r.absenceConfirmed == c.absenceConfirmed && r.applied == c.applied
  }

  ghost predicate HistoryShown(c: JobRow, events: seq<Event>, r: JobRow)
    requires AllUpdates(events)
  {
    && ProgressShown(c, events, r) && TimeShown(c, events, r) && TruncationShown(c, events, r)
    && OutcomeShown(c, events, r) && RestShown(c, r)
    && r.outputBytes == c.outputBytes + LogBytes(events)
  }

  // ----- one more update

  lemma FrontUpdates(events: seq<Event>, x: Event)
    requires AllUpdates(events + [x])
    ensures AllUpdates(events) && x.Update? && WellFormed(x.update)
  {
    assert x in events + [x];
    assert forall y :: y in events ==> y in events + [x];
  }

  ghost predicate Open(c: JobRow, events: seq<Event>)
    requires AllUpdates(events)
  {
    c.status.Active() && forall j :: 0 <= j < |events| ==> !events[j].update.Finish?
  }

  /** What takes effect in a history one update longer. */
  lemma TakesNext(c: JobRow, events: seq<Event>, x: Event, i: nat)
    requires AllUpdates(events + [x]) && AllUpdates(events)
    ensures Takes(c, events + [x], i) <==>
            Takes(c, events, i) || (i == |events| && (x.update.AppendLog? || Open(c, events)))
    ensures Takes(c, events, i) ==> (events + [x])[i] == events[i]
    ensures i == |events| ==> (events + [x])[i] == x
  {
    assert forall j :: 0 <= j < |events| ==> (events + [x])[j] == events[j];
    assert (events + [x])[|events|] == x;
    FrontUpdates(events, x);
  }

  /** A row is active exactly while no finish took effect. */
  lemma {:induction false} ActiveWhileOpen(c: JobRow, events: seq<Event>, r: JobRow)
    requires AllUpdates(events) && OutcomeShown(c, events, r)
    ensures r.status.Active() <==> Open(c, events)
  {
    if c.status.Active() && !Open(c, events) {
      var k := FirstFinish(events);
      assert TakesFinish(c, events, k);
      assert events[k] in events;
    } else {
      assert forall i: nat :: !TakesFinish(c, events, i);
    }
  }

  lemma FirstFinish(events: seq<Event>) returns (k: nat)
    requires AllUpdates(events) && exists j :: 0 <= j < |events| && events[j].update.Finish?
    ensures k < |events| && events[k].update.Finish? && forall j :: 0 <= j < k ==> !events[j].update.Finish?
  {
    k := 0;
    while !events[k].update.Finish?
      invariant k < |events| && forall j :: 0 <= j < k ==> !events[j].update.Finish?
      decreases |events| - k
    {
      if k == |events| - 1 { assert false; }
      k := k + 1;
    }
  }

  lemma ProgressNext(c: JobRow, events: seq<Event>, x: Event, r: JobRow)
    requires AllUpdates(events + [x]) && AllUpdates(events)
    requires ProgressShown(c, events, r) && (r.status.Active() <==> Open(c, events))
    ensures ProgressShown(c, events + [x], Effect(r, x.update))
  {
    FrontUpdates(events, x);
    if Open(c, events) && x.update.UpdateProgress? {
      ProgressOfLast(c, events, x, Effect(r, x.update));
    } else {
      ProgressKept(c, events, x, r, Effect(r, x.update));
    }
  }

  lemma ProgressOfLast(c: JobRow, events: seq<Event>, x: Event, r: JobRow)
    requires AllUpdates(events + [x]) && AllUpdates(events) && x.Update?
    requires Open(c, events) && x.update.UpdateProgress? && x.update.progress.Object?
    requires r.progress == Some(x.update.progress.text)
    ensures ProgressShown(c, events + [x], r)
  {
    TakesNext(c, events, x, |events|);
    assert TakesProgress(c, events + [x], |events|);
    forall i: nat | TakesProgress(c, events + [x], i) && i != |events|
      ensures exists j: nat :: i < j && TakesProgress(c, events + [x], j)
    {
      assert TakesProgress(c, events + [x], |events|);
    }
  }

  lemma ProgressKept(c: JobRow, events: seq<Event>, x: Event, r: JobRow, r': JobRow)
    requires AllUpdates(events + [x]) && AllUpdates(events) && x.Update?
    requires !(Open(c, events) && x.update.UpdateProgress?)
    requires ProgressShown(c, events, r) && r'.progress == r.progress
    ensures ProgressShown(c, events + [x], r')
  {
    forall i: nat ensures TakesProgress(c, events + [x], i) <==> TakesProgress(c, events, i) { TakesNext(c, events, x, i); }
    forall i: nat | TakesProgress(c, events, i) ensures (events + [x])[i] == events[i] { TakesNext(c, events, x, i); }
  }

  lemma TimeNext(c: JobRow, events: seq<Event>, x: Event, r: JobRow)
    requires AllUpdates(events + [x]) && AllUpdates(events)
    requires TimeShown(c, events, r) && (r.status.Active() <==> Open(c, events))
    ensures TimeShown(c, events + [x], Effect(r, x.update))
  {
    FrontUpdates(events, x);
    if Open(c, events) || x.update.AppendLog? {
      TimeOfLast(c, events, x, Effect(r, x.update));
    } else {
      TimeKept(c, events, x, r, Effect(r, x.update));
    }
  }

  lemma TimeOfLast(c: JobRow, events: seq<Event>, x: Event, r: JobRow)
    requires AllUpdates(events + [x]) && AllUpdates(events) && x.Update? && WellFormed(x.update)
    requires Open(c, events) || x.update.AppendLog?
    requires r.updatedAt == TimeOf(x.update)
    ensures TimeShown(c, events + [x], r)
  {
    TakesNext(c, events, x, |events|);
    forall i: nat | Takes(c, events + [x], i) && i != |events|
      ensures exists j: nat :: i < j && Takes(c, events + [x], j)
    {
      assert Takes(c, events + [x], |events|);
    }
  }

  lemma TimeKept(c: JobRow, events: seq<Event>, x: Event, r: JobRow, r': JobRow)
    requires AllUpdates(events + [x]) && AllUpdates(events) && x.Update?
    requires !Open(c, events) && !x.update.AppendLog?
    requires TimeShown(c, events, r) && r'.updatedAt == r.updatedAt
    ensures TimeShown(c, events + [x], r')
  {
    forall i: nat ensures Takes(c, events + [x], i) <==> Takes(c, events, i) { TakesNext(c, events, x, i); }
    forall i: nat | Takes(c, events, i) ensures (events + [x])[i] == events[i] { TakesNext(c, events, x, i); }
  }

  lemma TruncationNext(c: JobRow, events: seq<Event>, x: Event, r: JobRow)
    requires AllUpdates(events + [x]) && AllUpdates(events) && TruncationShown(c, events, r)
    ensures TruncationShown(c, events + [x], Effect(r, x.update))
  {
    var all, n := events + [x], |events|;
    FrontUpdates(events, x);
    assert all[n] == x;
    assert forall i :: 0 <= i < n ==> all[i] == events[i];
    if i :| 0 <= i < n && Truncates(events[i]) { assert Truncates(all[i]); }
    if Truncates(x) { assert Truncates(all[n]); }
  }

  lemma OutcomeNext(c: JobRow, events: seq<Event>, x: Event, r: JobRow)
    requires AllUpdates(events + [x]) && AllUpdates(events)
    requires OutcomeShown(c, events, r) && (r.status.Active() <==> Open(c, events))
    ensures OutcomeShown(c, events + [x], Effect(r, x.update))
  {
    FrontUpdates(events, x);
    if Open(c, events) && x.update.Finish? {
      assert forall i: nat :: !TakesFinish(c, events, i);
      FinishDecides(r, x.update);
      OutcomeOfLast(c, events, x, Effect(r, x.update));
    } else {
      OutcomeUnchanged(r, x.update);
      OutcomeAsBefore(c, events, x, r, Effect(r, x.update));
    }
  }

  lemma OutcomeOfLast(c: JobRow, events: seq<Event>, x: Event, r: JobRow)
    requires AllUpdates(events + [x]) && AllUpdates(events) && x.Update?
    requires Open(c, events) && x.update.Finish? && DecidedBy(r, x.update, c)
    ensures OutcomeShown(c, events + [x], r)
  {
    TakesNext(c, events, x, |events|);
    assert TakesFinish(c, events + [x], |events|);
    forall i: nat | TakesFinish(c, events + [x], i) ensures i == |events| { TakesNext(c, events, x, i); }
  }

  lemma OutcomeUnchanged(r: JobRow, u: ManagedUpdate)
    requires WellFormed(u) && !(r.status.Active() && u.Finish?)
    ensures OutcomeKept(r, Effect(r, u))
  {
  }

  lemma OutcomeAsBefore(c: JobRow, events: seq<Event>, x: Event, r: JobRow, r': JobRow)
    requires AllUpdates(events + [x]) && AllUpdates(events) && x.Update?
    requires !(Open(c, events) && x.update.Finish?)
    requires OutcomeShown(c, events, r) && OutcomeKept(r, r')
    ensures OutcomeShown(c, events + [x], r')
  {
    forall i: nat ensures TakesFinish(c, events + [x], i) <==> TakesFinish(c, events, i) { TakesNext(c, events, x, i); }
    forall i: nat | TakesFinish(c, events, i) ensures (events + [x])[i] == events[i] { TakesNext(c, events, x, i); }
  }

  lemma RestNext(c: JobRow, r: JobRow, u: ManagedUpdate)
    requires RestShown(c, r) && WellFormed(u)
    ensures RestShown(c, Effect(r, u))
  {
  }

  // ----- the whole history

  /** The row a history of well-formed updates leads to, field by field. */
  lemma {:induction false} FoldShowsHistory(c: JobRow, events: seq<Event>)
    requires AllUpdates(events)
    ensures HistoryShown(c, events, Fold(c, events))
    decreases |events|
  {
    if events == [] {
      EmptyHistory(c);
    } else {
      var init, x := events[..|events| - 1], events[|events| - 1];
      LastApart(events);
      FrontUpdates(init, x);
      FoldShowsHistory(c, init);
      OneMoreShown(c, init, x, Fold(c, init));
      FoldAppend(c, init, x);
    }
  }

  lemma EmptyHistory(c: JobRow)
    ensures HistoryShown(c, [], c)
  {
    assert forall i: nat :: !TakesProgress(c, [], i);
    assert forall i: nat :: !Takes(c, [], i);
    assert forall i: nat :: !TakesFinish(c, [], i);
  }

  lemma OneMoreShown(c: JobRow, events: seq<Event>, x: Event, r: JobRow)
    requires AllUpdates(events + [x]) && AllUpdates(events) && HistoryShown(c, events, r)
    ensures HistoryShown(c, events + [x], Effect(r, x.update))
  {
    FrontUpdates(events, x);
    ActiveWhileOpen(c, events, r);
    ProgressNext(c, events, x, r);
    TimeNext(c, events, x, r);
    TruncationNext(c, events, x, r);
    OutcomeNext(c, events, x, r);
    RestNext(c, r, x.update);
    LogBytesAppend(events, x);
    BytesNext(r, x);
  }

  lemma BytesNext(r: JobRow, x: Event)
    requires x.Update? && WellFormed(x.update)
    ensures Effect(r, x.update).outputBytes == r.outputBytes + LogBytes([x])
  {
    assert [x][..0] == [];
  }

  /** `LogBytes` is the sum of the appended counts: additive, and the count of the append for one update. */
  lemma LogBytesIsTheSum(s: seq<Event>, t: seq<Event>, x: Event)
    ensures LogBytes(s + t) == LogBytes(s) + LogBytes(t)
    ensures LogBytes([x]) == (if x.Update? && x.update.AppendLog? && x.update.bytes.Number? then x.update.bytes.n else 0)
  {
    LogBytesConcat(s, t);
    assert [x][..0] == [];
  }

  // ----- one update, whatever its shape

  /** An update raises exactly when a field it comes to does not convert or an object does not fit; an inactive row
      never gets that far with a progress or a finish. */
  lemma RaisesWhen(job: JobRow, u: ManagedUpdate, now: int)
    ensures !ApplyManagedUpdate(job, u, now).ok <==>
      match u
      case AppendLog(bytes, _, updatedAt) => bytes == Junk || updatedAt == Junk
      case UpdateProgress(progress, updatedAt) =>
        job.status in {Starting, Running, Stopping, Retrying} && (TooBig(progress) || updatedAt == Junk)
      case Finish(_, completedAt, _, _, result) =>
        job.status in {Starting, Running, Stopping, Retrying}
        && (completedAt == Junk || (result.Some? && TooBig(result.value)))
  {
  }

  /** What the runtime writes: counts from zero on, real times, objects that fit, and outcomes that are final. */
  lemma RuntimeWrites(bytes: nat, truncated: bool, at: int, text: string, size: nat, status: Status, exitCode: Option<int>,
                      error: Option<string>, answer: Option<string>)
    requires at != 0 && size <= 262144 && status in {Succeeded, Failed, Exited, Stopped, Lost}
    ensures WellFormed(AppendLog(Number(bytes), truncated, Number(at)))
    ensures WellFormed(UpdateProgress(Object(text, size), Number(at)))
    ensures WellFormed(Finish(Some(status), Number(at), exitCode, error,
                              if answer.Some? then Some(Object(answer.value, size)) else None))
  {
  }

  predicate TooBig(v: JsonValue) { v == NotObject || (v.Object? && v.size > 262144) }

  /** What a log append leaves: no count ever falls, only positive counts are added, and only a time that can be
      used replaces the row's, the present time standing in for a missing one. */
  lemma AppendLeaves(job: JobRow, u: ManagedUpdate, now: int)
    requires u.AppendLog?
    ensures var r := ApplyManagedUpdate(job, u, now).row;
      if u.bytes == Junk then r == job
      else
        && r.outputBytes == job.outputBytes + (if u.bytes.Number? && u.bytes.n > 0 then u.bytes.n else 0)
        && r.logTruncated == (job.logTruncated || u.truncated)
        && r.updatedAt == (if u.updatedAt == Junk then job.updatedAt
                           else if u.updatedAt.Number? && u.updatedAt.n != 0 then u.updatedAt.n else now)
        && r.status == job.status && r.progress == job.progress && r.result == job.result && r.key == job.key
  {
  }

  // ----- in runs

  /** In every run: while other transactions leave the row alone, the replayed primary row shows the history of
      the updates its handler issued, field by field. */
  lemma ReplayedRowShowsHistory(states: seq<World>, steps: seq<Step>, i: nat, r: JobRow, now: int)
    requires Run(states, steps) && i < |states| && states[i].intact && r.key !in states[i].disordered
    requires states[i].primary.Holds? && r in states[i].primary.copy.rows
    requires r.key in states[i].primary.copy.trace && AllSpare(states[i].primary.copy.trace[r.key], r.key)
    ensures var w := states[i];
      && r.key in w.created && r.key in w.issued && AllUpdates(w.issued[r.key])
      && |Replay([r], w.journal, {}, now)| == 1
      && HistoryShown(w.created[r.key], w.issued[r.key], Content(Replay([r], w.journal, {}, now)[0]))
  {
    var w := states[i];
    OrderedRefinement(states, steps, i, r, now);
    RunsKeepTheInvariant(states, steps, i);
    IssuedAreUpdates(w, r.key);
    FoldShowsHistory(w.created[r.key], w.issued[r.key]);
  }

  lemma IssuedAreUpdates(w: World, key: JobKey)
    requires Safe(w) && key in w.issued
    ensures AllUpdates(w.issued[key])
  {
  }

  /** With edits that only keep the outcome, the progress is still that of the updates issued. */
  lemma ReplayedRowShowsProgress(states: seq<World>, steps: seq<Step>, i: nat, r: JobRow, now: int)
    requires Run(states, steps) && i < |states| && states[i].intact && r.key !in states[i].disordered
    requires states[i].primary.Holds? && r in states[i].primary.copy.rows
    requires r.key in states[i].primary.copy.trace && AllKeepOutcome(states[i].primary.copy.trace[r.key], r.key)
    ensures var w := states[i];
      && r.key in w.created && r.key in w.issued && AllUpdates(w.issued[r.key])
      && |Replay([r], w.journal, {}, now)| == 1
      && ProgressShown(w.created[r.key], w.issued[r.key], Replay([r], w.journal, {}, now)[0])
  {
    var w := states[i];
    OrderedRefinement(states, steps, i, r, now);
    RunsKeepTheInvariant(states, steps, i);
    IssuedAreUpdates(w, r.key);
    assert RowFits(r, w.primary.copy, w);
    var t, p := w.primary.copy.trace[r.key], Pending(r, w.journal);
    TraceIsWellFormed(w, t + p, w.issued[r.key]);
    PendingKeepsOutcome(r, t, w.journal);
    OutcomeIsOfUpdates(w.created[r.key], t + p);
    FoldShowsHistory(w.created[r.key], w.issued[r.key]);
    OutcomeOfContent(Replay([r], w.journal, {}, now)[0]);
  }
}
