/** What every run of the job store guarantees about deferred updates. */
module JournalTheorems {
  import opened Common
  import opened JobState
  import opened Decimal
  import opened Journal
  import opened JournalNames
  import opened JournalRuns

  /** The invariants hold at every state of every run. */
  lemma {:induction false} RunsKeepTheInvariant(states: seq<World>, steps: seq<Step>, i: nat)
    requires Run(states, steps) && i < |states|
    ensures Safe(states[i]) && Whole(states[i]) && Orderly(states[i])
  {
    if i > 0 {
      RunsKeepTheInvariant(states, steps, i - 1);
      SafeStep(states[i - 1], steps[i - 1]);
      WholeStep(states[i - 1], steps[i - 1]);
      OrderlyStep(states[i - 1], steps[i - 1]);
    }
  }

  // ----- a row with its waiting files replayed

  lemma {:induction false} FoldConcat(c: JobRow, s: seq<Event>, t: seq<Event>)
    ensures Fold(c, s + t) == Fold(Fold(c, s), t)
    decreases |t|
  {
    if t == [] {
      assert s + t == s;
    } else {
      var n := |t| - 1;
      FoldConcat(c, s, t[..n]);
      assert s + t == (s + t[..n]) + [t[n]];
      FoldAppend(c, s + t[..n], t[n]);
    }
  }

  ghost predicate FilesWellFormed(journal: seq<Entry>) {
    DistinctIds(journal) && forall e :: e in journal && e.content.Recorded? ==> WellFormed(e.content.update)
  }

  /** Replaying one file into a one-row store. */
  lemma ReplayOne(r: JobRow, e: Entry, now: int)
    requires e.content.Recorded? ==> WellFormed(e.content.update)
    ensures var rows := ReplayEntry([r], e, {}, now);
      && |rows| == 1 && rows[0].key == r.key
      && (if e.For(r.key) && e.id !in r.applied
          then rows[0] == Effect(r, e.content.update).(applied := r.applied + [e.id])
            && Content(rows[0]) == Effect(Content(r), e.content.update)
          else rows[0] == r)
  {
    if e.content.Recorded? {
      WellFormedUpdatesAreDeterministic(r, e.content.update, now, []);
      if e.For(r.key) {
        assert FindSessionJob([r], r.key) == 0;
      } else {
        assert FindSessionJob([r], e.content.key) == 1;
      }
    }
  }

  lemma {:induction false} ReplayKeepsListed(r: JobRow, journal: seq<Entry>, now: int, id: UpdateId)
    requires FilesWellFormed(journal)
    requires forall e :: e in journal ==> e.id != id
    ensures |Replay([r], journal, {}, now)| == 1 && Replay([r], journal, {}, now)[0].key == r.key
    ensures id in Replay([r], journal, {}, now)[0].applied <==> id in r.applied
    decreases |journal|
  {
    if journal != [] {
      var n := |journal| - 1;
      ReplayKeepsListed(r, journal[..n], now, id);
      var before := Replay([r], journal[..n], {}, now)[0];
      assert Replay([r], journal[..n], {}, now) == [before];
      ReplayOne(before, journal[n], now);
    }
  }

  /** Replaying the whole journal into a row plays exactly its waiting updates, in order. */
  lemma {:induction false} ReplayPlaysPending(r: JobRow, journal: seq<Entry>, now: int)
    requires FilesWellFormed(journal)
    ensures |Replay([r], journal, {}, now)| == 1 && Replay([r], journal, {}, now)[0].key == r.key
    ensures Content(Replay([r], journal, {}, now)[0]) == Fold(Content(r), Pending(r, journal))
    decreases |journal|
  {
    if journal != [] {
      var n := |journal| - 1;
      var e := journal[n];
      ReplayPlaysPending(r, journal[..n], now);
      ReplayKeepsListed(r, journal[..n], now, e.id);
      var before := Replay([r], journal[..n], {}, now)[0];
      assert Replay([r], journal[..n], {}, now) == [before];
      ReplayOne(before, e, now);
      PendingPlays(r, journal);
    }
  }

  /** The last file's part in the waiting updates. */
  lemma PendingPlays(r: JobRow, journal: seq<Entry>)
    requires journal != []
    ensures var n := |journal| - 1;
      var e := journal[n];
      Fold(Content(r), Pending(r, journal))
      == (if e.For(r.key) && e.id !in r.applied
          then Effect(Fold(Content(r), Pending(r, journal[..n])), e.content.update)
          else Fold(Content(r), Pending(r, journal[..n])))
  {
    var n := |journal| - 1;
    var e := journal[n];
    if e.For(r.key) && e.id !in r.applied {
      FoldAppend(Content(r), Pending(r, journal[..n]), EventOf(e));
    } else {
      assert Pending(r, journal) == Pending(r, journal[..n]) + [] == Pending(r, journal[..n]);
    }
  }

  /** Some file waits for the row with this event. */
  ghost predicate Waits(x: Event, r: JobRow, journal: seq<Entry>) {
    exists e :: e in journal && e.For(r.key) && e.id !in r.applied && EventOf(e) == x
  }

  lemma {:induction false} PendingMembers(r: JobRow, journal: seq<Entry>)
    ensures forall x :: x in Pending(r, journal) <==> Waits(x, r, journal)
  {
    if journal != [] {
      var n := |journal| - 1;
      PendingMembers(r, journal[..n]);
      forall x ensures x in Pending(r, journal) <==> Waits(x, r, journal) {
        if Waits(x, r, journal[..n]) {
          var e :| e in journal[..n] && e.For(r.key) && e.id !in r.applied && EventOf(e) == x;
          assert e in journal;
        }
        if Waits(x, r, journal) {
          var e :| e in journal && e.For(r.key) && e.id !in r.applied && EventOf(e) == x;
          assert e in journal[..n] || e == journal[n];
        }
      }
    }
  }

  lemma {:induction false} PendingNeverRepeats(r: JobRow, journal: seq<Entry>)
    requires DistinctIds(journal)
    ensures NoRepeat(Pending(r, journal))
  {
    if journal != [] {
      var n := |journal| - 1;
      PendingNeverRepeats(r, journal[..n]);
      PendingMembers(r, journal[..n]);
      var p := Pending(r, journal[..n]);
      forall i | 0 <= i < |p| ensures p[i].Update? && p[i].id != Some(journal[n].id) {
        assert Waits(p[i], r, journal[..n]);
        var e :| e in journal[..n] && e.For(r.key) && e.id !in r.applied && EventOf(e) == p[i];
        var j :| 0 <= j < n && journal[j] == e;
      }
    }
  }

  /** A copy of the store that a crash may leave behind: the primary or the backup file. */
  ghost predicate OnDisk(w: World, c: Copy) {
    w.primary == Holds(c) || w.backup == Holds(c)
  }

  /** What was journaled for a row is exactly what its trace and its waiting files show. */
  lemma PlayedOrWaiting(r: JobRow, r0: JobRow, t: seq<Event>, issued: seq<Event>, journal: seq<Entry>)
    requires RowOk(r, r0, t, issued, journal)
    ensures forall x: Event :: x.Journaled() ==> (x in issued <==> x in t + Pending(r, journal))
  {
    PendingMembers(r, journal);
    var p := Pending(r, journal);
    forall x: Event | x.Journaled() ensures x in issued <==> x in t + p {
      if x in issued && x !in t {
        var e :| e in journal && e.For(r.key) && EventOf(e) == x;
        assert Waits(x, r, journal);
      }
      if x in p {
        assert Waits(x, r, journal);
        var e :| e in journal && e.For(r.key) && e.id !in r.applied && EventOf(e) == x;
      }
    }
  }

  lemma PlayedAndWaitingOnce(r: JobRow, r0: JobRow, t: seq<Event>, issued: seq<Event>, journal: seq<Entry>)
    requires RowOk(r, r0, t, issued, journal) && NoRepeat(issued) && DistinctIds(journal)
    ensures NoRepeat(t + Pending(r, journal))
  {
    PendingMembers(r, journal);
    PendingNeverRepeats(r, journal);
    var p := Pending(r, journal);
    forall a, b | 0 <= a < |t| && 0 <= b < |p| && t[a].Journaled() && p[b].Journaled() ensures t[a].id != p[b].id {
      assert p[b] in p && t[a] in t;
      assert Waits(p[b], r, journal);
      var e :| e in journal && e.For(r.key) && e.id !in r.applied && EventOf(e) == p[b];
      if t[a].id == p[b].id {
        NoRepeatMeansEqual(issued, t[a], p[b]);
      }
    }
  }

  /** Exactly once: in every state of every run and in either store file, each update journaled for
      a row is played in the row or waits in a readable file, once, and nothing else journaled is;
      and replaying the waiting files gives the first value of the row with all of them played. */
  lemma JournaledUpdatesTakeEffectOnce(states: seq<World>, steps: seq<Step>, i: nat, c: Copy, r: JobRow, now: int)
    requires Run(states, steps) && i < |states|
    requires OnDisk(states[i], c) && r in c.rows
    ensures var w := states[i];
      && r.key in c.trace && r.key in w.created && r.key in w.issued
      && (var all := c.trace[r.key] + Pending(r, w.journal);
        && NoRepeat(all)
        && (forall x: Event :: x.Journaled() ==> (x in w.issued[r.key] <==> x in all))
        && Content(r) == Fold(w.created[r.key], c.trace[r.key])
        && |Replay([r], w.journal, {}, now)| == 1
        && Content(Replay([r], w.journal, {}, now)[0]) == Fold(w.created[r.key], all))
  {
    var w := states[i];
    RunsKeepTheInvariant(states, steps, i);
    assert RowFits(r, c, w);
    var t, p := c.trace[r.key], Pending(r, w.journal);
    PlayedOrWaiting(r, w.created[r.key], t, w.issued[r.key], w.journal);
    PlayedAndWaitingOnce(r, w.created[r.key], t, w.issued[r.key], w.journal);
    ReplayPlaysPending(r, w.journal, now);
    FoldConcat(w.created[r.key], t, p);
  }

  /** No file is removed early: once an update's file is gone, every store file that has its row
      already shows the update. */
  lemma RemovedFilesAreInBothStores(states: seq<World>, steps: seq<Step>, i: nat, c: Copy, r: JobRow, x: Event)
    requires Run(states, steps) && i < |states|
    requires OnDisk(states[i], c) && r in c.rows && r.key in states[i].issued
    requires x in states[i].issued[r.key] && x.Journaled()
    requires forall e :: e in states[i].journal ==> Some(e.id) != x.id
    ensures r.key in c.trace && x in c.trace[r.key]
  {
    RunsKeepTheInvariant(states, steps, i);
    assert RowFits(r, c, states[i]);
  }

  // ----- every update once

  ghost function JournaledOnly(events: seq<Event>): seq<Event> {
    if events == [] then []
    else
      var n := |events| - 1;
      JournaledOnly(events[..n]) + (if events[n].Journaled() then [events[n]] else [])
  }

  lemma {:induction false} JournaledMembers(events: seq<Event>)
    ensures forall x :: x in JournaledOnly(events) <==> x in events && x.Journaled()
    ensures NoRepeat(events) ==> Distinct(JournaledOnly(events))
  {
    if events != [] {
      var n := |events| - 1;
      JournaledMembers(events[..n]);
      assert events == events[..n] + [events[n]];
      if NoRepeat(events) && events[n].Journaled() {
        forall x | x in events[..n] && x.Journaled() ensures x != events[n] {
          var i :| 0 <= i < n && events[i] == x;
        }
      }
    }
  }

  lemma {:induction false} JournaledConcat(s: seq<Event>, t: seq<Event>)
    ensures JournaledOnly(s + t) == JournaledOnly(s) + JournaledOnly(t)
    decreases |t|
  {
    if t == [] {
      assert s + t == s;
    } else {
      var n := |t| - 1;
      JournaledConcat(s, t[..n]);
      assert (s + t)[..|s| + n] == s + t[..n];
    }
  }

  lemma {:induction false} PendingIsJournaled(r: JobRow, journal: seq<Entry>)
    ensures JournaledOnly(Pending(r, journal)) == Pending(r, journal)
    ensures Directs(Pending(r, journal)) == []
  {
    if journal != [] {
      var n := |journal| - 1;
      PendingIsJournaled(r, journal[..n]);
      var p := Pending(r, journal[..n]);
      if journal[n].For(r.key) && journal[n].id !in r.applied {
        JournaledConcat(p, [EventOf(journal[n])]);
        assert [EventOf(journal[n])][..0] == [];
        DirectsAppend(p, EventOf(journal[n]));
      } else {
        assert Pending(r, journal) == p + [] == p;
      }
    }
  }

  /** Distinct elements and the same members: the same elements as often. */
  lemma SameMembersOnce(s: seq<Event>, t: seq<Event>)
    requires Distinct(s) && Distinct(t) && forall x :: x in s <==> x in t
    ensures multiset(s) == multiset(t)
  {
    forall x ensures multiset(s)[x] == multiset(t)[x] {
      DistinctOccursOnce(s, x);
      DistinctOccursOnce(t, x);
      assert x in s <==> x in multiset(s);
      assert x in t <==> x in multiset(t);
    }
  }

  lemma {:induction false} UpdatesAreOfTwoKinds(events: seq<Event>)
    ensures multiset(OnlyUpdates(events)) == multiset(JournaledOnly(events)) + multiset(Directs(events))
  {
    if events != [] {
      UpdatesAreOfTwoKinds(events[..|events| - 1]);
    }
  }

  lemma {:induction false} DirectsConcat(s: seq<Event>, t: seq<Event>)
    ensures Directs(s + t) == Directs(s) + Directs(t)
    decreases |t|
  {
    if t == [] {
      assert s + t == s;
    } else {
      var n := |t| - 1;
      DirectsConcat(s, t[..n]);
      assert (s + t)[..|s| + n] == s + t[..n];
    }
  }

  /** In either store file, with no condition on what could be read: the journaled updates that are played
      or waiting are those issued, each once. */
  lemma JournaledAsIssued(states: seq<World>, steps: seq<Step>, i: nat, c: Copy, r: JobRow)
    requires Run(states, steps) && i < |states|
    requires OnDisk(states[i], c) && r in c.rows
    ensures var w := states[i];
      && r.key in c.trace && r.key in w.issued
      && multiset(JournaledOnly(c.trace[r.key]) + Pending(r, w.journal)) == multiset(JournaledOnly(w.issued[r.key]))
  {
    var w := states[i];
    JournaledUpdatesTakeEffectOnce(states, steps, i, c, r, 0);
    RunsKeepTheInvariant(states, steps, i);
    var t, p, issued := c.trace[r.key], Pending(r, w.journal), w.issued[r.key];
    JournaledMembers(t + p);
    JournaledMembers(issued);
    SameMembersOnce(JournaledOnly(t + p), JournaledOnly(issued));
    JournaledConcat(t, p);
    PendingIsJournaled(r, w.journal);
  }

  /** While the primary was never damaged: every update the handler completed, direct or deferred, is played
      in the primary row or waits in a file, once, whatever files could be read and whoever wrote them. */
  lemma EveryUpdateTakesEffectOnce(states: seq<World>, steps: seq<Step>, i: nat, r: JobRow)
    requires Run(states, steps) && i < |states| && states[i].intact
    requires states[i].primary.Holds? && r in states[i].primary.copy.rows
    ensures var w := states[i];
      && r.key in w.primary.copy.trace && r.key in w.issued
      && multiset(OnlyUpdates(w.primary.copy.trace[r.key] + Pending(r, w.journal))) == multiset(w.issued[r.key])
  {
    var w := states[i];
    JournaledAsIssued(states, steps, i, w.primary.copy, r);
    RunsKeepTheInvariant(states, steps, i);
    var t, p, issued := w.primary.copy.trace[r.key], Pending(r, w.journal), w.issued[r.key];
    PendingIsJournaled(r, w.journal);
    JournaledConcat(t, p);
    DirectsConcat(t, p);
    UpdatesAreOfTwoKinds(t + p);
    UpdatesAreOfTwoKinds(issued);
    OnlyUpdatesAlready(issued);
    assert Directs(t) + [] == Directs(t);
  }

  // ----- issue order

  /** This edit leaves the job's row alone. */
  ghost predicate Spares(x: Event, key: JobKey) {
    x.Edit? ==> forall c: JobRow {:trigger EditRow(x.change, c)} :: c.key == key ==> EditRow(x.change, c) == c
  }

  ghost predicate AllSpare(events: seq<Event>, key: JobKey) {
    forall x :: x in events ==> Spares(x, key)
  }

  /** Edits that leave the row alone drop out. */
  lemma {:induction false} SparingEditsDropOut(c: JobRow, events: seq<Event>)
    requires AllSpare(events, c.key) && UpdatesWellFormed(events)
    ensures Fold(c, events) == Fold(c, OnlyUpdates(events)) && Fold(c, events).key == c.key
    decreases |events|
  {
    if events != [] {
      var n := |events| - 1;
      var x := events[n];
      assert x in events;
      SparingEditsDropOut(c, events[..n]);
      if x.Update? {
        FoldAppend(c, OnlyUpdates(events[..n]), x);
        WellFormedUpdatesAreDeterministic(Fold(c, events[..n]), x.update, 0, []);
      } else {
        assert OnlyUpdates(events) == OnlyUpdates(events[..n]);
      }
    }
  }

  /** Ordered refinement: while the primary was never damaged, and no file of the job was unreadable or named
      before an older one, the primary row with its waiting files replayed is the first value of the row
      with the handler's completed updates played in issue order, whichever were direct and whichever
      deferred. Edits of the row by other transactions come in between; those that leave it alone do not
      matter. */
  lemma OrderedRefinement(states: seq<World>, steps: seq<Step>, i: nat, r: JobRow, now: int)
    requires Run(states, steps) && i < |states| && states[i].intact && r.key !in states[i].disordered
    requires states[i].primary.Holds? && r in states[i].primary.copy.rows
    ensures var w := states[i];
      && r.key in w.primary.copy.trace && r.key in w.created && r.key in w.issued
      && (var all := w.primary.copy.trace[r.key] + Pending(r, w.journal);
        && OnlyUpdates(all) == w.issued[r.key]
        && |Replay([r], w.journal, {}, now)| == 1
        && Content(Replay([r], w.journal, {}, now)[0]) == Fold(w.created[r.key], all)
        && (AllSpare(w.primary.copy.trace[r.key], r.key) ==>
              Content(Replay([r], w.journal, {}, now)[0]) == Fold(w.created[r.key], w.issued[r.key])))
  {
    var w := states[i];
    JournaledUpdatesTakeEffectOnce(states, steps, i, w.primary.copy, r, now);
    RunsKeepTheInvariant(states, steps, i);
    assert RowFits(r, w.primary.copy, w);
    var t, p := w.primary.copy.trace[r.key], Pending(r, w.journal);
    TraceIsWellFormed(w, t + p, w.issued[r.key]);
    PendingMembers(r, w.journal);
    if AllSpare(t, r.key) {
      forall x | x in t + p ensures Spares(x, r.key) {
        if x in p { assert Waits(x, r, w.journal); }
      }
      SparingEditsDropOut(w.created[r.key], t + p);
    }
  }

  lemma TraceIsWellFormed(w: World, events: seq<Event>, issued: seq<Event>)
    requires OnlyUpdates(events) == issued || multiset(OnlyUpdates(events)) == multiset(issued)
    requires forall x :: x in issued ==> x.Update? && WellFormed(x.update)
    ensures UpdatesWellFormed(events)
  {
    forall x | x in events && x.Update? ensures WellFormed(x.update) {
      InOnlyUpdates(events, x);
      assert x in multiset(OnlyUpdates(events));
      assert x in issued by { assert x in multiset(issued); }
    }
  }

  // ----- one owner

  /** This deferral, if it is of job `k`, comes from the process that last journaled for the job; or from a
      process that journals for the first time, or when no file of the job is left. Its number fits the
      name. */
  ghost predicate Owned(w: World, s: Step, k: JobKey) {
    s.Defer? && s.key == k ==>
      && NewId(w, s.process, s.stamp, s.nonce).sequence < Pow10(SEQUENCE_WIDTH)
      && (if k in w.writer then w.writer[k] == s.process else s.process !in w.next || !AnyFor(w.journal, k))
  }

  ghost predicate Ahead(w: World, k: JobKey) {
    && (k in w.writer ==> w.writer[k] in w.next)
    && (forall e :: e in w.journal && e.For(k) ==>
          e.id.sequence < Pow10(SEQUENCE_WIDTH) && (k in w.writer ==> e.id.sequence < w.next[w.writer[k]]))
  }

  lemma NotPlacedBefore(e: Entry, id: UpdateId)
    requires e.id.sequence < id.sequence < Pow10(SEQUENCE_WIDTH)
    ensures NamedBefore(e.id, id)
  {
    NameOrderIsSequenceOrder(e.id, id);
  }

  /** A number above those of all files of the job is placed behind them. */
  lemma PlacedBehind(journal: seq<Entry>, id: UpdateId, k: JobKey)
    requires id.sequence < Pow10(SEQUENCE_WIDTH)
    requires forall e :: e in journal && e.For(k) ==> e.id.sequence < id.sequence
    ensures !AnyFor(journal[NamePlace(journal, id)..], k)
  {
    var at := NamePlace(journal, id);
    forall j | at <= j < |journal| ensures !journal[j].For(k) {
      if journal[j].For(k) {
        assert journal[j] in journal;
        NotPlacedBefore(journal[j], id);
      }
    }
    forall e | e in journal[at..] ensures !e.For(k) {
      var j :| at <= j < |journal| && journal[j] == e;
    }
  }

  lemma OwnDeferStaysAhead(w: World, s: Step, k: JobKey)
    requires Safe(w) && Enabled(w, s) && Ahead(w, k) && Owned(w, s, k) && s.Defer?
    ensures Ahead(Take(w, s), k)
  {
    var id := NewId(w, s.process, s.stamp, s.nonce);
    InsertedMembers(w.journal, NamePlace(w.journal, id), Entry(id, Recorded(s.key, s.update)));
  }

  /** The owner's new number is above those of all files of the job. */
  lemma OwnNumberIsAhead(w: World, s: Step, k: JobKey)
    requires Safe(w) && Enabled(w, s) && Ahead(w, k) && Owned(w, s, k) && s.Defer? && s.key == k
    ensures forall e :: e in w.journal && e.For(k) ==> e.id.sequence < NewId(w, s.process, s.stamp, s.nonce).sequence
  {
  }

  lemma OwnDeferKeepsOrder(w: World, s: Step, k: JobKey)
    requires Safe(w) && Enabled(w, s) && Ahead(w, k) && Owned(w, s, k) && s.Defer?
    ensures k !in w.disordered ==> k !in Take(w, s).disordered
  {
    if s.key == k {
      OwnNumberIsAhead(w, s, k);
      PlacedBehind(w.journal, NewId(w, s.process, s.stamp, s.nonce), k);
    }
  }

  lemma OwnedStepKeepsOrder(w: World, s: Step, k: JobKey)
    requires Safe(w) && Enabled(w, s) && Ahead(w, k) && Owned(w, s, k)
    requires s.Begin? ==> k !in Unread(w.journal, s.unreadable)
    ensures Ahead(Take(w, s), k)
    ensures k !in w.disordered ==> k !in Take(w, s).disordered
  {
    if s.Defer? {
      OwnDeferStaysAhead(w, s, k);
      OwnDeferKeepsOrder(w, s, k);
    }
  }

  /** One owner process keeps a job's files in order, restarts allowed, whatever other processes journal: no
      file of the job is ever named before an older one. */
  lemma {:induction false} OneOwnerKeepsOrder(states: seq<World>, steps: seq<Step>, i: nat, k: JobKey)
    requires Run(states, steps) && i < |states|
    requires forall j :: 0 <= j < i ==> Owned(states[j], steps[j], k)
    requires forall j :: 0 <= j < i && steps[j].Begin? ==> k !in Unread(states[j].journal, steps[j].unreadable)
    ensures k !in states[i].disordered && Ahead(states[i], k)
  {
    if i > 0 {
      OneOwnerKeepsOrder(states, steps, i - 1, k);
      RunsKeepTheInvariant(states, steps, i - 1);
      assert Owned(states[i - 1], steps[i - 1], k);
      OwnedStepKeepsOrder(states[i - 1], steps[i - 1], k);
    }
  }

  /** In every run the journal is a listing sorted by file name. */
  lemma {:induction false} ListingsAreSorted(states: seq<World>, steps: seq<Step>, i: nat)
    requires Run(states, steps) && i < |states|
    ensures AscendingNames(FileNames(states[i].journal))
  {
    if i > 0 {
      ListingsAreSorted(states, steps, i - 1);
      RunsKeepTheInvariant(states, steps, i - 1);
      StepKeepsListing(states[i - 1], steps[i - 1]);
    }
  }

  lemma StepKeepsListing(w: World, s: Step)
    requires Safe(w) && Enabled(w, s) && AscendingNames(FileNames(w.journal))
    ensures AscendingNames(FileNames(Take(w, s).journal))
  {
    if s.Defer? {
      InsertionKeepsNameOrder(w.journal, Entry(NewId(w, s.process, s.stamp, s.nonce), Recorded(s.key, s.update)));
    } else if s.Unlink? && s.succeeds {
      RemovalKeepsNameOrder(w.journal, w.txn.removable[0]);
    }
  }

  lemma TailIsSorted(journal: seq<Entry>, tail: seq<Entry>)
    requires AscendingNames(FileNames(journal)) && journal != [] && tail == journal[1..]
    ensures AscendingNames(FileNames(tail))
    ensures forall e :: e in tail ==> Before(FileName(journal[0].id), FileName(e.id))
  {
    assert FileNames(tail) == FileNames(journal)[1..];
    forall e | e in tail ensures Before(FileName(journal[0].id), FileName(e.id)) {
      var j :| 0 <= j < |tail| && tail[j] == e;
      var names := FileNames(journal);
      assert names[0] == FileName(journal[0].id) && names[j + 1] == FileName(e.id);
      assert Before(names[0], names[j + 1]);
    }
  }

  lemma PrependIsSorted(first: Entry, kept: seq<Entry>)
    requires AscendingNames(FileNames(kept)) && forall e :: e in kept ==> Before(FileName(first.id), FileName(e.id))
    ensures AscendingNames(FileNames([first] + kept))
  {
    forall i | 0 <= i < |kept| ensures Before(FileName(first.id), FileNames(kept)[i]) {
      assert kept[i] in kept;
    }
    assert FileNames([first] + kept) == [FileName(first.id)] + FileNames(kept);
  }

  lemma {:induction false} RemovalKeepsNameOrder(journal: seq<Entry>, id: UpdateId)
    requires AscendingNames(FileNames(journal))
    ensures AscendingNames(FileNames(WithoutId(journal, id)))
    decreases |journal|
  {
    if journal != [] {
      var tail := journal[1..];
      TailIsSorted(journal, tail);
      RemovalKeepsNameOrder(tail, id);
      if journal[0].id != id {
        PrependIsSorted(journal[0], WithoutId(tail, id));
      } else {
        NothingPrepended(WithoutId(tail, id));
      }
    }
  }

  lemma NothingPrepended(s: seq<Entry>)
    ensures [] + s == s
  {
  }

  // ----- consequences for the handler

  ghost predicate AllUpdates(events: seq<Event>) {
    forall x :: x in events ==> x.Update? && WellFormed(x.update)
  }

  /** The fields a finish decides. */
  ghost predicate SameOutcome(a: JobRow, b: JobRow) {
    && a.status == b.status && a.completedAt == b.completedAt && a.exitCode == b.exitCode
    && a.error == b.error && a.result == b.result && a.progress == b.progress && a.operation == b.operation
  }

  lemma {:induction false} OutcomeSettled(c: JobRow, events: seq<Event>)
    requires AllUpdates(events) && !c.status.Active()
    ensures SameOutcome(Fold(c, events), c)
    decreases |events|
  {
    if events != [] {
      OutcomeSettled(c, events[..|events| - 1]);
    }
  }

  lemma FinishDecides(r: JobRow, f: ManagedUpdate)
    requires WellFormed(f) && f.Finish? && r.status.Active()
    ensures var done := Effect(r, f);
      && done.status == (if f.status.Some? then f.status.value else Failed) && !done.status.Active()
      && done.completedAt == Some(f.completedAt.n) && done.exitCode == f.exitCode && done.error == f.error
      && done.result == (if f.result.Some? then Some(f.result.value.text) else r.result)
      && done.progress == r.progress && done.operation == None
  {
  }

  /** The first finish wins: once the row is active and a finish is played, no later managed update
      changes its outcome. */
  lemma FirstFinishWins(c: JobRow, before: seq<Event>, finish: Event, after: seq<Event>)
    requires AllUpdates(before + [finish] + after) && finish.update.Finish?
    requires Fold(c, before).status.Active()
    ensures var f := finish.update;
      var done := Fold(c, before + [finish] + after);
      && done.status == (if f.status.Some? then f.status.value else Failed)
      && done.completedAt == Some(f.completedAt.n) && done.exitCode == f.exitCode && done.error == f.error
      && done.result == (if f.result.Some? then Some(f.result.value.text) else Fold(c, before).result)
      && done.progress == Fold(c, before).progress && done.operation == None
  {
    assert finish in before + [finish] + after;
    var active := Fold(c, before);
    FinishDecides(active, finish.update);
    FoldAppend(c, before, finish);
    FoldConcat(c, before + [finish], after);
    OutcomeSettled(Effect(active, finish.update), after);
  }

  ghost function LogBytes(events: seq<Event>): int {
    if events == [] then 0
    else
      var n := |events| - 1;
      LogBytes(events[..n])
      + (if events[n].Update? && events[n].update.AppendLog? && events[n].update.bytes.Number?
         then events[n].update.bytes.n else 0)
  }

  lemma LogBytesAppend(t: seq<Event>, x: Event)
    ensures LogBytes(t + [x]) == LogBytes(t) + LogBytes([x])
  {
    assert (t + [x])[..|t|] == t;
    assert [x][..0] == [];
  }

  lemma {:induction false} LogBytesConcat(s: seq<Event>, t: seq<Event>)
    ensures LogBytes(s + t) == LogBytes(s) + LogBytes(t)
    decreases |t|
  {
    if t == [] {
      assert s + t == s;
    } else {
      var n := |t| - 1;
      LogBytesConcat(s, t[..n]);
      assert s + t == (s + t[..n]) + [t[n]];
      LogBytesAppend(s + t[..n], t[n]);
      LogBytesAppend(t[..n], t[n]);
      assert t == t[..n] + [t[n]];
    }
  }

  lemma {:induction false} LogBytesOfUpdates(t: seq<Event>)
    ensures LogBytes(OnlyUpdates(t)) == LogBytes(t)
  {
    if t != [] {
      var n := |t| - 1;
      LogBytesOfUpdates(t[..n]);
      assert t == t[..n] + [t[n]];
      LogBytesAppend(t[..n], t[n]);
      if t[n].Update? {
        LogBytesAppend(OnlyUpdates(t[..n]), t[n]);
      } else {
        assert OnlyUpdates(t) == OnlyUpdates(t[..n]) + [] == OnlyUpdates(t[..n]);
        assert [t[n]][..0] == [];
      }
    }
  }

  /** This edit leaves the byte counter of rows with this key alone, whatever it does to others. */
  ghost predicate KeepsBytes(x: Event, key: JobKey) {
    x.Edit? ==> forall c: JobRow {:trigger EditRow(x.change, c)} :: c.key == key ==>
      EditRow(x.change, c).outputBytes == c.outputBytes
  }

  ghost predicate EditsKeepBytes(events: seq<Event>, key: JobKey) {
    forall x :: x in events ==> KeepsBytes(x, key)
  }

  ghost predicate UpdatesWellFormed(events: seq<Event>) {
    forall x :: x in events && x.Update? ==> WellFormed(x.update)
  }

  lemma BytesOfOne(x: Event, c: JobRow)
    requires KeepsBytes(x, c.key) && (x.Update? ==> WellFormed(x.update))
    ensures Play(c, x).outputBytes == c.outputBytes + LogBytes([x]) && Play(c, x).key == c.key
  {
    assert [x][..0] == [];
  }

  /** The byte count of a row is what it was and what the log appends in its history add. */
  lemma {:induction false} FoldCountsBytes(c: JobRow, events: seq<Event>)
    requires UpdatesWellFormed(events) && EditsKeepBytes(events, c.key)
    ensures Fold(c, events).outputBytes == c.outputBytes + LogBytes(events) && Fold(c, events).key == c.key
    decreases |events|
  {
    if events != [] {
      var init, x := events[..|events| - 1], events[|events| - 1];
      assert x in events;
      FoldCountsBytes(c, init);
      BytesOfOne(x, Fold(c, init));
      LastApart(events);
      LogBytesAppend(init, x);
    }
  }

  lemma TakenOut(s: seq<Event>, x: Event, a: seq<Event>, b: seq<Event>)
    requires multiset(s + [x]) == multiset(a + [x] + b)
    ensures multiset(s) == multiset(a + b)
  {
    assert multiset(s + [x]) == multiset(s) + multiset{x};
    assert multiset(a + [x] + b) == multiset(a) + multiset{x} + multiset(b);
    assert multiset(a + b) == multiset(a) + multiset(b);
    assert multiset(s) == multiset(s + [x]) - multiset{x};
  }

  /** Bytes do not depend on order. */
  lemma {:induction false} LogBytesRearranged(s: seq<Event>, t: seq<Event>)
    requires multiset(s) == multiset(t)
    ensures LogBytes(s) == LogBytes(t)
    decreases |s|
  {
    if s == [] {
      assert |multiset(t)| == 0;
    } else {
      var n, x := |s| - 1, s[|s| - 1];
      assert x in multiset(t);
      var j :| 0 <= j < |t| && t[j] == x;
      var rest := t[..j] + t[j + 1..];
      assert s == s[..n] + [x] && t == t[..j] + [x] + t[j + 1..];
      TakenOut(s[..n], x, t[..j], t[j + 1..]);
      LogBytesRearranged(s[..n], rest);
      LogBytesAppend(s[..n], x);
      LogBytesAppend(t[..j], x);
      LogBytesConcat(t[..j] + [x], t[j + 1..]);
      LogBytesConcat(t[..j], t[j + 1..]);
    }
  }

  /** Conservation of journaled log bytes, in every state of every run and in either store file: what the
      trace of a row counts plus what waits in the journal is what was journaled. */
  lemma JournaledBytesAreConserved(states: seq<World>, steps: seq<Step>, i: nat, c: Copy, r: JobRow)
    requires Run(states, steps) && i < |states|
    requires OnDisk(states[i], c) && r in c.rows
    ensures var w := states[i];
      && r.key in c.trace && r.key in w.issued
      && LogBytes(JournaledOnly(c.trace[r.key])) + LogBytes(Pending(r, w.journal)) == LogBytes(JournaledOnly(w.issued[r.key]))
  {
    var w := states[i];
    JournaledAsIssued(states, steps, i, c, r);
    var t, p := JournaledOnly(c.trace[r.key]), Pending(r, w.journal);
    LogBytesRearranged(t + p, JournaledOnly(w.issued[r.key]));
    LogBytesConcat(t, p);
  }

  /** Conservation of log bytes while the primary was never damaged: what the primary row counts plus what
      waits in the journal is what the handler issued, whatever could be read and whoever journaled, as
      long as no other transaction changes this row's counter. */
  lemma LogBytesAreConserved(states: seq<World>, steps: seq<Step>, i: nat, r: JobRow)
    requires Run(states, steps) && i < |states| && states[i].intact
    requires states[i].primary.Holds? && r in states[i].primary.copy.rows
    requires r.key in states[i].primary.copy.trace && EditsKeepBytes(states[i].primary.copy.trace[r.key], r.key)
    ensures var w := states[i];
      && r.key in w.created && r.key in w.issued
      && r.outputBytes + LogBytes(Pending(r, w.journal)) == w.created[r.key].outputBytes + LogBytes(w.issued[r.key])
  {
    var w := states[i];
    EveryUpdateTakesEffectOnce(states, steps, i, r);
    RunsKeepTheInvariant(states, steps, i);
    assert RowFits(r, w.primary.copy, w);
    var t, p := w.primary.copy.trace[r.key], Pending(r, w.journal);
    TraceIsWellFormed(w, t + p, w.issued[r.key]);
    FoldCountsBytes(w.created[r.key], t);
    LogBytesConcat(t, p);
    LogBytesOfUpdates(t + p);
    LogBytesRearranged(OnlyUpdates(t + p), w.issued[r.key]);
  }

  lemma {:induction false} InOnlyUpdates(t: seq<Event>, x: Event)
    requires x in t && x.Update?
    ensures x in OnlyUpdates(t)
  {
    var n := |t| - 1;
    if x != t[n] {
      assert t == t[..n] + [t[n]];
      InOnlyUpdates(t[..n], x);
    }
  }

  /** This edit leaves the fields a finish decides alone. */
  ghost predicate KeepsOutcome(x: Event, key: JobKey) {
    x.Edit? ==> forall c: JobRow {:trigger EditRow(x.change, c)} :: c.key == key ==> SameOutcome(EditRow(x.change, c), c)
  }

  ghost predicate AllKeepOutcome(events: seq<Event>, key: JobKey) {
    forall x :: x in events ==> KeepsOutcome(x, key)
  }

  /** Edits that keep the outcome do not matter to it. */
  lemma {:induction false} OutcomeIsOfUpdates(c: JobRow, events: seq<Event>)
    requires UpdatesWellFormed(events) && AllKeepOutcome(events, c.key)
    ensures SameOutcome(Fold(c, events), Fold(c, OnlyUpdates(events))) && Fold(c, events).key == c.key
    decreases |events|
  {
    if events != [] {
      var n := |events| - 1;
      var x, before := events[n], Fold(c, events[..n]);
      assert x in events;
      OutcomeIsOfUpdates(c, events[..n]);
      if x.Update? {
        FoldAppend(c, OnlyUpdates(events[..n]), x);
        SameOutcomeAfter(before, Fold(c, OnlyUpdates(events[..n])), x.update);
      } else {
        EditKeeps(x, before);
        assert OnlyUpdates(events) == OnlyUpdates(events[..n]) + [] == OnlyUpdates(events[..n]);
      }
    }
  }

  lemma EditKeeps(x: Event, c: JobRow)
    requires x.Edit? && KeepsOutcome(x, c.key)
    ensures SameOutcome(Play(c, x), c) && Play(c, x).key == c.key
  {
  }

  lemma SameOutcomeAfter(a: JobRow, b: JobRow, u: ManagedUpdate)
    requires SameOutcome(a, b) && WellFormed(u)
    ensures SameOutcome(Effect(a, u), Effect(b, u)) && Effect(a, u).key == a.key
  {
  }

  /** What a row shows once this finish has decided it, the row having started as `first`. */
  ghost predicate DecidedBy(r: JobRow, f: ManagedUpdate, first: JobRow)
    requires f.Finish?
  {
    && r.status == (if f.status.Some? then f.status.value else Failed)
    && f.completedAt.Number? && r.completedAt == Some(f.completedAt.n)
    && r.exitCode == f.exitCode && r.error == f.error && r.operation == None
    && (if f.result.Some? then f.result.value.Object? && r.result == Some(f.result.value.text)
        else r.result == first.result)
  }

  /** Together: while other transactions keep the outcome fields of the row, the outcome of the replayed
      primary row is that of the handler's first finish. */
  lemma FirstFinishDecides(states: seq<World>, steps: seq<Step>, i: nat, r: JobRow, now: int, k: nat)
    requires Run(states, steps) && i < |states| && states[i].intact && r.key !in states[i].disordered
    requires states[i].primary.Holds? && r in states[i].primary.copy.rows
    requires r.key in states[i].primary.copy.trace && r.key in states[i].issued && r.key in states[i].created
    requires AllKeepOutcome(states[i].primary.copy.trace[r.key], r.key)
    requires states[i].created[r.key].status.Active()
    requires k < |states[i].issued[r.key]| && states[i].issued[r.key][k].Update?
    requires states[i].issued[r.key][k].update.Finish?
    requires forall j :: 0 <= j < k && states[i].issued[r.key][j].Update? ==> !states[i].issued[r.key][j].update.Finish?
    ensures var f := states[i].issued[r.key][k].update;
      var rows := Replay([r], states[i].journal, {}, now);
      |rows| == 1 && DecidedBy(rows[0], f, states[i].created[r.key])
  {
    var w := states[i];
    OrderedRefinement(states, steps, i, r, now);
    RunsKeepTheInvariant(states, steps, i);
    assert RowFits(r, w.primary.copy, w);
    var t, p := w.primary.copy.trace[r.key], Pending(r, w.journal);
    TraceIsWellFormed(w, t + p, w.issued[r.key]);
    PendingKeepsOutcome(r, t, w.journal);
    OutcomeIsOfUpdates(w.created[r.key], t + p);
    FirstFinishOf(w.created[r.key], w.issued[r.key], k);
    OutcomeOfContent(Replay([r], w.journal, {}, now)[0]);
  }

  lemma OutcomeOfContent(r: JobRow)
    ensures SameOutcome(Content(r), r)
  {
  }

  /** Waiting files hold updates, so only the trace can hold edits. */
  lemma PendingKeepsOutcome(r: JobRow, t: seq<Event>, journal: seq<Entry>)
    requires AllKeepOutcome(t, r.key)
    ensures AllKeepOutcome(t + Pending(r, journal), r.key)
  {
    PendingMembers(r, journal);
    var p := Pending(r, journal);
    forall x | x in t + p ensures KeepsOutcome(x, r.key) {
      if x in p { assert Waits(x, r, journal); }
    }
  }

  /** The outcome of a fold whose first finish is its `k`-th event. */
  lemma FirstFinishOf(c: JobRow, issued: seq<Event>, k: nat)
    requires AllUpdates(issued) && c.status.Active()
    requires k < |issued| && issued[k].Update? && issued[k].update.Finish?
    requires forall j :: 0 <= j < k && issued[j].Update? ==> !issued[j].update.Finish?
    ensures DecidedBy(Fold(c, issued), issued[k].update, c)
  {
    var before, after := issued[..k], issued[k + 1..];
    assert issued == before + [issued[k]] + after;
    UnfinishedStaysActive(c, before);
    FirstFinishWins(c, before, issued[k], after);
  }

  lemma {:induction false} UnfinishedStaysActive(c: JobRow, events: seq<Event>)
    requires AllUpdates(events) && c.status.Active()
    requires forall x :: x in events && x.Update? ==> !x.update.Finish?
    ensures Fold(c, events).status == c.status && Fold(c, events).result == c.result
    decreases |events|
  {
    if events != [] {
      UnfinishedStaysActive(c, events[..|events| - 1]);
    }
  }
}
