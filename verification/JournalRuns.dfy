/** Whole runs of the job store with its deferred-update journal: any number of processes share the
    files; transactions, whose writes and unlinks are separate steps, exclude each other; updates are
    deferred at any moment; processes crash anywhere. */
module JournalRuns {
  import opened Common
  import opened JobState
  import opened Journal
  import opened Retention

  // ----- history

  /** One completed change of one row: a managed update (journaled under an id, or made directly
      in a transaction), or any other edit a transaction body makes. */
  datatype Event = Update(id: Option<UpdateId>, update: ManagedUpdate) | Edit(change: JobRow -> JobRow)
  {
    predicate Journaled() { Update? && id.Some? }
  }

  /** A row edit sees the row without its journal bookkeeping and keeps its key. */
  ghost function EditRow(change: JobRow -> JobRow, r: JobRow): JobRow {
    change(Content(r)).(key := r.key, applied := r.applied)
  }

  ghost function Play(c: JobRow, e: Event): JobRow {
    match e
    case Update(_, u) => Effect(c, u)
    case Edit(change) => EditRow(change, c)
  }

  ghost function Fold(c: JobRow, events: seq<Event>): JobRow {
    if events == [] then c
    else Play(Fold(c, events[..|events| - 1]), events[|events| - 1])
  }

  ghost function OnlyUpdates(events: seq<Event>): seq<Event> {
    if events == [] then []
    else
      var n := |events| - 1;
      OnlyUpdates(events[..n]) + (if events[n].Update? then [events[n]] else [])
  }

  function EventOf(e: Entry): Event
    requires e.content.Recorded?
  {
    Update(Some(e.id), e.content.update)
  }

  /** Journaled updates of one row that its applied list does not show yet, in file-name order. */
  ghost function Pending(r: JobRow, journal: seq<Entry>): seq<Event> {
    if journal == [] then []
    else
      var n := |journal| - 1;
      Pending(r, journal[..n])
      + (if journal[n].For(r.key) && journal[n].id !in r.applied then [EventOf(journal[n])] else [])
  }

  // ----- states

  /** A store copy with, for each row, the events that made its content. */
  datatype Copy = Copy(rows: seq<JobRow>, trace: map<JobKey, seq<Event>>)

  datatype Disk = NoFile | Unreadable | Holds(copy: Copy)

  function File(d: Disk): StoreFile {
    match d
    case NoFile => Absent
    case Unreadable => Damaged
    case Holds(c) => Stored(c.rows)
  }

  datatype Phase = Body | PrimarySaved | BothSaved

  datatype Transaction =
    | Closed
    | Open(process: nat, copy: Copy, owner: Option<JobKey>, direct: Option<ManagedUpdate>,
           removable: seq<UpdateId>, phase: Phase)

  /** `next`: the sequence counter of each live process that has journaled. The rest is history:
      `created`, the first value of each row; `issued`, the managed updates its handler completed, in
      order; `used`, every journal id ever made; `writer`, the live process that last journaled for a job;
      `intact`, whether the primary was never damaged; `disordered`, the jobs of which some file could once
      not be read, or was named before an older file of the same job. */
  datatype World = World(
    primary: Disk, backup: Disk, journal: seq<Entry>, next: map<nat, nat>, txn: Transaction,
    created: map<JobKey, JobRow>, issued: map<JobKey, seq<Event>>, used: set<UpdateId>,
    writer: map<JobKey, nat>, intact: bool, disordered: set<JobKey>)

  datatype Step =
    | Begin(process: nat, owner: Option<JobKey>, unreadable: set<UpdateId>, now: int)
    | EditRows(change: JobRow -> JobRow)
    | AddRow(row: JobRow)
    | RemoveRow(gone: JobKey)
    | Direct(update: ManagedUpdate, now: int)
    | SavePrimary(limit: int)
    | SaveBackup
    | Unlink(succeeds: bool)
    | End
    | Abort
    | Defer(process: nat, key: JobKey, update: ManagedUpdate, stamp: nat, nonce: string)
    | Crash(process: nat)
    | DamagePrimary

  // ----- steps

  /** Replay one file into a copy, recording the event it plays. */
  ghost function ReplayInto(c: Copy, e: Entry, unreadable: set<UpdateId>, now: int): Copy {
    var rows := ReplayEntry(c.rows, e, unreadable, now);
    if e.id in unreadable || e.content.Invalid? then c
    else
      var k := e.content.key;
      var i := FindSessionJob(c.rows, k);
      if i == |c.rows| || e.id in c.rows[i].applied then c
      else Copy(rows, if k in c.trace then c.trace[k := c.trace[k] + [EventOf(e)]] else c.trace)
  }

  ghost function ReplayAll(c: Copy, entries: seq<Entry>, unreadable: set<UpdateId>, now: int): Copy {
    if entries == [] then c
    else
      var n := |entries| - 1;
      ReplayInto(ReplayAll(c, entries[..n], unreadable, now), entries[n], unreadable, now)
  }

  ghost function Loaded(w: World): Option<Copy> {
    if w.primary.Holds? then Some(w.primary.copy)
    else if w.backup.Holds? then Some(w.backup.copy)
    else if w.primary.NoFile? && w.backup.NoFile? then Some(Copy([], map[]))
    else None
  }

  ghost function BeginCopy(w: World, unreadable: set<UpdateId>, now: int): Copy
    requires Loaded(w).Some?
  {
    var c := Loaded(w).value;
    ReplayAll(c.(rows := TrimAll(c.rows, Ids(w.journal))), w.journal, unreadable, now)
  }

  ghost function EditAll(c: Copy, change: JobRow -> JobRow): Copy {
    Copy(seq(|c.rows|, i requires 0 <= i < |c.rows| => EditRow(change, c.rows[i])),
         map k | k in c.trace :: c.trace[k] + [Edit(change)])
  }

  function WithoutRow(rows: seq<JobRow>, key: JobKey): (r: seq<JobRow>)
    ensures forall x :: x in r <==> x in rows && x.key != key
  {
    if rows == [] then []
    else (if rows[0].key == key then [] else [rows[0]]) + WithoutRow(rows[1..], key)
  }

  ghost function DirectCopy(c: Copy, key: JobKey, u: ManagedUpdate, now: int): Copy
    requires FindSessionJob(c.rows, key) < |c.rows| && key in c.trace
  {
    var i := FindSessionJob(c.rows, key);
    Copy(c.rows[i := ApplyManagedUpdate(c.rows[i], u, now).row],
         c.trace[key := c.trace[key] + [Update(None, u)]])
  }

  function NewId(w: World, process: nat, stamp: nat, nonce: string): UpdateId {
    UpdateId(if process in w.next then w.next[process] else NextFree(w.journal), stamp, nonce)
  }

  /** Jobs of the files a transaction could not read. */
  ghost function Unread(journal: seq<Entry>, unreadable: set<UpdateId>): set<JobKey> {
    set e | e in journal && e.id in unreadable && e.content.Recorded? :: e.content.key
  }

  predicate AnyFor(entries: seq<Entry>, key: JobKey) { exists e :: e in entries && e.For(key) }

  /** The journal after one update is deferred: its file in its place by name. */
  ghost function Deferred(w: World, id: UpdateId, key: JobKey, update: ManagedUpdate): World {
    var at := NamePlace(w.journal, id);
    w.(journal := Inserted(w.journal, at, Entry(id, Recorded(key, update))),
       issued := if key in w.issued then w.issued[key := w.issued[key] + [Update(Some(id), update)]] else w.issued,
       used := w.used + {id},
       disordered := if AnyFor(w.journal[at..], key) then w.disordered + {key} else w.disordered)
  }

  ghost predicate Enabled(w: World, s: Step) {
    match s
    case Begin(process, owner, unreadable, now) => w.txn.Closed? && Loaded(w).Some?
    case EditRows(change) => w.txn.Open? && w.txn.phase.Body? && w.txn.owner.None?
    case AddRow(row) =>
      w.txn.Open? && w.txn.phase.Body? && w.txn.owner.None? && row.key !in w.created && row.applied == []
    case RemoveRow(gone) => w.txn.Open? && w.txn.phase.Body? && w.txn.owner.None?
    case Direct(update, now) =>
      && w.txn.Open? && w.txn.phase.Body? && w.txn.owner.Some? && w.txn.direct.None? && WellFormed(update)
      && w.txn.owner.value in w.issued && w.txn.owner.value in w.txn.copy.trace
      && FindSessionJob(w.txn.copy.rows, w.txn.owner.value) < |w.txn.copy.rows|
    case SavePrimary(limit) => w.txn.Open? && w.txn.phase.Body?
    case SaveBackup => w.txn.Open? && w.txn.phase.PrimarySaved?
    case Unlink(succeeds) => w.txn.Open? && w.txn.phase.BothSaved? && w.txn.removable != []
    case End => w.txn.Open? && w.txn.phase.BothSaved? && w.txn.removable == []
    case Abort => w.txn.Open?
    case Defer(process, key, update, stamp, nonce) =>
      // The handler of one job issues its updates one at a time; suffixes are never reused.
      && key in w.created && key in w.issued && WellFormed(update) && NewId(w, process, stamp, nonce) !in w.used
      && (w.txn.Open? ==> w.txn.owner != Some(key))
    case Crash(process) => true
    case DamagePrimary => w.primary.Holds?
  }

  ghost function Take(w: World, s: Step): World
    requires Enabled(w, s)
  {
    match s
    case Begin(process, owner, unreadable, now) =>
      w.(txn := Open(process, BeginCopy(w, unreadable, now), owner, None, Removable(w.journal, unreadable), Body),
         disordered := w.disordered + Unread(w.journal, unreadable))
    case EditRows(change) => w.(txn := w.txn.(copy := EditAll(w.txn.copy, change)))
    case AddRow(row) =>
      w.(txn := w.txn.(copy := Copy(w.txn.copy.rows + [row], w.txn.copy.trace[row.key := []])),
         created := w.created[row.key := row], issued := w.issued[row.key := []])
    case RemoveRow(gone) =>
      w.(txn := w.txn.(copy := w.txn.copy.(rows := WithoutRow(w.txn.copy.rows, gone))))
    case Direct(update, now) =>
      w.(txn := w.txn.(copy := DirectCopy(w.txn.copy, w.txn.owner.value, update, now), direct := Some(update)))
    case SavePrimary(limit) =>
      var saved := w.txn.copy.(rows := PruneStore(w.txn.copy.rows, limit));
      w.(primary := Holds(saved), txn := w.txn.(copy := saved, direct := None, phase := PrimarySaved),
         issued := if w.txn.direct.Some? && w.txn.owner.Some? && w.txn.owner.value in w.issued
                   then w.issued[w.txn.owner.value := w.issued[w.txn.owner.value] + [Update(None, w.txn.direct.value)]]
                   else w.issued)
    case SaveBackup => w.(backup := Holds(w.txn.copy), txn := w.txn.(phase := BothSaved))
    case Unlink(succeeds) =>
      w.(journal := if succeeds then WithoutId(w.journal, w.txn.removable[0]) else w.journal,
         txn := w.txn.(removable := w.txn.removable[1..]))
    case End => w.(txn := Closed)
    case Abort => w.(txn := Closed)
    case Defer(process, key, update, stamp, nonce) =>
      var id := NewId(w, process, stamp, nonce);
      Deferred(w, id, key, update).(next := w.next[process := id.sequence + 1], writer := w.writer[key := process])
    case Crash(process) =>
      w.(txn := if w.txn.Open? && w.txn.process == process then Closed else w.txn,
         next := w.next - {process},
         writer := map k | k in w.writer && w.writer[k] != process :: w.writer[k])
    case DamagePrimary => w.(primary := Unreadable, intact := false)
  }

  ghost const START := World(NoFile, NoFile, [], map[], Closed, map[], map[], {}, map[], true, {})

  ghost predicate Run(states: seq<World>, steps: seq<Step>) {
    && |states| == |steps| + 1
    && states[0] == START
    && forall i :: 0 <= i < |steps| ==> Enabled(states[i], steps[i]) && states[i + 1] == Take(states[i], steps[i])
  }

  // ----- the invariant

  ghost predicate NoRepeat(events: seq<Event>) {
    forall i, j :: 0 <= i < j < |events| && events[i].Journaled() && events[j].Journaled()
      ==> events[i].id != events[j].id
  }

  /** One row against its history: its content is its trace, every journaled update is either
      played and listed or still waiting in a file, and never both. */
  ghost predicate RowOk(r: JobRow, r0: JobRow, t: seq<Event>, issued: seq<Event>, journal: seq<Entry>) {
    && r0.key == r.key && r0.applied == []
    && Content(r) == Fold(r0, t)
    && NoRepeat(t)
    && (forall x :: x in t && x.Journaled() ==> x in issued)
    && (forall e :: e in journal && e.For(r.key) ==>
        EventOf(e) in issued && (EventOf(e) in t <==> e.id in r.applied))
    && (forall x :: x in issued && x.Journaled() && x !in t ==>
        exists e :: e in journal && e.For(r.key) && EventOf(e) == x)
  }

  ghost predicate RowFits(r: JobRow, c: Copy, w: World) {
    && r.key in c.trace && r.key in w.created && r.key in w.issued
    && RowOk(r, w.created[r.key], c.trace[r.key], w.issued[r.key], w.journal)
    && (forall id :: id in r.applied ==> id in w.used)
  }

  ghost predicate CopyOk(c: Copy, w: World) {
    && DistinctKeys(c.rows)
    && forall r :: r in c.rows ==> RowFits(r, c, w)
  }

  ghost predicate JournalOk(w: World) {
    && DistinctIds(w.journal)
    && (forall e :: e in w.journal ==>
        e.id in w.used && e.content.Recorded? && e.content.key in w.created && WellFormed(e.content.update))
  }

  ghost predicate IssuedOk(w: World) {
    forall k :: k in w.issued ==>
      && NoRepeat(w.issued[k])
      && forall x :: x in w.issued[k] ==> x.Update? && WellFormed(x.update) && (x.id.Some? ==> x.id.value in w.used)
  }

  /** Files queued for removal are fully accounted for in the open transaction's copy. */
  ghost predicate RemovableOk(w: World) {
    w.txn.Open? ==>
      && (forall id :: id in w.txn.removable ==> id in w.used)
      && (forall e, r | e in w.journal && e.id in w.txn.removable && r in w.txn.copy.rows && e.For(r.key) ::
            e.id in r.applied)
  }

  ghost predicate SavedOk(w: World) {
    w.txn.Open? ==>
      && (w.txn.phase.PrimarySaved? || w.txn.phase.BothSaved? ==>
          w.primary == Holds(w.txn.copy) || (w.primary.Unreadable? && !w.intact))
      && (w.txn.phase.BothSaved? ==> w.backup == Holds(w.txn.copy))
      && (!w.txn.phase.Body? ==> w.txn.direct.None?)
      && (w.txn.direct.Some? ==> WellFormed(w.txn.direct.value))
  }

  ghost predicate Safe(w: World) {
    && JournalOk(w) && IssuedOk(w) && RemovableOk(w) && SavedOk(w)
    && w.created.Keys == w.issued.Keys
    && (w.primary.Holds? ==> CopyOk(w.primary.copy, w))
    && (w.backup.Holds? ==> CopyOk(w.backup.copy, w))
    && (w.txn.Open? ==> CopyOk(w.txn.copy, w))
  }

  ghost function Extra(w: World, key: JobKey): seq<Event> {
    if w.txn.Open? && w.txn.direct.Some? && w.txn.owner == Some(key) then [Update(None, w.txn.direct.value)] else []
  }

  /** The handler's updates, in issue order, are those already in the row followed by those waiting. */
  ghost predicate InOrder(r: JobRow, t: seq<Event>, issued: seq<Event>, journal: seq<Entry>) {
    OnlyUpdates(t + Pending(r, journal)) == issued
  }

  /** The same for the open transaction, counting its own direct update as issued. */
  ghost predicate BodyInOrder(w: World) {
    w.txn.Open? && w.txn.phase.Body? ==>
      forall r :: r in w.txn.copy.rows && r.key in w.txn.copy.trace && r.key in w.issued && r.key !in w.disordered ==>
        && InOrder(r, w.txn.copy.trace[r.key], w.issued[r.key] + Extra(w, r.key), w.journal)
        && (w.txn.owner == Some(r.key) ==> Pending(r, w.journal) == [])
  }

  ghost predicate PrimaryInOrder(w: World) {
    w.primary.Holds? ==>
      forall r :: r in w.primary.copy.rows && r.key in w.primary.copy.trace && r.key in w.issued && r.key !in w.disordered ==>
        InOrder(r, w.primary.copy.trace[r.key], w.issued[r.key], w.journal)
  }

  ghost predicate Orderly(w: World) {
    w.intact ==> PrimaryInOrder(w) && BodyInOrder(w)
  }

  /** The updates made directly in a transaction, in order. */
  ghost function Directs(events: seq<Event>): seq<Event> {
    if events == [] then []
    else
      var n := |events| - 1;
      Directs(events[..n]) + (if events[n].Update? && events[n].id.None? then [events[n]] else [])
  }

  ghost predicate CopyDirectsOk(c: Copy, w: World) {
    forall r :: r in c.rows && r.key in c.trace && r.key in w.issued ==>
      Directs(c.trace[r.key]) == Directs(w.issued[r.key] + Extra(w, r.key))
  }

  /** While the primary is intact it is what transactions load, and the direct updates it shows are those
      issued, in order; so too in an open body, with its own. */
  ghost predicate Whole(w: World) {
    w.intact ==>
      && !w.primary.Unreadable? && (w.primary.NoFile? ==> w.backup.NoFile?)
      && (w.primary.Holds? ==>
            forall r :: r in w.primary.copy.rows && r.key in w.primary.copy.trace && r.key in w.issued ==>
              Directs(w.primary.copy.trace[r.key]) == Directs(w.issued[r.key]))
      && (w.txn.Open? && w.txn.phase.Body? ==> CopyDirectsOk(w.txn.copy, w))
  }

  // ----- sequences of events and files

  lemma FoldAppend(c: JobRow, t: seq<Event>, e: Event)
    ensures Fold(c, t + [e]) == Play(Fold(c, t), e)
  {
    assert (t + [e])[..|t|] == t;
  }

  lemma UpdatesAppend(t: seq<Event>, e: Event)
    ensures OnlyUpdates(t + [e]) == OnlyUpdates(t) + (if e.Update? then [e] else [])
  {
    assert (t + [e])[..|t|] == t;
  }

  lemma {:induction false} UpdatesConcat(s: seq<Event>, t: seq<Event>)
    ensures OnlyUpdates(s + t) == OnlyUpdates(s) + OnlyUpdates(t)
    decreases |t|
  {
    if t == [] {
      assert s + t == s;
    } else {
      var n := |t| - 1;
      UpdatesConcat(s, t[..n]);
      assert s + t == (s + t[..n]) + [t[n]];
      UpdatesAppend(s + t[..n], t[n]);
    }
  }

  lemma {:induction false} OnlyUpdatesAlready(t: seq<Event>)
    requires forall x :: x in t ==> x.Update?
    ensures OnlyUpdates(t) == t
  {
    if t != [] {
      OnlyUpdatesAlready(t[..|t| - 1]);
    }
  }

  lemma {:induction false} PendingConcat(r: JobRow, a: seq<Entry>, b: seq<Entry>)
    ensures Pending(r, a + b) == Pending(r, a) + Pending(r, b)
    decreases |b|
  {
    if b == [] {
      assert a + b == a;
    } else {
      var n := |b| - 1;
      PendingConcat(r, a, b[..n]);
      assert (a + b)[..|a| + n] == a + b[..n];
    }
  }

  lemma {:induction false} PendingNone(r: JobRow, journal: seq<Entry>)
    requires forall e :: e in journal && e.For(r.key) ==> e.id in r.applied
    ensures Pending(r, journal) == []
  {
    if journal != [] {
      PendingNone(r, journal[..|journal| - 1]);
    }
  }

  /** Only membership of the listed ids matters. */
  lemma {:induction false} PendingSame(r: JobRow, s: JobRow, journal: seq<Entry>)
    requires r.key == s.key
    requires forall e :: e in journal ==> (e.id in r.applied <==> e.id in s.applied)
    ensures Pending(r, journal) == Pending(s, journal)
  {
    if journal != [] {
      PendingSame(r, s, journal[..|journal| - 1]);
    }
  }

  lemma PendingHead(r: JobRow, journal: seq<Entry>)
    requires journal != []
    ensures Pending(r, journal) ==
      (if journal[0].For(r.key) && journal[0].id !in r.applied then [EventOf(journal[0])] else []) + Pending(r, journal[1..])
  {
    assert journal == journal[..1] + journal[1..];
    assert journal[..1][..0] == [];
    PendingConcat(r, journal[..1], journal[1..]);
    assert Pending(r, journal[..1][..0]) == [];
  }

  /** Removing a file that the row already lists changes nothing for the row. */
  lemma {:induction false} PendingWithout(r: JobRow, journal: seq<Entry>, id: UpdateId)
    requires forall e :: e in journal && e.id == id && e.For(r.key) ==> id in r.applied
    ensures Pending(r, WithoutId(journal, id)) == Pending(r, journal)
  {
    if journal != [] {
      var tail, kept := journal[1..], WithoutId(journal, id);
      PendingHead(r, journal);
      PendingWithout(r, tail, id);
      if journal[0].id == id {
        assert journal[0] in journal;
        assert kept == WithoutId(tail, id);
      } else {
        assert kept[0] == journal[0] && kept[1..] == WithoutId(tail, id);
        PendingHead(r, kept);
      }
    }
  }

  /** When the files before position `n` are done and file `n` is not, playing it moves exactly the
      first waiting event. */
  lemma PendingFirst(r: JobRow, s: JobRow, journal: seq<Entry>, n: nat)
    requires DistinctIds(journal) && n < |journal| && journal[n].For(r.key) && journal[n].id !in r.applied
    requires forall e :: e in journal[..n] && e.For(r.key) ==> e.id in r.applied
    requires s.key == r.key && s.applied == r.applied + [journal[n].id]
    ensures Pending(r, journal) == [EventOf(journal[n])] + Pending(s, journal)
  {
    var a, e, b := journal[..n], journal[n], journal[n + 1..];
    PendingSplit(r, a, e, b, journal);
    PendingSplit(s, a, e, b, journal);
    PendingNone(r, a);
    PendingNone(s, a);
    PendingAfter(r, s, journal, n);
    FirstOfThree(EventOf(e), Pending(s, b));
  }

  lemma FirstOfThree(x: Event, rest: seq<Event>)
    ensures [] + [x] + rest == [x] + ([] + [] + rest)
  {
  }

  lemma PendingAfter(r: JobRow, s: JobRow, journal: seq<Entry>, n: nat)
    requires DistinctIds(journal) && n < |journal| && s.key == r.key && s.applied == r.applied + [journal[n].id]
    ensures Pending(r, journal[n + 1..]) == Pending(s, journal[n + 1..])
  {
    var b := journal[n + 1..];
    forall f | f in b ensures f.id != journal[n].id {
      var i :| 0 <= i < |b| && b[i] == f;
      assert journal[n + 1 + i] == f;
    }
    PendingSame(r, s, b);
  }

  lemma PendingSplit(r: JobRow, a: seq<Entry>, e: Entry, b: seq<Entry>, journal: seq<Entry>)
    requires journal == a + [e] + b
    ensures Pending(r, journal)
      == Pending(r, a) + (if e.For(r.key) && e.id !in r.applied then [EventOf(e)] else []) + Pending(r, b)
  {
    PendingConcat(r, a + [e], b);
    assert (a + [e])[..|a|] == a;
  }

  lemma SameIdSameFile(journal: seq<Entry>, e: Entry, f: Entry)
    requires DistinctIds(journal) && e in journal && f in journal && e.id == f.id
    ensures e == f
  {
  }

  lemma NoRepeatMeansEqual(events: seq<Event>, x: Event, y: Event)
    requires NoRepeat(events) && x in events && y in events && x.Journaled() && y.Journaled() && x.id == y.id
    ensures x == y
  {
  }

  lemma NoRepeatAppend(t: seq<Event>, x: Event, issued: seq<Event>)
    requires NoRepeat(t) && NoRepeat(issued) && x in issued && x.Journaled() && x !in t
    requires forall y :: y in t && y.Journaled() ==> y in issued
    ensures NoRepeat(t + [x])
  {
    forall i | 0 <= i < |t| && t[i].Journaled() ensures t[i].id != x.id {
      if t[i].id == x.id {
        NoRepeatMeansEqual(issued, t[i], x);
      }
    }
  }

  // ----- one row under each kind of change

  /** Playing a waiting file into its row. */
  lemma RowReplayed(r: JobRow, r0: JobRow, t: seq<Event>, issued: seq<Event>, journal: seq<Entry>, e: Entry, now: int)
    requires RowOk(r, r0, t, issued, journal) && NoRepeat(issued) && DistinctIds(journal)
    requires e in journal && e.For(r.key) && WellFormed(e.content.update) && e.id !in r.applied
    ensures var a := ApplyManagedUpdate(r, e.content.update, now);
      && a.ok && a.row.key == r.key
      && RowOk(a.row.(applied := r.applied + [e.id]), r0, t + [EventOf(e)], issued, journal)
  {
    var u := e.content.update;
    WellFormedUpdatesAreDeterministic(r, u, now, []);
    FoldAppend(r0, t, EventOf(e));
    NoRepeatAppend(t, EventOf(e), issued);
    forall f | f in journal && f.For(r.key)
      ensures EventOf(f) in t + [EventOf(e)] <==> f.id in r.applied + [e.id]
    {
      if f.id == e.id { SameIdSameFile(journal, e, f); }
    }
  }

  /** Dropping listed ids that have no file. */
  lemma RowTrimmed(r: JobRow, r0: JobRow, t: seq<Event>, issued: seq<Event>, journal: seq<Entry>)
    requires RowOk(r, r0, t, issued, journal)
    ensures RowOk(TrimRow(r, Ids(journal)), r0, t, issued, journal)
  {
  }

  lemma RowEdited(r: JobRow, r0: JobRow, t: seq<Event>, issued: seq<Event>, journal: seq<Entry>, change: JobRow -> JobRow)
    requires RowOk(r, r0, t, issued, journal)
    ensures RowOk(EditRow(change, r), r0, t + [Edit(change)], issued, journal)
  {
    FoldAppend(r0, t, Edit(change));
  }

  lemma RowUpdated(r: JobRow, r0: JobRow, t: seq<Event>, issued: seq<Event>, journal: seq<Entry>, u: ManagedUpdate, now: int)
    requires RowOk(r, r0, t, issued, journal) && WellFormed(u)
    ensures RowOk(ApplyManagedUpdate(r, u, now).row, r0, t + [Update(None, u)], issued, journal)
  {
    FoldAppend(r0, t, Update(None, u));
    WellFormedUpdatesAreDeterministic(r, u, now, []);
  }

  lemma RowDeferred(r: JobRow, r0: JobRow, t: seq<Event>, issued: seq<Event>, journal: seq<Entry>, e: Entry, journal': seq<Entry>)
    requires RowOk(r, r0, t, issued, journal) && e.content.Recorded?
    requires e.id !in r.applied
    requires forall x :: x in issued && x.Journaled() ==> x.id != Some(e.id)
    requires forall f :: f in journal' <==> f in journal || f == e
    ensures RowOk(r, r0, t, if e.For(r.key) then issued + [EventOf(e)] else issued, journal')
  {
    var issued' := if e.For(r.key) then issued + [EventOf(e)] else issued;
    if e.For(r.key) {
      assert EventOf(e) !in t;
      assert e in journal';
    }
    forall x | x in issued' && x.Journaled() && x !in t
      ensures exists f :: f in journal' && f.For(r.key) && EventOf(f) == x
    {
      if x in issued {
        var f :| f in journal && f.For(r.key) && EventOf(f) == x;
        assert f in journal';
      }
    }
  }

  lemma RowUnlinked(r: JobRow, r0: JobRow, t: seq<Event>, issued: seq<Event>, journal: seq<Entry>, id: UpdateId)
    requires RowOk(r, r0, t, issued, journal)
    requires forall e :: e in journal && e.id == id && e.For(r.key) ==> id in r.applied
    ensures RowOk(r, r0, t, issued, WithoutId(journal, id))
  {
    forall x | x in issued && x.Journaled() && x !in t
      ensures exists f :: f in WithoutId(journal, id) && f.For(r.key) && EventOf(f) == x
    {
      var f :| f in journal && f.For(r.key) && EventOf(f) == x;
      assert f in WithoutId(journal, id);
    }
  }

  lemma RowIssuedDirect(r: JobRow, r0: JobRow, t: seq<Event>, issued: seq<Event>, journal: seq<Entry>, u: ManagedUpdate)
    requires RowOk(r, r0, t, issued, journal)
    ensures RowOk(r, r0, t, issued + [Update(None, u)], journal)
  {
  }

  // ----- one copy under each kind of change

  ghost predicate History(w: World) {
    JournalOk(w) && IssuedOk(w) && w.created.Keys == w.issued.Keys
  }

  /** Replacing one row together with its trace. */
  lemma CopyWithRow(c: Copy, w: World, i: nat, r: JobRow, t: seq<Event>)
    requires CopyOk(c, w) && i < |c.rows| && r.key == c.rows[i].key
    requires r.key in w.created && r.key in w.issued
    requires RowOk(r, w.created[r.key], t, w.issued[r.key], w.journal)
    requires forall id :: id in r.applied ==> id in w.used
    ensures CopyOk(Copy(c.rows[i := r], c.trace[r.key := t]), w)
  {
    var c' := Copy(c.rows[i := r], c.trace[r.key := t]);
    forall x | x in c'.rows ensures RowFits(x, c', w) {
      var j :| 0 <= j < |c'.rows| && c'.rows[j] == x;
      if j != i {
        assert x == c.rows[j];
        assert RowFits(x, c, w);
      }
    }
  }

  lemma EntryReplayed(c: Copy, w: World, e: Entry, unreadable: set<UpdateId>, now: int)
    requires CopyOk(c, w) && History(w) && e in w.journal
    ensures CopyOk(ReplayInto(c, e, unreadable, now), w)
    ensures ReplayInto(c, e, unreadable, now).rows == ReplayEntry(c.rows, e, unreadable, now)
    ensures |ReplayInto(c, e, unreadable, now).rows| == |c.rows|
    ensures forall i :: 0 <= i < |c.rows| ==> var r, r' := c.rows[i], ReplayInto(c, e, unreadable, now).rows[i];
      && r'.key == r.key
      && (forall id :: id in r'.applied <==> id in r.applied || (id == e.id && e.For(r.key) && id !in unreadable))
  {
    EntryKeepsCopy(c, w, e, unreadable, now);
    EntryIsListed(c.rows, e, unreadable, now);
  }

  lemma EntryIsListed(rows: seq<JobRow>, e: Entry, unreadable: set<UpdateId>, now: int)
    requires DistinctKeys(rows) && e.content.Recorded? && WellFormed(e.content.update)
    ensures var rows' := ReplayEntry(rows, e, unreadable, now);
      && |rows'| == |rows|
      && forall i :: 0 <= i < |rows| ==>
           && rows'[i].key == rows[i].key
           && (forall id :: id in rows'[i].applied <==> id in rows[i].applied || (id == e.id && e.For(rows[i].key) && id !in unreadable))
  {
    if e.id !in unreadable {
      var i := FindSessionJob(rows, e.content.key);
      if i < |rows| { WellFormedUpdatesAreDeterministic(rows[i], e.content.update, now, []); }
    }
  }

  lemma EntryKeepsCopy(c: Copy, w: World, e: Entry, unreadable: set<UpdateId>, now: int)
    requires CopyOk(c, w) && History(w) && e in w.journal
    ensures CopyOk(ReplayInto(c, e, unreadable, now), w)
    ensures ReplayInto(c, e, unreadable, now).rows == ReplayEntry(c.rows, e, unreadable, now)
  {
    if e.id !in unreadable {
      var i := FindSessionJob(c.rows, e.content.key);
      if i < |c.rows| && e.id !in c.rows[i].applied { RowPlays(c, w, e, i, now); }
    }
  }

  /** Playing one file into its row. */
  lemma RowPlays(c: Copy, w: World, e: Entry, i: nat, now: int)
    requires CopyOk(c, w) && History(w) && e in w.journal
    requires i < |c.rows| && e.content.key == c.rows[i].key && e.id !in c.rows[i].applied
    ensures var r, k, a := c.rows[i], e.content.key, ApplyManagedUpdate(c.rows[i], e.content.update, now);
      && a.ok && k in c.trace
      && CopyOk(Copy(c.rows[i := a.row.(applied := r.applied + [e.id])], c.trace[k := c.trace[k] + [EventOf(e)]]), w)
  {
    var r, k := c.rows[i], e.content.key;
    assert r in c.rows && RowFits(r, c, w);
    RowReplayed(r, w.created[k], c.trace[k], w.issued[k], w.journal, e, now);
    var a := ApplyManagedUpdate(r, e.content.update, now);
    CopyWithRow(c, w, i, a.row.(applied := r.applied + [e.id]), c.trace[k] + [EventOf(e)]);
  }

  /** Every readable file among these is listed in its row. */
  ghost predicate Listed(c: Copy, entries: seq<Entry>, unreadable: set<UpdateId>) {
    forall e, r :: e in entries && e.id !in unreadable && r in c.rows && e.For(r.key) ==> e.id in r.applied
  }

  lemma OneMoreListed(c: Copy, w: World, n: nat, unreadable: set<UpdateId>, now: int)
    requires CopyOk(c, w) && History(w) && n < |w.journal| && Listed(c, w.journal[..n], unreadable)
    ensures Listed(ReplayInto(c, w.journal[n], unreadable, now), w.journal[..n + 1], unreadable)
  {
    var c' := ReplayInto(c, w.journal[n], unreadable, now);
    EntryReplayed(c, w, w.journal[n], unreadable, now);
    forall e, r | e in w.journal[..n + 1] && e.id !in unreadable && r in c'.rows && e.For(r.key) ensures e.id in r.applied {
      var i :| 0 <= i < |c'.rows| && c'.rows[i] == r;
      assert c.rows[i] in c.rows;
      assert e in w.journal[..n] || e == w.journal[n];
    }
  }

  /** After the replay every readable file is listed in its row. */
  lemma {:induction false} AllReplayed(c: Copy, w: World, n: nat, unreadable: set<UpdateId>, now: int)
    requires CopyOk(c, w) && History(w) && n <= |w.journal|
    ensures var c' := ReplayAll(c, w.journal[..n], unreadable, now);
      && CopyOk(c', w)
      && c'.rows == Replay(c.rows, w.journal[..n], unreadable, now)
      && |c'.rows| == |c.rows|
      && (forall i :: 0 <= i < |c.rows| ==> c'.rows[i].key == c.rows[i].key)
      && Listed(c', w.journal[..n], unreadable)
  {
    if n > 0 {
      AllReplayed(c, w, n - 1, unreadable, now);
      assert w.journal[..n][..n - 1] == w.journal[..n - 1];
      var before := ReplayAll(c, w.journal[..n - 1], unreadable, now);
      EntryReplayed(before, w, w.journal[n - 1], unreadable, now);
      OneMoreListed(before, w, n - 1, unreadable, now);
    }
  }

  lemma CopyTrimmed(c: Copy, w: World)
    requires CopyOk(c, w)
    ensures CopyOk(c.(rows := TrimAll(c.rows, Ids(w.journal))), w)
  {
    var c' := c.(rows := TrimAll(c.rows, Ids(w.journal)));
    forall x | x in c'.rows ensures RowFits(x, c', w) {
      var j :| 0 <= j < |c'.rows| && c'.rows[j] == x;
      assert c.rows[j] in c.rows && RowFits(c.rows[j], c, w);
      var k := x.key;
      RowTrimmed(c.rows[j], w.created[k], c.trace[k], w.issued[k], w.journal);
    }
  }

  lemma CopyEdited(c: Copy, w: World, change: JobRow -> JobRow)
    requires CopyOk(c, w)
    ensures CopyOk(EditAll(c, change), w)
  {
    var c' := EditAll(c, change);
    forall x | x in c'.rows ensures RowFits(x, c', w) {
      var j :| 0 <= j < |c'.rows| && c'.rows[j] == x;
      assert c.rows[j] in c.rows && RowFits(c.rows[j], c, w);
      var k := x.key;
      RowEdited(c.rows[j], w.created[k], c.trace[k], w.issued[k], w.journal, change);
    }
  }

  /** Dropping rows keeps a copy good. */
  lemma CopyFewerRows(c: Copy, w: World, rows: seq<JobRow>)
    requires CopyOk(c, w) && DistinctKeys(rows)
    requires forall r :: r in rows ==> r in c.rows
    ensures CopyOk(c.(rows := rows), w)
  {
    forall r | r in rows ensures RowFits(r, c.(rows := rows), w) {
      assert RowFits(r, c, w);
    }
  }

  lemma {:induction false} WithoutRowDistinct(rows: seq<JobRow>, key: JobKey)
    requires DistinctKeys(rows)
    ensures DistinctKeys(WithoutRow(rows, key))
  {
    if rows != [] {
      WithoutRowDistinct(rows[1..], key);
      var rest := WithoutRow(rows[1..], key);
      forall i | 0 <= i < |rest| ensures rest[i].key != rows[0].key {
        assert rest[i] in rows[1..];
      }
    }
  }

  lemma CopyDirect(c: Copy, w: World, key: JobKey, u: ManagedUpdate, now: int)
    requires CopyOk(c, w) && WellFormed(u) && key in c.trace && FindSessionJob(c.rows, key) < |c.rows|
    ensures CopyOk(DirectCopy(c, key, u, now), w)
  {
    var i := FindSessionJob(c.rows, key);
    var r := c.rows[i];
    assert r in c.rows && RowFits(r, c, w);
    RowUpdated(r, w.created[key], c.trace[key], w.issued[key], w.journal, u, now);
    WellFormedUpdatesAreDeterministic(r, u, now, []);
    CopyWithRow(c, w, i, ApplyManagedUpdate(r, u, now).row, c.trace[key] + [Update(None, u)]);
  }

  /** Where the entries of an inserted-into journal come from. */
  lemma InsertedAt(journal: seq<Entry>, at: nat, e: Entry, i: nat)
    requires at <= |journal| && i <= |journal|
    ensures |Inserted(journal, at, e)| == |journal| + 1
    ensures Inserted(journal, at, e)[i] == if i < at then journal[i] else if i == at then e else journal[i - 1]
  {
  }

  lemma InsertedStaysDistinct(journal: seq<Entry>, at: nat, e: Entry, s: seq<Entry>, i: nat, j: nat)
    requires at <= |journal| && s == Inserted(journal, at, e) && i < j <= |journal|
    requires DistinctIds(journal) && forall f :: f in journal ==> f.id != e.id
    ensures |s| == |journal| + 1 && s[i].id != s[j].id
  {
    InsertedAt(journal, at, e, i);
    InsertedAt(journal, at, e, j);
  }

  lemma InsertedDistinct(journal: seq<Entry>, at: nat, e: Entry, s: seq<Entry>)
    requires at <= |journal| && s == Inserted(journal, at, e)
    requires DistinctIds(journal) && forall f :: f in journal ==> f.id != e.id
    ensures DistinctIds(s)
  {
    forall i, j | 0 <= i < j < |s| ensures s[i].id != s[j].id {
      InsertedStaysDistinct(journal, at, e, s, i, j);
    }
  }

  lemma InsertedMembers(journal: seq<Entry>, at: nat, e: Entry)
    requires at <= |journal|
    ensures forall f :: f in Inserted(journal, at, e) <==> f in journal || f == e
    ensures DistinctIds(journal) && (forall f :: f in journal ==> f.id != e.id) ==> DistinctIds(Inserted(journal, at, e))
  {
    InsertedAre(journal[..at], journal[at..], e);
    assert journal == journal[..at] + journal[at..];
    if DistinctIds(journal) && forall f :: f in journal ==> f.id != e.id {
      InsertedDistinct(journal, at, e, Inserted(journal, at, e));
    }
  }

  lemma InsertedAre(a: seq<Entry>, b: seq<Entry>, e: Entry)
    ensures forall f :: f in a + [e] + b <==> f in a + b || f == e
  {
  }

  lemma CopyDeferred(c: Copy, w: World, id: UpdateId, key: JobKey, u: ManagedUpdate)
    requires CopyOk(c, w) && History(w) && id !in w.used && key in w.issued
    ensures CopyOk(c, Deferred(w, id, key, u))
  {
    var w' := Deferred(w, id, key, u);
    var e := Entry(id, Recorded(key, u));
    InsertedMembers(w.journal, NamePlace(w.journal, id), e);
    forall r | r in c.rows ensures RowFits(r, c, w') {
      assert RowFits(r, c, w);
      var k := r.key;
      RowDeferred(r, w.created[k], c.trace[k], w.issued[k], w.journal, e, w'.journal);
    }
  }

  lemma CopyUnlinked(c: Copy, w: World, id: UpdateId, w': World)
    requires CopyOk(c, w)
    requires w'.journal == WithoutId(w.journal, id)
    requires w'.created == w.created && w'.issued == w.issued && w'.used == w.used
    requires forall e, r :: e in w.journal && e.id == id && r in c.rows && e.For(r.key) ==> id in r.applied
    ensures CopyOk(c, w')
  {
    forall r | r in c.rows ensures RowFits(r, c, w') {
      assert RowFits(r, c, w);
      var k := r.key;
      RowUnlinked(r, w.created[k], c.trace[k], w.issued[k], w.journal, id);
    }
  }

  lemma CopyIssuedDirect(c: Copy, w: World, key: JobKey, u: ManagedUpdate, w': World)
    requires CopyOk(c, w) && key in w.issued
    requires w'.created == w.created && w'.journal == w.journal && w'.used == w.used
    requires w'.issued == w.issued[key := w.issued[key] + [Update(None, u)]]
    ensures CopyOk(c, w')
  {
    forall r | r in c.rows ensures RowFits(r, c, w') {
      assert RowFits(r, c, w);
      var k := r.key;
      RowIssuedDirect(r, w.created[k], c.trace[k], w.issued[k], w.journal, u);
    }
  }

  lemma {:induction false} WithoutIdDistinct(entries: seq<Entry>, id: UpdateId)
    requires DistinctIds(entries)
    ensures DistinctIds(WithoutId(entries, id))
  {
    if entries != [] {
      WithoutIdDistinct(entries[1..], id);
      var rest := WithoutId(entries[1..], id);
      forall i | 0 <= i < |rest| ensures entries[0].id != rest[i].id {
        assert rest[i] in entries[1..];
      }
    }
  }

  // ----- each step keeps the invariant

  lemma SafeBegin(w: World, s: Step)
    requires Safe(w) && Enabled(w, s) && s.Begin?
    ensures Safe(Take(w, s))
  {
    var w' := Take(w, s);
    var c := Loaded(w).value;
    assert CopyOk(c, w);
    CopyTrimmed(c, w);
    var t := c.(rows := TrimAll(c.rows, Ids(w.journal)));
    AllReplayed(t, w, |w.journal|, s.unreadable, s.now);
    assert w.journal[..|w.journal|] == w.journal;
    CopySameHistory(w, w');
  }

  /** Copies only look at the history, the journal and the used ids. */
  lemma CopySameHistory(w: World, w': World)
    requires w'.created == w.created && w'.issued == w.issued && w'.journal == w.journal && w'.used == w.used
    ensures forall c :: CopyOk(c, w) <==> CopyOk(c, w')
    ensures IssuedOk(w) <==> IssuedOk(w')
  {
    forall c ensures CopyOk(c, w) <==> CopyOk(c, w') {
      assert forall r :: RowFits(r, c, w) <==> RowFits(r, c, w');
    }
  }

  /** A body that keeps every row's key and listed ids keeps the removal queue sound. */
  lemma RemovableKept(w: World, w': World)
    requires Safe(w) && w.txn.Open? && w'.txn.Open?
    requires w'.journal == w.journal && w'.used == w.used && w'.txn.removable == w.txn.removable
    requires |w'.txn.copy.rows| == |w.txn.copy.rows|
    requires forall j :: 0 <= j < |w.txn.copy.rows| ==>
      w'.txn.copy.rows[j].key == w.txn.copy.rows[j].key && w'.txn.copy.rows[j].applied == w.txn.copy.rows[j].applied
    ensures RemovableOk(w')
  {
    forall e, r | e in w'.journal && e.id in w'.txn.removable && r in w'.txn.copy.rows && e.For(r.key)
      ensures e.id in r.applied
    {
      var j :| 0 <= j < |w.txn.copy.rows| && r == w'.txn.copy.rows[j];
      assert w.txn.copy.rows[j] in w.txn.copy.rows;
    }
  }

  lemma SafeEditRows(w: World, s: Step)
    requires Safe(w) && Enabled(w, s) && s.EditRows?
    ensures Safe(Take(w, s))
  {
    var w' := Take(w, s);
    CopySameHistory(w, w');
    CopyEdited(w.txn.copy, w, s.change);
    RemovableKept(w, w');
  }

  lemma SafeRemoveRow(w: World, s: Step)
    requires Safe(w) && Enabled(w, s) && s.RemoveRow?
    ensures Safe(Take(w, s))
  {
    var w' := Take(w, s);
    CopySameHistory(w, w');
    WithoutRowDistinct(w.txn.copy.rows, s.gone);
    CopyFewerRows(w.txn.copy, w, WithoutRow(w.txn.copy.rows, s.gone));
  }

  lemma SafeDirect(w: World, s: Step)
    requires Safe(w) && Enabled(w, s) && s.Direct?
    ensures Safe(Take(w, s))
  {
    var w' := Take(w, s);
    CopySameHistory(w, w');
    var c := w.txn.copy;
    var i := FindSessionJob(c.rows, w.txn.owner.value);
    CopyDirect(c, w, w.txn.owner.value, s.update, s.now);
    WellFormedUpdatesAreDeterministic(c.rows[i], s.update, s.now, []);
    RemovableKept(w, w');
  }

  lemma SafeAddRow(w: World, s: Step)
    requires Safe(w) && Enabled(w, s) && s.AddRow?
    ensures Safe(Take(w, s))
  {
    var w' := Take(w, s);
    var row := s.row;
    forall c | CopyOk(c, w) ensures CopyOk(c, w') && CopyOk(Copy(c.rows + [row], c.trace[row.key := []]), w') {
      var c' := Copy(c.rows + [row], c.trace[row.key := []]);
      forall r | r in c.rows ensures RowFits(r, c, w') && RowFits(r, c', w') && r.key != row.key {
        assert RowFits(r, c, w);
      }
      assert RowFits(row, c', w');
      forall r | r in c'.rows ensures RowFits(r, c', w') {
        assert r in c.rows || r == row;
      }
    }
  }

  lemma SafeSavePrimary(w: World, s: Step)
    requires Safe(w) && Enabled(w, s) && s.SavePrimary?
    ensures Safe(Take(w, s))
  {
    var w' := Take(w, s);
    var c := w.txn.copy;
    PruneKeepsRows(c.rows, s.limit);
    CopyFewerRows(c, w, PruneStore(c.rows, s.limit));
    SavedCopiesStayOk(w, s);
    assert CopyOk(w'.txn.copy, w');
    assert RemovableOk(w');
  }

  lemma SavedCopiesStayOk(w: World, s: Step)
    requires Safe(w) && Enabled(w, s) && s.SavePrimary?
    ensures IssuedOk(Take(w, s))
    ensures forall x :: CopyOk(x, w) ==> CopyOk(x, Take(w, s))
  {
    var w' := Take(w, s);
    if w'.issued != w.issued {
      var k, u := w.txn.owner.value, w.txn.direct.value;
      forall x | CopyOk(x, w) ensures CopyOk(x, w') { CopyIssuedDirect(x, w, k, u, w'); }
    } else {
      CopySameHistory(w, w');
    }
  }

  lemma DeferredHistory(w: World, id: UpdateId, key: JobKey, u: ManagedUpdate)
    requires History(w) && id !in w.used && key in w.issued && WellFormed(u)
    ensures History(Deferred(w, id, key, u))
  {
    var w' := Deferred(w, id, key, u);
    InsertedMembers(w.journal, NamePlace(w.journal, id), Entry(id, Recorded(key, u)));
    assert IssuedOk(w') by {
      var x := Update(Some(id), u);
      assert forall y :: y in w.issued[key] && y.Journaled() ==> y.id != x.id;
    }
  }

  lemma DeferredRemovable(w: World, id: UpdateId, key: JobKey, u: ManagedUpdate)
    requires Safe(w) && id !in w.used && key in w.issued
    ensures RemovableOk(Deferred(w, id, key, u))
  {
    var w' := Deferred(w, id, key, u);
    InsertedMembers(w.journal, NamePlace(w.journal, id), Entry(id, Recorded(key, u)));
    if w.txn.Open? {
      assert forall x :: x in w.txn.removable ==> x != id;
    }
  }

  lemma SafeDefer(w: World, s: Step)
    requires Safe(w) && Enabled(w, s) && s.Defer?
    ensures Safe(Take(w, s))
  {
    var w' := Take(w, s);
    var id := NewId(w, s.process, s.stamp, s.nonce);
    var v := Deferred(w, id, s.key, s.update);
    DeferredHistory(w, id, s.key, s.update);
    DeferredRemovable(w, id, s.key, s.update);
    forall c | CopyOk(c, w) ensures CopyOk(c, v) { CopyDeferred(c, w, id, s.key, s.update); }
    CopySameHistory(v, w');
  }

  lemma SafeUnlink(w: World, s: Step)
    requires Safe(w) && Enabled(w, s) && s.Unlink? && s.succeeds
    ensures Safe(Take(w, s))
  {
    var w' := Take(w, s);
    var id := w.txn.removable[0];
    assert forall x :: x in w'.txn.removable ==> x in w.txn.removable;
    WithoutIdDistinct(w.journal, id);
    CopyUnlinked(w.txn.copy, w, id, w');
    assert IssuedOk(w');
  }

  lemma SafeRest(w: World, s: Step)
    requires Safe(w) && Enabled(w, s)
    requires s.SaveBackup? || s.End? || s.Abort? || s.Crash? || s.DamagePrimary?
    ensures Safe(Take(w, s))
  {
    CopySameHistory(w, Take(w, s));
  }

  lemma SafeStuckUnlink(w: World, s: Step)
    requires Safe(w) && Enabled(w, s) && s.Unlink? && !s.succeeds
    ensures Safe(Take(w, s))
  {
    var w' := Take(w, s);
    CopySameHistory(w, w');
    assert forall x :: x in w'.txn.removable ==> x in w.txn.removable;
  }

  lemma SafeStep(w: World, s: Step)
    requires Safe(w) && Enabled(w, s)
    ensures Safe(Take(w, s))
  {
    match s
    case Begin(_, _, _, _) => SafeBegin(w, s);
    case EditRows(_) => SafeEditRows(w, s);
    case AddRow(_) => SafeAddRow(w, s);
    case RemoveRow(_) => SafeRemoveRow(w, s);
    case Direct(_, _) => SafeDirect(w, s);
    case SavePrimary(_) => SafeSavePrimary(w, s);
    case Defer(_, _, _, _, _) => SafeDefer(w, s);
    case Unlink(succeeds) => if succeeds { SafeUnlink(w, s); } else { SafeStuckUnlink(w, s); }
    case _ => SafeRest(w, s);
  }

  // ----- issue order

  /** Every file that cannot be read belongs to one of these jobs. */
  ghost predicate Covers(bad: set<JobKey>, journal: seq<Entry>, unreadable: set<UpdateId>) {
    forall e :: e in journal && e.id in unreadable && e.content.Recorded? ==> e.content.key in bad
  }

  /** Rows of the other jobs list every file replayed so far. */
  ghost predicate ListedBut(c: Copy, entries: seq<Entry>, bad: set<JobKey>) {
    forall e, r :: e in entries && r in c.rows && e.For(r.key) && r.key !in bad ==> e.id in r.applied
  }

  lemma EarlierListed(c: Copy, w: World, n: nat, unreadable: set<UpdateId>, bad: set<JobKey>, now: int)
    requires CopyOk(c, w) && History(w) && n <= |w.journal| && Covers(bad, w.journal, unreadable)
    ensures var b := ReplayAll(c, w.journal[..n], unreadable, now);
      CopyOk(b, w) && ListedBut(b, w.journal[..n], bad)
  {
    AllReplayed(c, w, n, unreadable, now);
  }

  /** Replay in file-name order moves the waiting events, in order, to the end of the trace. */
  lemma {:induction false} ReplayInOrder(c: Copy, w: World, n: nat, unreadable: set<UpdateId>, bad: set<JobKey>, now: int)
    requires CopyOk(c, w) && History(w) && n <= |w.journal| && Covers(bad, w.journal, unreadable)
    requires CopyInOrder(c, w, bad)
    ensures CopyInOrder(ReplayAll(c, w.journal[..n], unreadable, now), w, bad)
  {
    if n > 0 {
      ReplayInOrder(c, w, n - 1, unreadable, bad, now);
      assert w.journal[..n][..n - 1] == w.journal[..n - 1];
      EarlierListed(c, w, n - 1, unreadable, bad, now);
      OneInOrder(ReplayAll(c, w.journal[..n - 1], unreadable, now), w, n - 1, unreadable, bad, now);
    }
  }

  lemma RowReplayedInOrder(r: JobRow, s: JobRow, t: seq<Event>, issued: seq<Event>, journal: seq<Entry>, n: nat)
    requires DistinctIds(journal) && n < |journal| && journal[n].For(r.key) && journal[n].id !in r.applied
    requires forall e :: e in journal[..n] && e.For(r.key) ==> e.id in r.applied
    requires s.key == r.key && s.applied == r.applied + [journal[n].id]
    requires InOrder(r, t, issued, journal)
    ensures InOrder(s, t + [EventOf(journal[n])], issued, journal)
  {
    var x := EventOf(journal[n]);
    PendingFirst(r, s, journal, n);
    assert t + ([x] + Pending(s, journal)) == (t + [x]) + Pending(s, journal);
  }

  ghost predicate CopyInOrder(c: Copy, w: World, bad: set<JobKey>) {
    forall r :: r in c.rows && r.key !in bad ==>
      RowFits(r, c, w) && InOrder(r, c.trace[r.key], w.issued[r.key], w.journal)
  }

  /** A file that is played replaces its row and extends that row's trace. */
  lemma PlayedInto(b: Copy, w: World, e: Entry, i: nat, unreadable: set<UpdateId>, now: int)
    requires CopyOk(b, w) && History(w) && e in w.journal && e.id !in unreadable
    requires i == FindSessionJob(b.rows, e.content.key) && i < |b.rows| && e.id !in b.rows[i].applied
    ensures e.For(b.rows[i].key) && e.content.key in b.trace
    ensures var r' := ApplyManagedUpdate(b.rows[i], e.content.update, now).row.(applied := b.rows[i].applied + [e.id]);
      ReplayInto(b, e, unreadable, now)
        == Copy(b.rows[i := r'], b.trace[e.content.key := b.trace[e.content.key] + [EventOf(e)]])
  {
    var r := b.rows[i];
    assert r in b.rows && RowFits(r, b, w);
    WellFormedUpdatesAreDeterministic(r, e.content.update, now, []);
  }

  lemma OneInOrder(b: Copy, w: World, n: nat, unreadable: set<UpdateId>, bad: set<JobKey>, now: int)
    requires n < |w.journal| && CopyOk(b, w) && History(w) && CopyInOrder(b, w, bad)
    requires ListedBut(b, w.journal[..n], bad)
    ensures CopyInOrder(ReplayInto(b, w.journal[n], unreadable, now), w, bad)
  {
    var e := w.journal[n];
    var i := FindSessionJob(b.rows, e.content.key);
    if e.id !in unreadable && i < |b.rows| && e.id !in b.rows[i].applied {
      PlayedInto(b, w, e, i, unreadable, now);
      var r' := ApplyManagedUpdate(b.rows[i], e.content.update, now).row.(applied := b.rows[i].applied + [e.id]);
      var c := Copy(b.rows[i := r'], b.trace[e.content.key := b.trace[e.content.key] + [EventOf(e)]]);
      EntryReplayed(b, w, e, unreadable, now);
      if e.content.key !in bad { PlayedRowInOrder(b, w, n, i, r', bad, now); }
      RestInOrder(b, c, w, i, bad);
    }
  }

  lemma PlayedRowInOrder(b: Copy, w: World, n: nat, i: nat, r': JobRow, bad: set<JobKey>, now: int)
    requires CopyOk(b, w) && History(w) && n < |w.journal| && CopyInOrder(b, w, bad) && i < |b.rows| && b.rows[i].key !in bad
    requires ListedBut(b, w.journal[..n], bad)
    requires w.journal[n].For(b.rows[i].key) && w.journal[n].id !in b.rows[i].applied
    requires r' == ApplyManagedUpdate(b.rows[i], w.journal[n].content.update, now).row
      .(applied := b.rows[i].applied + [w.journal[n].id])
    ensures b.rows[i].key in b.trace && r'.key == b.rows[i].key && r'.key in w.issued
    ensures InOrder(r', b.trace[r'.key] + [EventOf(w.journal[n])], w.issued[r'.key], w.journal)
  {
    var e, r := w.journal[n], b.rows[i];
    assert r in b.rows && RowFits(r, b, w);
    RowReplayed(r, w.created[r.key], b.trace[r.key], w.issued[r.key], w.journal, e, now);
    RowReplayedInOrder(r, r', b.trace[r.key], w.issued[r.key], w.journal, n);
  }

  /** One row replaced, in order unless it is one of the bad ones, with its trace, leaves the rest. */
  lemma RestInOrder(b: Copy, c: Copy, w: World, i: nat, bad: set<JobKey>)
    requires CopyOk(b, w) && CopyInOrder(b, w, bad) && CopyOk(c, w)
    requires i < |b.rows| && |c.rows| == |b.rows| && c.rows == b.rows[i := c.rows[i]] && c.rows[i].key == b.rows[i].key
    requires b.rows[i].key in c.trace && c.trace == b.trace[b.rows[i].key := c.trace[b.rows[i].key]]
    requires c.rows[i].key in w.issued
    requires c.rows[i].key !in bad ==> InOrder(c.rows[i], c.trace[c.rows[i].key], w.issued[c.rows[i].key], w.journal)
    ensures CopyInOrder(c, w, bad)
  {
    forall x | x in c.rows && x.key !in bad
      ensures RowFits(x, c, w) && InOrder(x, c.trace[x.key], w.issued[x.key], w.journal)
    {
      var j :| 0 <= j < |c.rows| && c.rows[j] == x;
      if j != i {
        assert x == b.rows[j] && x in b.rows;
        assert x.key != b.rows[i].key;
      }
    }
  }

  lemma TrimmedInOrder(c: Copy, w: World, bad: set<JobKey>)
    requires CopyOk(c, w) && CopyInOrder(c, w, bad)
    ensures CopyInOrder(c.(rows := TrimAll(c.rows, Ids(w.journal))), w, bad)
  {
    CopyTrimmed(c, w);
    var t := c.(rows := TrimAll(c.rows, Ids(w.journal)));
    forall r | r in t.rows && r.key !in bad
      ensures RowFits(r, t, w) && InOrder(r, t.trace[r.key], w.issued[r.key], w.journal)
    {
      var j :| 0 <= j < |t.rows| && t.rows[j] == r;
      assert c.rows[j] in c.rows && RowFits(c.rows[j], c, w);
      PendingSame(c.rows[j], r, w.journal);
    }
  }

  lemma BeginInOrder(c: Copy, w: World, unreadable: set<UpdateId>, bad: set<JobKey>, now: int)
    requires CopyOk(c, w) && CopyInOrder(c, w, bad) && History(w) && Covers(bad, w.journal, unreadable)
    ensures var b := ReplayAll(c.(rows := TrimAll(c.rows, Ids(w.journal))), w.journal, unreadable, now);
      && CopyInOrder(b, w, bad)
      && (forall r :: r in b.rows && r.key !in bad ==> Pending(r, w.journal) == [])
  {
    TrimmedInOrder(c, w, bad);
    CopyTrimmed(c, w);
    var t := c.(rows := TrimAll(c.rows, Ids(w.journal)));
    var n := |w.journal|;
    assert w.journal[..n] == w.journal;
    ReplayInOrder(t, w, n, unreadable, bad, now);
    EarlierListed(t, w, n, unreadable, bad, now);
    var b := ReplayAll(t, w.journal, unreadable, now);
    forall r | r in b.rows && r.key !in bad ensures Pending(r, w.journal) == [] { PendingNone(r, w.journal); }
  }

  lemma OrderlyBegin(w: World, s: Step)
    requires Safe(w) && Whole(w) && Orderly(w) && Enabled(w, s) && s.Begin?
    ensures Orderly(Take(w, s))
  {
    var w' := Take(w, s);
    if w'.intact {
      var c := Loaded(w).value;
      assert CopyOk(c, w);
      assert CopyInOrder(c, w, w'.disordered);
      BeginInOrder(c, w, s.unreadable, w'.disordered, s.now);
      assert forall k :: k in w.issued ==> w.issued[k] + [] == w.issued[k];
      assert BodyInOrder(w');
    }
  }

  lemma EventBeforePending(t: seq<Event>, x: Event, p: seq<Event>)
    ensures OnlyUpdates((t + [x]) + p) == OnlyUpdates(t) + (if x.Update? then [x] else []) + OnlyUpdates(p)
    ensures OnlyUpdates(t + p) == OnlyUpdates(t) + OnlyUpdates(p)
  {
    UpdatesConcat(t + [x], p);
    UpdatesAppend(t, x);
    UpdatesConcat(t, p);
  }

  /** What the ordering invariant says of one row of the open transaction. */
  lemma BodyRow(w: World, r: JobRow)
    requires w.txn.Open? && w.txn.phase.Body? && CopyOk(w.txn.copy, w) && BodyInOrder(w)
    requires r in w.txn.copy.rows && r.key !in w.disordered
    ensures RowFits(r, w.txn.copy, w)
    ensures InOrder(r, w.txn.copy.trace[r.key], w.issued[r.key] + Extra(w, r.key), w.journal)
    ensures w.txn.owner == Some(r.key) ==> Pending(r, w.journal) == []
  {
  }

  lemma RowEditedInOrder(r: JobRow, t: seq<Event>, issued: seq<Event>, journal: seq<Entry>, change: JobRow -> JobRow)
    requires InOrder(r, t, issued, journal)
    ensures InOrder(EditRow(change, r), t + [Edit(change)], issued, journal)
    ensures Pending(EditRow(change, r), journal) == Pending(r, journal)
  {
    PendingSame(r, EditRow(change, r), journal);
    EventBeforePending(t, Edit(change), Pending(r, journal));
  }

  lemma OrderlyEditRows(w: World, s: Step)
    requires w.txn.Open? && CopyOk(w.txn.copy, w) && Orderly(w) && Enabled(w, s) && s.EditRows?
    ensures Orderly(Take(w, s))
  {
    var w' := Take(w, s);
    if w.intact {
      var c, c' := w.txn.copy, w'.txn.copy;
      forall r | r in c'.rows && r.key in c'.trace && r.key in w'.issued && r.key !in w'.disordered
        ensures InOrder(r, c'.trace[r.key], w'.issued[r.key] + Extra(w', r.key), w'.journal)
        ensures w'.txn.owner == Some(r.key) ==> Pending(r, w'.journal) == []
      {
        var j :| 0 <= j < |c.rows| && c'.rows[j] == r;
        BodyRow(w, c.rows[j]);
        RowEditedInOrder(c.rows[j], c.trace[r.key], w.issued[r.key] + Extra(w, r.key), w.journal, s.change);
      }
    }
  }

  lemma OrderlyAddRow(w: World, s: Step)
    requires Safe(w) && Orderly(w) && Enabled(w, s) && s.AddRow?
    ensures Orderly(Take(w, s))
  {
    var w' := Take(w, s);
    if w.intact {
      assert CopyOk(w.txn.copy, w);
      PendingNone(s.row, w.journal);
      if w.primary.Holds? {
        assert forall r :: r in w.primary.copy.rows ==> RowFits(r, w.primary.copy, w) && r.key != s.row.key;
      }
      forall r | r in w'.txn.copy.rows && r.key !in w'.disordered
        ensures InOrder(r, w'.txn.copy.trace[r.key], w'.issued[r.key] + Extra(w', r.key), w'.journal)
        ensures w'.txn.owner == Some(r.key) ==> Pending(r, w'.journal) == []
      {
        if r != s.row {
          assert r in w.txn.copy.rows && RowFits(r, w.txn.copy, w);
        }
      }
    }
  }

  lemma OrderlyRemoveRow(w: World, s: Step)
    requires Safe(w) && Orderly(w) && Enabled(w, s) && s.RemoveRow?
    ensures Orderly(Take(w, s))
  {
  }

  lemma RowUpdatedInOrder(r: JobRow, t: seq<Event>, issued: seq<Event>, journal: seq<Entry>, u: ManagedUpdate, now: int)
    requires InOrder(r, t, issued, journal) && WellFormed(u) && Pending(r, journal) == []
    ensures var r' := ApplyManagedUpdate(r, u, now).row;
      && InOrder(r', t + [Update(None, u)], issued + [Update(None, u)], journal)
      && Pending(r', journal) == []
  {
    WellFormedUpdatesAreDeterministic(r, u, now, []);
    PendingSame(r, ApplyManagedUpdate(r, u, now).row, journal);
    EventBeforePending(t, Update(None, u), []);
  }

  lemma OrderlyDirect(w: World, s: Step)
    requires w.txn.Open? && CopyOk(w.txn.copy, w) && Orderly(w) && Enabled(w, s) && s.Direct?
    ensures Orderly(Take(w, s))
  {
    var w' := Take(w, s);
    if w.intact {
      var c, c' := w.txn.copy, w'.txn.copy;
      var k := w.txn.owner.value;
      var i := FindSessionJob(c.rows, k);
      forall r | r in c'.rows && r.key in c'.trace && r.key in w'.issued && r.key !in w'.disordered
        ensures InOrder(r, c'.trace[r.key], w'.issued[r.key] + Extra(w', r.key), w'.journal)
        ensures w'.txn.owner == Some(r.key) ==> Pending(r, w'.journal) == []
      {
        var j :| 0 <= j < |c.rows| && c'.rows[j] == r;
        if j == i {
          BodyRow(w, c.rows[i]);
          assert w.issued[k] + [] == w.issued[k];
          RowUpdatedInOrder(c.rows[i], c.trace[k], w.issued[k], w.journal, s.update, s.now);
        } else {
          BodyRow(w, c.rows[j]);
        }
      }
    }
  }

  lemma OrderlySavePrimary(w: World, s: Step)
    requires w.txn.Open? && CopyOk(w.txn.copy, w) && Orderly(w) && Enabled(w, s) && s.SavePrimary?
    ensures Orderly(Take(w, s))
  {
    var w' := Take(w, s);
    if w.intact {
      PruneKeepsRows(w.txn.copy.rows, s.limit);
      forall r | r in w'.primary.copy.rows && r.key in w'.primary.copy.trace && r.key in w'.issued && r.key !in w'.disordered
        ensures InOrder(r, w'.primary.copy.trace[r.key], w'.issued[r.key], w'.journal)
      {
        BodyRow(w, r);
        assert w.issued[r.key] + [] == w.issued[r.key];
      }
    }
  }

  /** A file put behind all files of its job waits last; any other insertion changes nothing. */
  lemma PendingInserted(r: JobRow, journal: seq<Entry>, at: nat, e: Entry)
    requires at <= |journal| && e.content.Recorded? && e.id !in r.applied
    requires e.For(r.key) ==> !AnyFor(journal[at..], r.key)
    ensures Pending(r, Inserted(journal, at, e)) == Pending(r, journal) + (if e.For(r.key) then [EventOf(e)] else [])
  {
    var a, b := journal[..at], journal[at..];
    assert journal == a + b;
    PendingConcat(r, a, b);
    PendingSplit(r, a, e, b, Inserted(journal, at, e));
    if e.For(r.key) {
      PendingNone(r, b);
    }
  }

  lemma RowDeferredInOrder(r: JobRow, t: seq<Event>, issued: seq<Event>, journal: seq<Entry>, at: nat, e: Entry)
    requires InOrder(r, t, issued, journal) && at <= |journal| && e.content.Recorded? && e.id !in r.applied
    requires e.For(r.key) ==> !AnyFor(journal[at..], r.key)
    ensures InOrder(r, t, if e.For(r.key) then issued + [EventOf(e)] else issued, Inserted(journal, at, e))
    ensures !e.For(r.key) ==> Pending(r, Inserted(journal, at, e)) == Pending(r, journal)
  {
    PendingInserted(r, journal, at, e);
    if e.For(r.key) {
      assert t + (Pending(r, journal) + [EventOf(e)]) == (t + Pending(r, journal)) + [EventOf(e)];
      UpdatesAppend(t + Pending(r, journal), EventOf(e));
    } else {
      assert Pending(r, journal) + [] == Pending(r, journal);
    }
  }

  lemma PrimaryDeferred(w: World, id: UpdateId, key: JobKey, u: ManagedUpdate)
    requires Safe(w) && w.intact && Orderly(w) && id !in w.used && key in w.issued
    ensures PrimaryInOrder(Deferred(w, id, key, u))
  {
    var w' := Deferred(w, id, key, u);
    if w.primary.Holds? {
      forall r | r in w.primary.copy.rows && r.key in w.primary.copy.trace && r.key in w'.issued && r.key !in w'.disordered
        ensures InOrder(r, w.primary.copy.trace[r.key], w'.issued[r.key], w'.journal)
      {
        assert RowFits(r, w.primary.copy, w);
        RowDeferredInOrder(r, w.primary.copy.trace[r.key], w.issued[r.key], w.journal, NamePlace(w.journal, id),
                           Entry(id, Recorded(key, u)));
      }
    }
  }

  lemma BodyDeferred(w: World, id: UpdateId, key: JobKey, u: ManagedUpdate)
    requires Safe(w) && w.intact && Orderly(w) && id !in w.used && key in w.issued
    requires w.txn.Open? ==> w.txn.owner != Some(key)
    ensures BodyInOrder(Deferred(w, id, key, u))
  {
    var w' := Deferred(w, id, key, u);
    if w.txn.Open? && w.txn.phase.Body? {
      forall r | r in w.txn.copy.rows && r.key in w.txn.copy.trace && r.key in w'.issued && r.key !in w'.disordered
        ensures InOrder(r, w.txn.copy.trace[r.key], w'.issued[r.key] + Extra(w', r.key), w'.journal)
        ensures w'.txn.owner == Some(r.key) ==> Pending(r, w'.journal) == []
      {
        BodyRow(w, r);
        RowDeferredInOrder(r, w.txn.copy.trace[r.key], w.issued[r.key] + Extra(w, r.key), w.journal, NamePlace(w.journal, id),
                           Entry(id, Recorded(key, u)));
        assert w.issued[r.key] + [] == w.issued[r.key];
        assert w'.issued[r.key] + [] == w'.issued[r.key];
      }
    }
  }

  lemma OrderlyDefer(w: World, s: Step)
    requires Safe(w) && Orderly(w) && Enabled(w, s) && s.Defer?
    ensures Orderly(Take(w, s))
  {
    if w.intact {
      var id := NewId(w, s.process, s.stamp, s.nonce);
      PrimaryDeferred(w, id, s.key, s.update);
      BodyDeferred(w, id, s.key, s.update);
      assert PrimaryInOrder(Take(w, s)) && BodyInOrder(Take(w, s));
    }
  }

  lemma OrderlyUnlink(w: World, s: Step)
    requires Safe(w) && Orderly(w) && Enabled(w, s) && s.Unlink?
    ensures Orderly(Take(w, s))
  {
    var w' := Take(w, s);
    if w.intact && s.succeeds {
      var id := w.txn.removable[0];
      forall r | r in w.primary.copy.rows && r.key in w.primary.copy.trace && r.key in w'.issued && r.key !in w'.disordered
        ensures InOrder(r, w.primary.copy.trace[r.key], w'.issued[r.key], w'.journal)
      {
        PendingWithout(r, w.journal, id);
      }
    }
  }

  lemma OrderlyStep(w: World, s: Step)
    requires Safe(w) && Whole(w) && Orderly(w) && Enabled(w, s)
    ensures Orderly(Take(w, s))
  {
    match s
    case Begin(_, _, _, _) => OrderlyBegin(w, s);
    case EditRows(_) => OrderlyEditRows(w, s);
    case AddRow(_) => OrderlyAddRow(w, s);
    case RemoveRow(_) => OrderlyRemoveRow(w, s);
    case Direct(_, _) => OrderlyDirect(w, s);
    case SavePrimary(_) => OrderlySavePrimary(w, s);
    case Defer(_, _, _, _, _) => OrderlyDefer(w, s);
    case Unlink(_) => OrderlyUnlink(w, s);
    case _ =>
  }

  // ----- direct updates

  lemma DirectsAppend(t: seq<Event>, e: Event)
    ensures Directs(t + [e]) == Directs(t) + (if e.Update? && e.id.None? then [e] else [])
  {
    assert (t + [e])[..|t|] == t;
  }

  /** A replay adds only journaled events. */
  lemma {:induction false} ReplayAddsNoDirects(c: Copy, entries: seq<Entry>, unreadable: set<UpdateId>, now: int)
    ensures var b := ReplayAll(c, entries, unreadable, now);
      b.trace.Keys == c.trace.Keys && forall k :: k in c.trace ==> Directs(b.trace[k]) == Directs(c.trace[k])
  {
    if entries != [] {
      var n := |entries| - 1;
      ReplayAddsNoDirects(c, entries[..n], unreadable, now);
      var b := ReplayAll(c, entries[..n], unreadable, now);
      if entries[n].content.Recorded? && entries[n].content.key in b.trace {
        DirectsAppend(b.trace[entries[n].content.key], EventOf(entries[n]));
      }
    }
  }

  lemma NothingExtra(s: seq<Event>)
    ensures s + [] == s
  {
  }

  /** A replayed copy shows the direct updates the loaded one does. */
  lemma ReplayedDirects(c: Copy, b: Copy, w: World, w': World, r: JobRow)
    requires w.issued == w'.issued && Extra(w', r.key) == []
    requires |b.rows| == |c.rows| && forall i :: 0 <= i < |c.rows| ==> b.rows[i].key == c.rows[i].key
    requires b.trace.Keys == c.trace.Keys && forall k :: k in c.trace ==> Directs(b.trace[k]) == Directs(c.trace[k])
    requires forall q :: q in c.rows && q.key in c.trace && q.key in w.issued ==> Directs(c.trace[q.key]) == Directs(w.issued[q.key])
    requires r in b.rows && r.key in b.trace && r.key in w.issued
    ensures Directs(b.trace[r.key]) == Directs(w'.issued[r.key] + Extra(w', r.key))
  {
    var j :| 0 <= j < |b.rows| && b.rows[j] == r;
    assert c.rows[j] in c.rows && c.rows[j].key == r.key;
    NothingExtra(w.issued[r.key]);
  }

  lemma BegunCopy(w: World, s: Step, c: Copy, b: Copy)
    requires Safe(w) && Enabled(w, s) && s.Begin? && c == Loaded(w).value && b == BeginCopy(w, s.unreadable, s.now)
    ensures |b.rows| == |c.rows| && forall i :: 0 <= i < |c.rows| ==> b.rows[i].key == c.rows[i].key
    ensures b.trace.Keys == c.trace.Keys && forall k :: k in c.trace ==> Directs(b.trace[k]) == Directs(c.trace[k])
  {
    var t := c.(rows := TrimAll(c.rows, Ids(w.journal)));
    ReplayAddsNoDirects(t, w.journal, s.unreadable, s.now);
    CopyTrimmed(c, w);
    AllReplayed(t, w, |w.journal|, s.unreadable, s.now);
    assert w.journal[..|w.journal|] == w.journal;
  }

  lemma WholeBegin(w: World, s: Step)
    requires Safe(w) && Whole(w) && Enabled(w, s) && s.Begin?
    ensures Whole(Take(w, s))
  {
    var w' := Take(w, s);
    if w.intact {
      var c, b := Loaded(w).value, BeginCopy(w, s.unreadable, s.now);
      BegunCopy(w, s, c, b);
      forall r | r in b.rows && r.key in b.trace && r.key in w.issued
        ensures Directs(b.trace[r.key]) == Directs(w'.issued[r.key] + Extra(w', r.key))
      {
        ReplayedDirects(c, b, w, w', r);
      }
    }
  }

  lemma WholeEditRows(w: World, s: Step)
    requires Whole(w) && Enabled(w, s) && s.EditRows?
    ensures Whole(Take(w, s))
  {
    var w' := Take(w, s);
    if w.intact {
      var c, c' := w.txn.copy, w'.txn.copy;
      forall r | r in c'.rows && r.key in c'.trace && r.key in w.issued
        ensures Directs(c'.trace[r.key]) == Directs(w.issued[r.key] + Extra(w', r.key))
      {
        var j :| 0 <= j < |c.rows| && c'.rows[j] == r;
        assert c.rows[j] in c.rows && c.rows[j].key == r.key;
        DirectsAppend(c.trace[r.key], Edit(s.change));
      }
    }
  }

  lemma AddedRowIsNew(c: Copy, w: World, key: JobKey)
    requires CopyOk(c, w) && key !in w.issued
    ensures forall r :: r in c.rows ==> r.key != key && r.key in w.issued && r.key in c.trace
  {
    forall r | r in c.rows ensures r.key != key && r.key in w.issued && r.key in c.trace { assert RowFits(r, c, w); }
  }

  lemma WholeAddRow(w: World, s: Step)
    requires w.txn.Open? && CopyOk(w.txn.copy, w) && (w.primary.Holds? ==> CopyOk(w.primary.copy, w))
    requires w.created.Keys == w.issued.Keys && Whole(w) && Enabled(w, s) && s.AddRow?
    ensures Whole(Take(w, s))
  {
    var w' := Take(w, s);
    if w.intact {
      if w.primary.Holds? { AddedRowIsNew(w.primary.copy, w, s.row.key); }
      AddedRowIsNew(w.txn.copy, w, s.row.key);
      forall r | r in w'.txn.copy.rows
        ensures Directs(w'.txn.copy.trace[r.key]) == Directs(w'.issued[r.key] + Extra(w', r.key))
      {
        if r != s.row { assert r in w.txn.copy.rows; }
      }
    }
  }

  lemma WholeDirect(w: World, s: Step)
    requires w.txn.Open? && CopyOk(w.txn.copy, w) && Whole(w) && Enabled(w, s) && s.Direct?
    ensures Whole(Take(w, s))
  {
    var w' := Take(w, s);
    if w.intact {
      var c, c' := w.txn.copy, w'.txn.copy;
      var k := w.txn.owner.value;
      WellFormedUpdatesAreDeterministic(c.rows[FindSessionJob(c.rows, k)], s.update, s.now, []);
      DirectsAppend(c.trace[k], Update(None, s.update));
      DirectsAppend(w.issued[k], Update(None, s.update));
      assert w.issued[k] + [] == w.issued[k];
      forall r | r in c'.rows && r.key in c'.trace && r.key in w'.issued
        ensures Directs(c'.trace[r.key]) == Directs(w'.issued[r.key] + Extra(w', r.key))
      {
        var j :| 0 <= j < |c.rows| && c'.rows[j] == r;
        assert c.rows[j] in c.rows && c.rows[j].key == r.key;
      }
    }
  }

  lemma WholeSavePrimary(w: World, s: Step)
    requires w.txn.Open? && DistinctKeys(w.txn.copy.rows) && Whole(w) && Enabled(w, s) && s.SavePrimary?
    ensures Whole(Take(w, s))
  {
    var w' := Take(w, s);
    if w.intact {
      PruneKeepsRows(w.txn.copy.rows, s.limit);
      forall r | r in w'.primary.copy.rows && r.key in w'.primary.copy.trace && r.key in w'.issued
        ensures Directs(w'.primary.copy.trace[r.key]) == Directs(w'.issued[r.key])
      {
        assert r in w.txn.copy.rows;
        assert w.issued[r.key] + [] == w.issued[r.key];
      }
    }
  }

  lemma WholeDefer(w: World, s: Step)
    requires Whole(w) && Enabled(w, s) && s.Defer?
    ensures Whole(Take(w, s))
  {
    var x := Update(Some(NewId(w, s.process, s.stamp, s.nonce)), s.update);
    DirectsAppend(w.issued[s.key], x);
    assert w.issued[s.key] + [] == w.issued[s.key];
    assert w.issued[s.key] + [x] + [] == w.issued[s.key] + [x];
  }

  lemma WholeStep(w: World, s: Step)
    requires Safe(w) && Whole(w) && Enabled(w, s)
    ensures Whole(Take(w, s))
  {
    match s
    case Begin(_, _, _, _) => WholeBegin(w, s);
    case EditRows(_) => WholeEditRows(w, s);
    case AddRow(_) => WholeAddRow(w, s);
    case Direct(_, _) => WholeDirect(w, s);
    case SavePrimary(_) => WholeSavePrimary(w, s);
    case Defer(_, _, _, _, _) => WholeDefer(w, s);
    case _ =>
  }
}
