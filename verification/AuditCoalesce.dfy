/** Pairing log records into the rows a reader sees. */
module AuditCoalesce {
  import opened Common

  /** `Hidden` is `auth_ok`; `Unnamed` is a record without an event. */
  datatype Event = Hidden | Start | End | Named | Unnamed

  type Key = (string, string, string)

  /** `ok` is `None` unless the record's field is a boolean. Empty ids are absent ids. */
  datatype Record = Record(event: Event, call: string, parent: string, key: Key, ok: Option<bool>)

  datatype Kind = Call | LoneEnd | Plain

  datatype Status = Running | Success | Failed | Completed | Unpaired | Own

  datatype Row = Row(kind: Kind, indexes: seq<nat>, paired: bool, status: Status, related: seq<nat>)

  predicate Lifecycle(r: Record) { r.event.Start? || r.event.End? }

  predicate TopStart(r: Record) { r.event.Start? && r.parent == "" }

  predicate TopEnd(r: Record) { r.event.End? && r.parent == "" }

  function EndStatus(r: Record): Status {
    match r.ok
    case Some(true) => Success
    case Some(false) => Failed
    case None => Completed
  }

  // ----- the pass

  function NewCall(i: nat): Row { Row(Call, [i], false, Running, []) }

  function NewLoneEnd(i: nat): Row { Row(LoneEnd, [i], false, Unpaired, []) }

  function NewPlain(i: nat): Row { Row(Plain, [i], false, Own, []) }

  function FinishedBy(row: Row, r: Record, i: nat): Row {
    row.(paired := true, status := EndStatus(r), indexes := row.indexes + [i])
  }

  function Nesting(row: Row, r: Record, i: nat): Row {
    row.(indexes := row.indexes + [i], related := row.related + (if r.event.Named? then [i] else []))
  }

  /** The pass's state. Rows only grow at the end, so a row is named by its position. */
  datatype State = State(rows: seq<Row>, pendingById: map<string, nat>, entriesById: map<string, nat>,
                         pendingLegacy: map<Key, seq<nat>>)

  function Queue(m: map<Key, seq<nat>>, key: Key): seq<nat> { if key in m then m[key] else [] }

  function Update(rows: seq<Row>, at: nat, row: Row -> Row): seq<Row> {
    if at < |rows| then rows[at := row(rows[at])] else rows
  }

  function StepStart(s: State, r: Record, i: nat): State {
    var at := |s.rows|;
    var rows := s.rows + [NewCall(i)];
    if r.call != "" then s.(rows := rows, pendingById := s.pendingById[r.call := at], entriesById := s.entriesById[r.call := at])
    else s.(rows := rows, pendingLegacy := s.pendingLegacy[r.key := Queue(s.pendingLegacy, r.key) + [at]])
  }

  function StepEnd(s: State, r: Record, i: nat): State {
    if r.call != "" then
      if r.call in s.pendingById then
        s.(rows := Update(s.rows, s.pendingById[r.call], row => FinishedBy(row, r, i)), pendingById := s.pendingById - {r.call})
      else s.(rows := s.rows + [NewLoneEnd(i)])
    else
      var pending := Queue(s.pendingLegacy, r.key);
      if pending != [] then
        s.(rows := Update(s.rows, pending[0], row => FinishedBy(row, r, i)), pendingLegacy := s.pendingLegacy[r.key := pending[1..]])
      else s.(rows := s.rows + [NewLoneEnd(i)])
  }

  function Step(s: State, r: Record, i: nat): State {
    if r.event.Hidden? then s
    else if r.parent != "" && r.parent in s.entriesById then
      s.(rows := Update(s.rows, s.entriesById[r.parent], row => Nesting(row, r, i)))
    else if r.parent != "" && Lifecycle(r) then s
    else if r.event.Start? then StepStart(s, r, i)
    else if r.event.End? then StepEnd(s, r, i)
    else s.(rows := s.rows + [NewPlain(i)])
  }

  function Pass(records: seq<Record>, n: nat): State
    requires n <= |records|
  {
    if n == 0 then State([], map[], map[], map[]) else Step(Pass(records, n - 1), records[n - 1], n - 1)
  }

  // ----- where each record belongs

  /** The latest row-starting call with this id among the first `n` records. */
  function LatestStart(records: seq<Record>, n: nat, c: string): Option<nat>
    requires n <= |records|
  {
    if n == 0 then None
    else if TopStart(records[n - 1]) && records[n - 1].call == c then Some(n - 1)
    else LatestStart(records, n - 1, c)
  }

  /** The start still open for this id: the latest start-or-end with the id, when it is a start. */
  function OpenStart(records: seq<Record>, n: nat, c: string): Option<nat>
    requires n <= |records|
  {
    if n == 0 then None
    else if TopStart(records[n - 1]) && records[n - 1].call == c then Some(n - 1)
    else if TopEnd(records[n - 1]) && records[n - 1].call == c then None
    else OpenStart(records, n - 1, c)
  }

  predicate LegacyStart(r: Record, key: Key) { TopStart(r) && r.call == "" && r.key == key }

  predicate LegacyEnd(r: Record, key: Key) { TopEnd(r) && r.call == "" && r.key == key }

  function LegacyStarts(records: seq<Record>, n: nat, key: Key): seq<nat>
    requires n <= |records|
  {
    if n == 0 then []
    else LegacyStarts(records, n - 1, key) + (if LegacyStart(records[n - 1], key) then [n - 1] else [])
  }

  /** How many of those have had their end. */
  function Served(records: seq<Record>, n: nat, key: Key): (r: nat)
    requires n <= |records|
    ensures r <= |LegacyStarts(records, n, key)|
  {
    if n == 0 then 0
    else
      var before := Served(records, n - 1, key);
      if LegacyEnd(records[n - 1], key) && before < |LegacyStarts(records, n - 1, key)| then before + 1 else before
  }

  /** The starts of this key still waiting for their end, oldest first. */
  function Waiting(records: seq<Record>, n: nat, key: Key): seq<nat>
    requires n <= |records|
  {
    LegacyStarts(records, n, key)[Served(records, n, key)..]
  }

  /** The start that record `e` ends: by id the one still open, without an id the oldest not served. */
  function Finishes(records: seq<Record>, e: nat): Option<nat>
    requires e < |records|
  {
    var r := records[e];
    if !TopEnd(r) then None
    else if r.call != "" then OpenStart(records, e, r.call)
    else
      var waiting := Waiting(records, e, r.key);
      if waiting != [] then Some(waiting[0]) else None
  }

  /** The record whose row record `i` belongs to; `None` when it is in no row. */
  function Leader(records: seq<Record>, i: nat): Option<nat>
    requires i < |records|
  {
    var r := records[i];
    if r.event.Hidden? then None
    else if r.parent != "" then
      match LatestStart(records, i, r.parent)
      case Some(s) => Some(s)
      case None => if Lifecycle(r) then None else Some(i)
    else if r.event.End? then
      match Finishes(records, i)
      case Some(s) => Some(s)
      case None => Some(i)
    else Some(i)
  }

  function Leaders(records: seq<Record>, n: nat): seq<nat>
    requires n <= |records|
  {
    if n == 0 then [] else Leaders(records, n - 1) + (if Leader(records, n - 1) == Some(n - 1) then [n - 1] else [])
  }

  function Members(records: seq<Record>, n: nat, l: nat): seq<nat>
    requires n <= |records|
  {
    if n == 0 then [] else Members(records, n - 1, l) + (if Leader(records, n - 1) == Some(l) then [n - 1] else [])
  }

  predicate Nested(records: seq<Record>, i: nat, l: nat)
    requires i < |records|
  {
    i != l && Leader(records, i) == Some(l) && records[i].event.Named?
  }

  function Related(records: seq<Record>, n: nat, l: nat): seq<nat>
    requires n <= |records|
  {
    if n == 0 then [] else Related(records, n - 1, l) + (if Nested(records, n - 1, l) then [n - 1] else [])
  }

  function Ending(records: seq<Record>, n: nat, l: nat): (r: Option<nat>)
    requires n <= |records|
    ensures r.Some? ==> r.value < n && Finishes(records, r.value) == Some(l)
    ensures r.None? ==> forall e :: 0 <= e < n ==> Finishes(records, e) != Some(l)
  {
    if n == 0 then None
    else if Finishes(records, n - 1) == Some(l) then Some(n - 1)
    else Ending(records, n - 1, l)
  }

  function TheRow(records: seq<Record>, n: nat, l: nat): Row
    requires l < n <= |records|
  {
    var ending := Ending(records, n, l);
    Row(if TopStart(records[l]) then Call else if TopEnd(records[l]) then LoneEnd else Plain,
        Members(records, n, l),
        ending.Some?,
        if ending.Some? then EndStatus(records[ending.value])
        else if TopStart(records[l]) then Running else if TopEnd(records[l]) then Unpaired else Own,
        Related(records, n, l))
  }

  // ----- facts about the reference definitions

  lemma {:induction false} LatestStartIs(records: seq<Record>, n: nat, c: string)
    requires n <= |records|
    ensures var s := LatestStart(records, n, c);
      && (s.Some? ==> s.value < n && TopStart(records[s.value]) && records[s.value].call == c
                      && forall k :: s.value < k < n ==> !(TopStart(records[k]) && records[k].call == c))
      && (s.None? ==> forall k :: 0 <= k < n ==> !(TopStart(records[k]) && records[k].call == c))
  {
    if n > 0 { LatestStartIs(records, n - 1, c); }
  }

  lemma {:induction false} OpenStartIs(records: seq<Record>, n: nat, c: string)
    requires n <= |records|
    ensures var s := OpenStart(records, n, c);
      s.Some? ==> s.value < n && TopStart(records[s.value]) && records[s.value].call == c
                  && forall k :: s.value < k < n ==> records[k].call == c ==> !TopStart(records[k]) && !TopEnd(records[k])
  {
    if n > 0 { OpenStartIs(records, n - 1, c); }
  }

  lemma {:induction false} LegacyStartsAre(records: seq<Record>, n: nat, key: Key)
    requires n <= |records|
    ensures forall i: nat :: i in LegacyStarts(records, n, key) <==> i < n && LegacyStart(records[i], key)
    ensures forall a, b :: 0 <= a < b < |LegacyStarts(records, n, key)| ==>
      LegacyStarts(records, n, key)[a] < LegacyStarts(records, n, key)[b]
  {
    if n > 0 {
      LegacyStartsAre(records, n - 1, key);
      var before := LegacyStarts(records, n - 1, key);
      assert forall a :: 0 <= a < |before| ==> before[a] in before;
    }
  }

  /** An end comes after the start it ends, which has its own row, and the same id or key. */
  lemma FinishesAStart(records: seq<Record>, e: nat)
    requires e < |records| && Finishes(records, e).Some?
    ensures var s := Finishes(records, e).value;
      && s < e && TopStart(records[s]) && records[s].call == records[e].call
      && (records[e].call == "" ==> records[s].key == records[e].key)
  {
    var r := records[e];
    if r.call != "" {
      OpenStartIs(records, e, r.call);
    } else {
      LegacyStartsAre(records, e, r.key);
      assert Waiting(records, e, r.key)[0] in LegacyStarts(records, e, r.key);
    }
  }

  /** Leaders lead themselves and come first. */
  lemma LeaderLeads(records: seq<Record>, i: nat)
    requires i < |records| && Leader(records, i).Some?
    ensures Leader(records, i).value <= i
    ensures Leader(records, Leader(records, i).value) == Leader(records, i)
  {
    var r := records[i];
    if r.parent != "" {
      LatestStartIs(records, i, r.parent);
    } else if r.event.End? && Finishes(records, i).Some? {
      FinishesAStart(records, i);
    }
  }

  lemma {:induction false} MembersAre(records: seq<Record>, n: nat, l: nat)
    requires n <= |records|
    ensures forall i: nat :: i in Members(records, n, l) <==> i < n && Leader(records, i) == Some(l)
    ensures forall a, b :: 0 <= a < b < |Members(records, n, l)| ==> Members(records, n, l)[a] < Members(records, n, l)[b]
  {
    if n > 0 {
      MembersAre(records, n - 1, l);
      var before := Members(records, n - 1, l);
      assert forall a :: 0 <= a < |before| ==> before[a] in before;
    }
  }

  lemma {:induction false} LeadersAre(records: seq<Record>, n: nat)
    requires n <= |records|
    ensures forall i: nat :: i in Leaders(records, n) <==> i < n && Leader(records, i) == Some(i)
    ensures forall a, b :: 0 <= a < b < |Leaders(records, n)| ==> Leaders(records, n)[a] < Leaders(records, n)[b]
  {
    if n > 0 {
      LeadersAre(records, n - 1);
      var before := Leaders(records, n - 1);
      assert forall a :: 0 <= a < |before| ==> before[a] in before;
    }
  }

  // ----- the pass follows them

  ghost predicate RowsTrack(rows: seq<Row>, records: seq<Record>, n: nat)
    requires n <= |records|
  {
    var leaders := Leaders(records, n);
    && |rows| == |leaders|
    && (forall k :: 0 <= k < |rows| ==> leaders[k] < n && rows[k] == TheRow(records, n, leaders[k]))
  }

  ghost predicate PointsTo(at: nat, leader: nat, records: seq<Record>, n: nat)
    requires n <= |records|
  {
    at < |Leaders(records, n)| && Leaders(records, n)[at] == leader
  }

  ghost predicate EntriesTrack(m: map<string, nat>, records: seq<Record>, n: nat)
    requires n <= |records|
  {
    forall c | c != "" ::
      match LatestStart(records, n, c)
      case Some(s) => c in m && PointsTo(m[c], s, records, n)
      case None => c !in m
  }

  ghost predicate PendingTrack(m: map<string, nat>, records: seq<Record>, n: nat)
    requires n <= |records|
  {
    forall c | c != "" ::
      match OpenStart(records, n, c)
      case Some(s) => c in m && PointsTo(m[c], s, records, n)
      case None => c !in m
  }

  ghost predicate QueueTracks(q: seq<nat>, key: Key, records: seq<Record>, n: nat)
    requires n <= |records|
  {
    var waiting := Waiting(records, n, key);
    |q| == |waiting| && forall t :: 0 <= t < |q| ==> PointsTo(q[t], waiting[t], records, n)
  }

  ghost predicate QueuesTrack(m: map<Key, seq<nat>>, records: seq<Record>, n: nat)
    requires n <= |records|
  {
    forall key :: QueueTracks(Queue(m, key), key, records, n)
  }

  ghost predicate Tracks(s: State, records: seq<Record>, n: nat)
    requires n <= |records|
  {
    && RowsTrack(s.rows, records, n)
    && EntriesTrack(s.entriesById, records, n)
    && PendingTrack(s.pendingById, records, n)
    && QueuesTrack(s.pendingLegacy, records, n)
  }

  /** Positions keep pointing at the same leader as records are added. */
  lemma PointsStill(at: nat, leader: nat, records: seq<Record>, n: nat)
    requires n < |records| && PointsTo(at, leader, records, n)
    ensures PointsTo(at, leader, records, n + 1)
  {
  }

  lemma {:induction false} NoEarlierMember(records: seq<Record>, n: nat, l: nat)
    requires n <= l < |records|
    ensures Members(records, n, l) == [] && Related(records, n, l) == [] && Ending(records, n, l).None?
  {
    if n > 0 {
      NoEarlierMember(records, n - 1, l);
      if Leader(records, n - 1).Some? { LeaderLeads(records, n - 1); }
      if Finishes(records, n - 1).Some? { FinishesAStart(records, n - 1); }
    }
  }

  /** What one more record does to the row of `l`. */
  lemma TheRowStep(records: seq<Record>, n: nat, l: nat)
    requires l < n < |records|
    ensures var row, row', r := TheRow(records, n, l), TheRow(records, n + 1, l), records[n];
      && (Leader(records, n) != Some(l) ==> row' == row)
      && (Leader(records, n) == Some(l) ==>
            row' == if Finishes(records, n).Some? then FinishedBy(row, r, n) else Nesting(row, r, n))
  {
    if Finishes(records, n).Some? {
      assert Leader(records, n) == Finishes(records, n);
    }
  }

  lemma TheRowStarts(records: seq<Record>, n: nat)
    requires n < |records| && Leader(records, n) == Some(n)
    ensures TheRow(records, n + 1, n) ==
      if records[n].event.Start? then NewCall(n) else if TopEnd(records[n]) then NewLoneEnd(n) else NewPlain(n)
  {
    NoEarlierMember(records, n, n);
    LatestStartIs(records, n, records[n].parent);
    if Finishes(records, n).Some? { FinishesAStart(records, n); }
  }

  /** A record that leads adds one row and leaves the others alone. */
  lemma RowAdded(rows: seq<Row>, records: seq<Record>, n: nat, row: Row)
    requires n < |records| && RowsTrack(rows, records, n) && Leader(records, n) == Some(n)
    requires row == TheRow(records, n + 1, n)
    ensures RowsTrack(rows + [row], records, n + 1) && PointsTo(|rows|, n, records, n + 1)
  {
    forall k | 0 <= k < |rows| ensures rows[k] == TheRow(records, n + 1, Leaders(records, n)[k]) {
      TheRowStep(records, n, Leaders(records, n)[k]);
    }
  }

  /** A record that does not lead changes at most its leader's row. */
  lemma RowExtended(rows: seq<Row>, records: seq<Record>, n: nat, at: nat)
    requires n < |records| && RowsTrack(rows, records, n)
    requires Leader(records, n).Some? && PointsTo(at, Leader(records, n).value, records, n)
    ensures at < |rows| && Leader(records, n).value < n
    ensures RowsTrack(rows[at := if Finishes(records, n).Some? then FinishedBy(rows[at], records[n], n)
                                 else Nesting(rows[at], records[n], n)], records, n + 1)
  {
    var l := Leader(records, n).value;
    LeadersAre(records, n);
    assert l in Leaders(records, n);
    assert Leaders(records, n + 1) == Leaders(records, n);
    forall k | 0 <= k < |rows|
      ensures TheRow(records, n + 1, Leaders(records, n)[k]) ==
        if k != at then rows[k]
        else if Finishes(records, n).Some? then FinishedBy(rows[at], records[n], n)
        else Nesting(rows[at], records[n], n)
    {
      TheRowStep(records, n, Leaders(records, n)[k]);
    }
  }

  lemma RowsUntouched(rows: seq<Row>, records: seq<Record>, n: nat)
    requires n < |records| && RowsTrack(rows, records, n) && Leader(records, n).None?
    ensures RowsTrack(rows, records, n + 1)
  {
    forall k | 0 <= k < |rows| ensures rows[k] == TheRow(records, n + 1, Leaders(records, n)[k]) {
      TheRowStep(records, n, Leaders(records, n)[k]);
    }
  }

  // ----- the maps

  /** A record that starts no row of its own call leaves the table of calls as it was. */
  lemma EntriesKept(m: map<string, nat>, records: seq<Record>, n: nat)
    requires n < |records| && EntriesTrack(m, records, n) && (!TopStart(records[n]) || records[n].call == "")
    ensures EntriesTrack(m, records, n + 1)
  {
    forall c | c != ""
      ensures match LatestStart(records, n + 1, c)
              case Some(s) => c in m && PointsTo(m[c], s, records, n + 1)
              case None => c !in m
    {
      assert LatestStart(records, n + 1, c) == LatestStart(records, n, c);
      if LatestStart(records, n, c).Some? { PointsStill(m[c], LatestStart(records, n, c).value, records, n); }
    }
  }

  lemma EntryAdded(m: map<string, nat>, records: seq<Record>, n: nat, at: nat)
    requires n < |records| && EntriesTrack(m, records, n) && TopStart(records[n]) && records[n].call != ""
    requires PointsTo(at, n, records, n + 1)
    ensures EntriesTrack(m[records[n].call := at], records, n + 1)
  {
    var m' := m[records[n].call := at];
    forall c | c != ""
      ensures match LatestStart(records, n + 1, c)
              case Some(s) => c in m' && PointsTo(m'[c], s, records, n + 1)
              case None => c !in m'
    {
      if c != records[n].call && LatestStart(records, n, c).Some? {
        PointsStill(m[c], LatestStart(records, n, c).value, records, n);
      }
    }
  }

  /** The open calls: a start opens its id, an end closes it, any other record changes nothing. */
  lemma PendingMoves(m: map<string, nat>, records: seq<Record>, n: nat, at: nat)
    requires n < |records| && PendingTrack(m, records, n)
    requires TopStart(records[n]) && records[n].call != "" ==> PointsTo(at, n, records, n + 1)
    ensures var r := records[n];
      PendingTrack(if r.call != "" && TopStart(r) then m[r.call := at]
                   else if r.call != "" && TopEnd(r) then m - {r.call} else m, records, n + 1)
  {
    var r := records[n];
    var m' := if r.call != "" && TopStart(r) then m[r.call := at]
              else if r.call != "" && TopEnd(r) then m - {r.call} else m;
    forall c | c != ""
      ensures match OpenStart(records, n + 1, c)
              case Some(s) => c in m' && PointsTo(m'[c], s, records, n + 1)
              case None => c !in m'
    {
      if c != r.call || !(TopStart(r) || TopEnd(r)) {
        assert OpenStart(records, n + 1, c) == OpenStart(records, n, c);
        if OpenStart(records, n, c).Some? { PointsStill(m[c], OpenStart(records, n, c).value, records, n); }
      }
    }
  }

  lemma WaitingMoves(records: seq<Record>, n: nat, key: Key)
    requires n < |records|
    ensures var r, waiting := records[n], Waiting(records, n, key);
      Waiting(records, n + 1, key) ==
        if LegacyStart(r, key) then waiting + [n]
        else if LegacyEnd(r, key) && waiting != [] then waiting[1..] else waiting
  {
    var starts, served := LegacyStarts(records, n, key), Served(records, n, key);
    if LegacyStart(records[n], key) {
      assert (starts + [n])[served..] == starts[served..] + [n];
    } else {
      assert starts + [] == starts;
    }
  }

  /** The queue of one key: a start joins, an end takes the first, any other record changes nothing. */
  lemma QueueMoves(q: seq<nat>, key: Key, records: seq<Record>, n: nat, at: nat)
    requires n < |records| && QueueTracks(q, key, records, n)
    requires LegacyStart(records[n], key) ==> PointsTo(at, n, records, n + 1)
    ensures QueueTracks(if LegacyStart(records[n], key) then q + [at]
                        else if LegacyEnd(records[n], key) && q != [] then q[1..] else q, key, records, n + 1)
  {
    WaitingMoves(records, n, key);
    var waiting := Waiting(records, n, key);
    forall t | 0 <= t < |q| ensures PointsTo(q[t], waiting[t], records, n + 1) {
      PointsStill(q[t], waiting[t], records, n);
    }
  }

  function MovedQueues(m: map<Key, seq<nat>>, r: Record, at: nat): map<Key, seq<nat>> {
    if r.call == "" && TopStart(r) then m[r.key := Queue(m, r.key) + [at]]
    else if r.call == "" && TopEnd(r) && Queue(m, r.key) != [] then m[r.key := Queue(m, r.key)[1..]]
    else m
  }

  lemma QueuesMove(m: map<Key, seq<nat>>, records: seq<Record>, n: nat, at: nat)
    requires n < |records| && QueuesTrack(m, records, n)
    requires TopStart(records[n]) && records[n].call == "" ==> PointsTo(at, n, records, n + 1)
    ensures QueuesTrack(MovedQueues(m, records[n], at), records, n + 1)
  {
    var m' := MovedQueues(m, records[n], at);
    forall key ensures QueueTracks(Queue(m', key), key, records, n + 1) {
      assert QueueTracks(Queue(m, key), key, records, n);
      QueueMoves(Queue(m, key), key, records, n, at);
    }
  }

  // ----- one step

  lemma StepTracks(s: State, records: seq<Record>, n: nat)
    requires n < |records| && Tracks(s, records, n)
    ensures Tracks(Step(s, records[n], n), records, n + 1)
  {
    var r := records[n];
    if r.event.Hidden? || r.parent != "" || !Lifecycle(r) {
      OtherStepTracks(s, records, n);
    } else if r.event.Start? {
      StartStepTracks(s, records, n);
    } else {
      EndStepTracks(s, records, n);
    }
  }

  lemma OtherStepTracks(s: State, records: seq<Record>, n: nat)
    requires n < |records| && Tracks(s, records, n)
    requires records[n].event.Hidden? || records[n].parent != "" || !Lifecycle(records[n])
    ensures Tracks(Step(s, records[n], n), records, n + 1)
  {
    var r := records[n];
    EntriesKept(s.entriesById, records, n);
    PendingMoves(s.pendingById, records, n, 0);
    QueuesMove(s.pendingLegacy, records, n, 0);
    if Leader(records, n).None? {
      RowsUntouched(s.rows, records, n);
    } else if r.parent != "" && r.parent in s.entriesById {
      RowExtended(s.rows, records, n, s.entriesById[r.parent]);
    } else {
      TheRowStarts(records, n);
      RowAdded(s.rows, records, n, NewPlain(n));
    }
  }

  lemma StartStepTracks(s: State, records: seq<Record>, n: nat)
    requires n < |records| && Tracks(s, records, n) && TopStart(records[n])
    ensures Tracks(Step(s, records[n], n), records, n + 1)
  {
    var r, at := records[n], |s.rows|;
    TheRowStarts(records, n);
    RowAdded(s.rows, records, n, NewCall(n));
    PendingMoves(s.pendingById, records, n, at);
    QueuesMove(s.pendingLegacy, records, n, at);
    if r.call != "" {
      EntryAdded(s.entriesById, records, n, at);
    } else {
      EntriesKept(s.entriesById, records, n);
    }
  }

  lemma EndStepTracks(s: State, records: seq<Record>, n: nat)
    requires n < |records| && Tracks(s, records, n) && TopEnd(records[n])
    ensures Tracks(Step(s, records[n], n), records, n + 1)
  {
    var r := records[n];
    EntriesKept(s.entriesById, records, n);
    PendingMoves(s.pendingById, records, n, 0);
    QueuesMove(s.pendingLegacy, records, n, 0);
    EndedRows(s, records, n);
    if r.call != "" && r.call !in s.pendingById {
      assert s.pendingById - {r.call} == s.pendingById;
    }
  }

  lemma EndedRows(s: State, records: seq<Record>, n: nat)
    requires n < |records| && TopEnd(records[n])
    requires RowsTrack(s.rows, records, n) && PendingTrack(s.pendingById, records, n) && QueuesTrack(s.pendingLegacy, records, n)
    ensures RowsTrack(StepEnd(s, records[n], n).rows, records, n + 1)
  {
    var r := records[n];
    if r.call == "" { assert QueueTracks(Queue(s.pendingLegacy, r.key), r.key, records, n); }
    if Finishes(records, n).Some? {
      var at := if r.call != "" then s.pendingById[r.call] else Queue(s.pendingLegacy, r.key)[0];
      RowExtended(s.rows, records, n, at);
    } else {
      TheRowStarts(records, n);
      RowAdded(s.rows, records, n, NewLoneEnd(n));
    }
  }

  lemma NothingTracksNothing(records: seq<Record>)
    ensures Tracks(State([], map[], map[], map[]), records, 0)
  {
    forall key: Key ensures QueueTracks(Queue(map[], key), key, records, 0) {
      assert Waiting(records, 0, key) == [];
    }
  }

  /** After any prefix the four tables are what the definitions over positions say. */
  lemma PassTracks(records: seq<Record>, n: nat)
    requires n <= |records|
    ensures Tracks(Pass(records, n), records, n)
  {
    StateTracks(Pass(records, n), records, n);
  }

  lemma {:induction false} StateTracks(s: State, records: seq<Record>, n: nat)
    requires n <= |records| && s == Pass(records, n)
    ensures Tracks(s, records, n)
    decreases n
  {
    if n == 0 {
      NothingTracksNothing(records);
    } else {
      var before := Pass(records, n - 1);
      StateTracks(before, records, n - 1);
      StepTracks(before, records, n - 1);
    }
  }

  // ----- what the rows are

  /** Records in no row: hidden events, and lifecycle records whose parent has not started. */
  predicate Dropped(records: seq<Record>, i: nat)
    requires i < |records|
  {
    || records[i].event.Hidden?
    || (records[i].parent != "" && Lifecycle(records[i])
        && forall s :: 0 <= s < i ==> !(TopStart(records[s]) && records[s].call == records[i].parent))
  }

  function Rows(records: seq<Record>): seq<Row> { Pass(records, |records|).rows }

  lemma DroppedHaveNoLeader(records: seq<Record>, i: nat)
    requires i < |records|
    ensures Dropped(records, i) <==> Leader(records, i).None?
  {
    LatestStartIs(records, i, records[i].parent);
  }

  /** Every record is in exactly one row, once; dropped records are in none. Rows come in the order of
      their first records, and list their records in log order. */
  lemma RowsPartitionTheLog(records: seq<Record>)
    ensures forall i, k :: 0 <= i < |records| && Dropped(records, i) && 0 <= k < |Rows(records)| ==> i !in Rows(records)[k].indexes
    ensures forall i :: 0 <= i < |records| && !Dropped(records, i) ==>
      exists k :: 0 <= k < |Rows(records)| && i in Rows(records)[k].indexes
    ensures forall i: nat, k, l :: 0 <= k < l < |Rows(records)| && i in Rows(records)[k].indexes ==> i !in Rows(records)[l].indexes
    ensures forall k, a, b :: 0 <= k < |Rows(records)| && 0 <= a < b < |Rows(records)[k].indexes| ==>
      Rows(records)[k].indexes[a] < Rows(records)[k].indexes[b] < |records|
    ensures forall k :: 0 <= k < |Rows(records)| ==> Rows(records)[k].indexes != []
    ensures forall k, l :: 0 <= k < l < |Rows(records)| ==> Rows(records)[k].indexes[0] < Rows(records)[l].indexes[0]
  {
    var n, rows, leaders := |records|, Rows(records), Leaders(records, |records|);
    PassTracks(records, n);
    LeadersAre(records, n);
    forall i | 0 <= i < n { DroppedHaveNoLeader(records, i); }
    forall k | 0 <= k < |rows|
      ensures forall i: nat :: i in rows[k].indexes <==> i < n && Leader(records, i) == Some(leaders[k])
      ensures rows[k].indexes != [] && rows[k].indexes[0] == leaders[k]
      ensures forall a, b :: 0 <= a < b < |rows[k].indexes| ==> rows[k].indexes[a] < rows[k].indexes[b] < n
    {
      HeadIsLeader(records, n, leaders[k]);
    }
    forall i | 0 <= i < n && !Dropped(records, i) ensures exists k :: 0 <= k < |rows| && i in rows[k].indexes {
      LeaderLeads(records, i);
      assert Leader(records, i).value in leaders;
      var k :| 0 <= k < |leaders| && leaders[k] == Leader(records, i).value;
      assert i in rows[k].indexes;
    }
  }

  lemma HeadIsLeader(records: seq<Record>, n: nat, l: nat)
    requires l < n <= |records| && Leader(records, l) == Some(l)
    ensures var indexes := Members(records, n, l);
      && (forall i: nat :: i in indexes <==> i < n && Leader(records, i) == Some(l))
      && indexes != [] && indexes[0] == l
      && (forall a, b :: 0 <= a < b < |indexes| ==> indexes[a] < indexes[b] < n)
  {
    var indexes := Members(records, n, l);
    MembersAre(records, n, l);
    assert l in indexes;
    forall a | 0 <= a < |indexes| ensures l <= indexes[a] < n {
      assert indexes[a] in indexes;
      LeaderLeads(records, indexes[a]);
    }
  }

  // ----- which end finishes which start

  /** A row is finished exactly when some end finishes its start, and then shows that end's outcome. */
  lemma RowsShowTheirEnd(records: seq<Record>, k: nat)
    requires k < |Rows(records)|
    ensures Rows(records)[k].indexes != []
    ensures var row := Rows(records)[k]; var start := row.indexes[0];
      && start < |records|
      && (row.paired <==> exists e :: 0 <= e < |records| && Finishes(records, e) == Some(start))
      && (forall e :: 0 <= e < |records| && Finishes(records, e) == Some(start) ==>
            row.kind == Call && row.status == EndStatus(records[e]) && e in row.indexes)
      && (!row.paired ==> row.status == (if row.kind.Call? then Running else if row.kind.LoneEnd? then Unpaired else Own))
  {
    var n := |records|;
    PassTracks(records, n);
    LeadersAre(records, n);
    var l := Leaders(records, n)[k];
    assert l in Leaders(records, n);
    HeadIsLeader(records, n, l);
    forall e | 0 <= e < n && Finishes(records, e) == Some(l)
      ensures TopStart(records[l]) && e in Members(records, n, l) && Ending(records, n, l) == Some(e)
    {
      FinishesAStart(records, e);
      assert Leader(records, e) == Some(l);
      FinishedOnce(records, e, Ending(records, n, l).value);
    }
  }

  /** No start is finished twice. */
  lemma FinishedOnce(records: seq<Record>, e: nat, f: nat)
    requires e < |records| && f < |records|
    requires Finishes(records, e).Some? && Finishes(records, f) == Finishes(records, e)
    ensures e == f
  {
    if e < f { FinishedBefore(records, e, f); }
    if f < e { FinishedBefore(records, f, e); }
  }

  lemma FinishedBefore(records: seq<Record>, e: nat, f: nat)
    requires e < f < |records| && Finishes(records, e).Some?
    ensures Finishes(records, f) != Finishes(records, e)
  {
    FinishesAStart(records, e);
    var s := Finishes(records, e).value;
    if Finishes(records, f) == Some(s) {
      FinishesAStart(records, f);
      var r := records[f];
      if r.call != "" {
        OpenStartIs(records, f, r.call);
      } else {
        NotWaitingAfter(records, e, f, r.key);
      }
    }
  }

  /** Once served, a start never waits again: only later ones do. */
  lemma {:induction false} WaitingStaysAfter(s: nat, records: seq<Record>, m: nat, n: nat, key: Key, waiting: seq<nat>)
    requires s < m <= n <= |records| && AllAfter(s, Waiting(records, m, key)) && waiting == Waiting(records, n, key)
    ensures AllAfter(s, waiting)
    decreases n
  {
    if m < n {
      var before := Waiting(records, n - 1, key);
      WaitingStaysAfter(s, records, m, n - 1, key, before);
      WaitingMoves(records, n - 1, key);
      AfterMoves(s, before, waiting, n - 1);
    }
  }

  lemma AfterMoves(s: nat, waiting: seq<nat>, waiting': seq<nat>, x: nat)
    requires s < x && AllAfter(s, waiting)
    requires waiting' == waiting || waiting' == waiting + [x] || (waiting != [] && waiting' == waiting[1..])
    ensures AllAfter(s, waiting')
  {
  }

  lemma ServedLeaves(records: seq<Record>, e: nat, key: Key)
    requires e < |records| && LegacyEnd(records[e], key) && Waiting(records, e, key) != []
    ensures AllAfter(Waiting(records, e, key)[0], Waiting(records, e + 1, key))
  {
    var waiting := Waiting(records, e, key);
    OldestWaitsFirst(records, e, key);
    WaitingMoves(records, e, key);
    assert Waiting(records, e + 1, key) == waiting[1..];
  }

  lemma NotWaitingAfter(records: seq<Record>, e: nat, n: nat, key: Key)
    requires e < n <= |records| && LegacyEnd(records[e], key) && Finishes(records, e).Some?
    ensures AllAfter(Finishes(records, e).value, Waiting(records, n, key))
  {
    FinishesAStart(records, e);
    ServedLeaves(records, e, key);
    WaitingStaysAfter(Finishes(records, e).value, records, e + 1, n, key, Waiting(records, n, key));
  }

  ghost predicate AllAfter(s: nat, waiting: seq<nat>) {
    forall t :: 0 <= t < |waiting| ==> waiting[t] > s
  }

  lemma OldestWaitsFirst(records: seq<Record>, n: nat, key: Key)
    requires n <= |records|
    ensures forall a, b :: 0 <= a < b < |Waiting(records, n, key)| ==> Waiting(records, n, key)[a] < Waiting(records, n, key)[b]
  {
    LegacyStartsAre(records, n, key);
  }

  /** By id, an end finishes the latest start with its id that no start or end with that id follows;
      when there is none it stays alone. */
  lemma {:induction false} EndTakesTheOpenStart(records: seq<Record>, e: nat, s: nat)
    requires s < e < |records| && TopEnd(records[e]) && records[e].call != ""
    ensures Finishes(records, e) == Some(s) <==>
      (&& TopStart(records[s]) && records[s].call == records[e].call
       && forall k :: s < k < e && records[k].call == records[e].call ==> !TopStart(records[k]) && !TopEnd(records[k]))
  {
    var c := records[e].call;
    OpenStartIs(records, e, c);
    if TopStart(records[s]) && records[s].call == c
       && forall k :: s < k < e && records[k].call == c ==> !TopStart(records[k]) && !TopEnd(records[k]) {
      OpenStartFound(records, e, c, s);
    }
  }

  lemma {:induction false} OpenStartFound(records: seq<Record>, n: nat, c: string, s: nat)
    requires s < n <= |records| && TopStart(records[s]) && records[s].call == c
    requires forall k :: s < k < n && records[k].call == c ==> !TopStart(records[k]) && !TopEnd(records[k])
    ensures OpenStart(records, n, c) == Some(s)
    decreases n
  {
    if s < n - 1 { OpenStartFound(records, n - 1, c, s); }
  }

  /** Without ids, first in, first out: an end never overtakes an older start of its key. */
  lemma LegacyIsFirstInFirstOut(records: seq<Record>, s: nat, e: nat)
    requires s < e < |records|
    requires LegacyEnd(records[e], records[e].key) && LegacyStart(records[s], records[e].key)
    requires Finishes(records, e).None? || Finishes(records, e).value > s
    ensures exists f :: 0 <= f < e && Finishes(records, f) == Some(s)
  {
    var key := records[e].key;
    OldestWaitsFirst(records, e, key);
    if forall f :: 0 <= f < e ==> Finishes(records, f) != Some(s) {
      UnendedIs(records, e, s);
      UnservedWaits(records, e, key, s);
      assert false;
    }
  }

  lemma FirstServed(s: nat, waiting: seq<nat>)
    requires s in waiting && waiting[0] != s
    ensures s in waiting[1..]
  {
    assert waiting == [waiting[0]] + waiting[1..];
  }

  lemma LastJoins(waiting: seq<nat>, s: nat)
    ensures s in waiting + [s]
  {
    assert (waiting + [s])[|waiting|] == s;
  }

  /** A start that waits and is not the one this record ends goes on waiting. */
  lemma WaitsOn(records: seq<Record>, n: nat, key: Key, s: nat, waiting: seq<nat>)
    requires n < |records| && waiting == Waiting(records, n, key) && s in waiting
    requires Finishes(records, n) != Some(s)
    ensures s in Waiting(records, n + 1, key)
  {
    WaitingMoves(records, n, key);
    if LegacyEnd(records[n], key) && !LegacyStart(records[n], key) {
      FirstServed(s, waiting);
    }
  }

  lemma Joins(records: seq<Record>, s: nat, key: Key)
    requires s < |records| && LegacyStart(records[s], key)
    ensures s in Waiting(records, s + 1, key)
  {
    WaitingMoves(records, s, key);
    LastJoins(Waiting(records, s, key), s);
  }

  /** None of the first `n` records ends the start at `s`. */
  predicate Unended(records: seq<Record>, n: nat, s: nat)
    requires n <= |records|
  {
    n == 0 || (Unended(records, n - 1, s) && Finishes(records, n - 1) != Some(s))
  }

  lemma {:induction false} UnendedIs(records: seq<Record>, n: nat, s: nat)
    requires n <= |records| && forall f :: 0 <= f < n ==> Finishes(records, f) != Some(s)
    ensures Unended(records, n, s)
  {
    if n > 0 { UnendedIs(records, n - 1, s); }
  }

  lemma {:induction false} UnservedWaits(records: seq<Record>, n: nat, key: Key, s: nat)
    requires s < n <= |records| && LegacyStart(records[s], key) && Unended(records, n, s)
    ensures s in Waiting(records, n, key)
    decreases n
  {
    if s == n - 1 {
      Joins(records, s, key);
    } else {
      UnservedWaits(records, n - 1, key, s);
      WaitsOn(records, n - 1, key, s, Waiting(records, n - 1, key));
    }
  }

  // ----- the loop

  /** `_coalesce_audit_records`. */
  method Coalesce(records: seq<Record>) returns (rows: seq<Row>)
    ensures rows == Rows(records)
  {
    rows := [];
    var pendingById: map<string, nat> := map[];
    var entriesById: map<string, nat> := map[];
    var pendingLegacy: map<Key, seq<nat>> := map[];
    var index := 0;
    while index < |records|
      invariant 0 <= index <= |records|
      invariant State(rows, pendingById, entriesById, pendingLegacy) == Pass(records, index)
    {
      PassTracks(records, index);
      var r := records[index];
      if r.event.Hidden? {
      } else if r.parent != "" && r.parent in entriesById {
        LatestStartIs(records, index, r.parent);
        var at := entriesById[r.parent];
        rows := rows[at := Nesting(rows[at], r, index)];
      } else if r.parent != "" && Lifecycle(r) {
      } else if r.event.Start? {
        if r.call != "" {
          pendingById := pendingById[r.call := |rows|];
          entriesById := entriesById[r.call := |rows|];
        } else {
          pendingLegacy := pendingLegacy[r.key := Queue(pendingLegacy, r.key) + [|rows|]];
        }
        rows := rows + [NewCall(index)];
      } else if r.event.End? {
        if r.call != "" && r.call in pendingById {
          var at := pendingById[r.call];
          pendingById := pendingById - {r.call};
          rows := Update(rows, at, row => FinishedBy(row, r, index));
        } else if r.call == "" && Queue(pendingLegacy, r.key) != [] {
          var pending := Queue(pendingLegacy, r.key);
          pendingLegacy := pendingLegacy[r.key := pending[1..]];
          rows := Update(rows, pending[0], row => FinishedBy(row, r, index));
        } else {
          rows := rows + [NewLoneEnd(index)];
        }
      } else {
        rows := rows + [NewPlain(index)];
      }
      index := index + 1;
    }
  }
}
