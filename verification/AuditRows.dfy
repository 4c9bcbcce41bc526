/** What one coalesced row shows, told from the records alone. */
module AuditRows {
  import opened Common
  import opened AuditCoalesce

  /** The outcome an end states: by its `ok` field when that is a boolean. */
  predicate States(status: Status, ok: Option<bool>) {
    && (ok == Some(true) ==> status == Success)
    && (ok == Some(false) ==> status == Failed)
    && (ok == None ==> status == Completed)
  }

  /** A row is a call's, a lone end's or a plain record's by its first record, and finished or not by its pairing;
      a finished one is a call that lists the end and shows what the end states. */
  lemma RowShowsOutcome(records: seq<Record>, k: nat)
    requires k < |Rows(records)|
    ensures var row := Rows(records)[k];
      && row.indexes != [] && row.indexes[0] < |records|
      && var first := records[row.indexes[0]];
      && (row.kind == Call <==> first.event == Event.Start && first.parent == "")
      && (row.kind == LoneEnd <==> first.event == Event.End && first.parent == "")
      && (row.paired ==> row.kind == Call && exists e: nat ::
            && e < |records| && e in row.indexes && Ends(first, records[e]) && States(row.status, records[e].ok))
      && (!row.paired ==>
            && (row.kind == Call ==> row.status == Running)
            && (row.kind == LoneEnd ==> row.status == Unpaired)
            && (row.kind == Plain ==> row.status == Own))
  {
    var n, row := |records|, Rows(records)[k];
    PassTracks(records, n);
    LeadersAre(records, n);
    RowsShowTheirEnd(records, k);
    var l := Leaders(records, n)[k];
    assert l in Leaders(records, n);
    HeadIsLeader(records, n, l);
    if row.paired {
      var e: nat :| e < |records| && Finishes(records, e) == Some(row.indexes[0]);
      FinishesAStart(records, e);
      assert Ends(records[row.indexes[0]], records[e]);
    }
  }

  /** An end at the top level with the same call id as a start, or without ids the same key. */
  predicate Ends(start: Record, end: Record) {
    end.event == Event.End && end.parent == "" && end.call == start.call && (end.call == "" ==> end.key == start.key)
  }

  /** `s` is the latest call at the top level before `i` with this id. */
  ghost predicate LatestCall(records: seq<Record>, i: nat, s: nat, id: string) {
    && s < i <= |records|
    && records[s].event == Event.Start && records[s].parent == "" && records[s].call == id
    && forall j :: s < j < i ==> !(records[j].event == Event.Start && records[j].parent == "" && records[j].call == id)
  }

  /** Which row a record that names a parent is in: that of the latest call with the parent's id, and its own when
      there is none and it is not itself a start or an end. */
  lemma NestedRecordsGoToTheirCall(records: seq<Record>, i: nat, k: nat)
    requires i < |records| && records[i].parent != "" && records[i].event != Hidden && k < |Rows(records)|
    ensures var row := Rows(records)[k];
      && row.indexes != []
      && (i in row.indexes <==>
            || LatestCall(records, i, row.indexes[0], records[i].parent)
            || (&& row.indexes[0] == i && !Lifecycle(records[i])
                && forall s: nat :: s < i ==> !LatestCall(records, i, s, records[i].parent)))
  {
    var n := |records|;
    PassTracks(records, n);
    LeadersAre(records, n);
    var l := Leaders(records, n)[k];
    assert l in Leaders(records, n);
    HeadIsLeader(records, n, l);
    LatestStartIs(records, i, records[i].parent);
    var s := LatestStart(records, i, records[i].parent);
    if s.Some? {
      assert LatestCall(records, i, s.value, records[i].parent);
    }
  }

  /** A row's related events are its records that name themselves, other than its first, in log order. */
  lemma RelatedAreTheNamed(records: seq<Record>, k: nat)
    requires k < |Rows(records)|
    ensures var row := Rows(records)[k];
      && row.indexes != []
      && (forall i: nat :: i in row.related <==>
            i in row.indexes && i != row.indexes[0] && i < |records| && records[i].event == Event.Named)
      && (forall a, b :: 0 <= a < b < |row.related| ==> row.related[a] < row.related[b])
  {
    var n := |records|;
    PassTracks(records, n);
    LeadersAre(records, n);
    var l := Leaders(records, n)[k];
    assert l in Leaders(records, n);
    HeadIsLeader(records, n, l);
    RelatedAre(records, n, l);
  }

  lemma {:induction false} RelatedAre(records: seq<Record>, n: nat, l: nat)
    requires n <= |records|
    ensures forall i: nat :: i in Related(records, n, l) <==> i < n && Nested(records, i, l)
    ensures forall a, b :: 0 <= a < b < |Related(records, n, l)| ==> Related(records, n, l)[a] < Related(records, n, l)[b]
  {
    if n > 0 {
      RelatedAre(records, n - 1, l);
      var before := Related(records, n - 1, l);
      assert forall a :: 0 <= a < |before| ==> before[a] in before;
    }
  }
}
