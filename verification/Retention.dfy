/** Retention pruning of the tracked-job store. */
module Retention {
  import opened Common
  import opened JobState

  /** Completed history: safe to evict. A lost shell job counts only once its absence is proved. */
  predicate RetentionTerminal(r: JobRow) {
    r.status.Terminal() && !(r.kind == Shell && r.status == Lost && !r.absenceConfirmed)
  }

  function Recency(r: JobRow): int {
    if r.updatedAt != 0 then r.updatedAt else r.createdAt
  }

  // ----- masks: which positions of the store are kept

  function Count(mask: seq<bool>): (c: nat)
    ensures c <= |mask|
  {
    if mask == [] then 0 else (if mask[0] then 1 else 0) + Count(mask[1..])
  }

  function Filter(rows: seq<JobRow>, mask: seq<bool>): (r: seq<JobRow>)
    requires |mask| == |rows|
    ensures |r| == Count(mask)
    ensures forall x :: x in r ==> x in rows
  {
    if rows == [] then []
    else (if mask[0] then [rows[0]] else []) + Filter(rows[1..], mask[1..])
  }

  function ActiveMask(rows: seq<JobRow>): seq<bool> {
    seq(|rows|, i requires 0 <= i < |rows| => !RetentionTerminal(rows[i]))
  }

  /** Positions of the evictable rows among the first `n`, in store order. */
  function Finished(rows: seq<JobRow>, n: nat): (s: seq<nat>)
    requires n <= |rows|
    ensures forall i :: 0 <= i < |s| ==> s[i] < n && RetentionTerminal(rows[s[i]])
  {
    if n == 0 then []
    else Finished(rows, n - 1) + (if RetentionTerminal(rows[n - 1]) then [n - 1] else [])
  }

  /** Evictable positions, newest first; ties keep store order. */
  function NewestFirst(rows: seq<JobRow>): seq<nat> {
    SortByKey(Finished(rows, |rows|), (k: nat) => if k < |rows| then -Recency(rows[k]) else 0)
  }

  /** `finished[: max(0, max_jobs - len(active))]`. */
  function KeptFinished(rows: seq<JobRow>, limit: int): seq<nat> {
    var order := NewestFirst(rows);
    order[..Min(|order|, Max(0, Max(0, limit) - Count(ActiveMask(rows))))]
  }

  function Mark(mask: seq<bool>, positions: seq<nat>): (m: seq<bool>)
    ensures |m| == |mask|
    ensures forall k :: 0 <= k < |mask| ==> (m[k] <==> mask[k] || k in positions)
    decreases |positions|
  {
    if positions == [] then mask
    else if positions[0] < |mask| then Mark(mask[positions[0] := true], positions[1..])
    else Mark(mask, positions[1..])
  }

  function KeptMask(rows: seq<JobRow>, limit: int): seq<bool> {
    Mark(ActiveMask(rows), KeptFinished(rows, limit))
  }

  /** `prune_store`: the rows that must stay and the newest evictable rows, in store order. */
  function PruneStore(rows: seq<JobRow>, limit: int): seq<JobRow> {
    Filter(rows, KeptMask(rows, limit))
  }

  // ----- counting

  lemma {:induction false} CountSet(mask: seq<bool>, k: nat)
    requires k < |mask| && !mask[k]
    ensures Count(mask[k := true]) == Count(mask) + 1
  {
    if k > 0 {
      CountSet(mask[1..], k - 1);
      assert mask[k := true][1..] == mask[1..][k - 1 := true];
    } else {
      assert mask[k := true][1..] == mask[1..];
    }
  }

  lemma {:induction false} CountMark(mask: seq<bool>, positions: seq<nat>)
    requires forall i :: 0 <= i < |positions| ==> positions[i] < |mask| && !mask[positions[i]]
    requires forall i, j :: 0 <= i < j < |positions| ==> positions[i] != positions[j]
    ensures Count(Mark(mask, positions)) == Count(mask) + |positions|
    decreases |positions|
  {
    if positions != [] {
      CountSet(mask, positions[0]);
      CountMark(mask[positions[0] := true], positions[1..]);
    }
  }

  lemma {:induction false} CountFinished(rows: seq<JobRow>, n: nat)
    requires n <= |rows|
    ensures |Finished(rows, n)| + Count(ActiveMask(rows[..n])) == n
  {
    if n > 0 {
      CountFinished(rows, n - 1);
      CountAppend(ActiveMask(rows[..n - 1]), !RetentionTerminal(rows[n - 1]));
      assert ActiveMask(rows[..n]) == ActiveMask(rows[..n - 1]) + [!RetentionTerminal(rows[n - 1])];
    }
  }

  lemma {:induction false} CountAppend(mask: seq<bool>, b: bool)
    ensures Count(mask + [b]) == Count(mask) + (if b then 1 else 0)
  {
    if mask == [] {
      assert mask + [b] == [b];
    } else {
      CountAppend(mask[1..], b);
      assert (mask + [b])[1..] == mask[1..] + [b];
    }
  }

  lemma {:induction false} CountFull(mask: seq<bool>)
    requires Count(mask) == |mask|
    ensures forall k :: 0 <= k < |mask| ==> mask[k]
  {
    if mask != [] {
      CountFull(mask[1..]);
    }
  }

  lemma {:induction false} FinishedInOrder(rows: seq<JobRow>, n: nat)
    requires n <= |rows|
    ensures Distinct(Finished(rows, n))
    ensures forall k: nat :: k < n && RetentionTerminal(rows[k]) ==> k in Finished(rows, n)
  {
    if n > 0 {
      FinishedInOrder(rows, n - 1);
    }
  }

  /** The newest-first order lists each evictable position exactly once, in order of recency. */
  lemma NewestFirstOrder(rows: seq<JobRow>)
    ensures |NewestFirst(rows)| == |rows| - Count(ActiveMask(rows))
    ensures forall k: nat :: k < |rows| && RetentionTerminal(rows[k]) ==> k in NewestFirst(rows)
    ensures var order := NewestFirst(rows);
      && (forall i :: 0 <= i < |order| ==> order[i] < |rows| && RetentionTerminal(rows[order[i]]))
      && (forall i, j :: 0 <= i < j < |order| ==>
        order[i] != order[j] && Recency(rows[order[j]]) <= Recency(rows[order[i]]))
  {
    var f := Finished(rows, |rows|);
    var key := (k: nat) => if k < |rows| then -Recency(rows[k]) else 0;
    var order := NewestFirst(rows);
    SortKeepsElements(f, key);
    SortIsAscending(f, key);
    CountFinished(rows, |rows|);
    assert rows[..|rows|] == rows;
    FinishedInOrder(rows, |rows|);
    SortKeepsMembers(f, key);
    DistinctRearranged(f, order);
    forall i | 0 <= i < |order| ensures order[i] < |rows| && RetentionTerminal(rows[order[i]]) {
      assert order[i] in f;
    }
    forall i, j | 0 <= i < j < |order| ensures Recency(rows[order[j]]) <= Recency(rows[order[i]]) {
      assert key(order[i]) <= key(order[j]);
    }
  }

  /** No dropped row is newer than a kept evictable one. */
  ghost predicate DropsOldest(rows: seq<JobRow>, mask: seq<bool>)
    requires |mask| == |rows|
  {
    forall k, d | 0 <= k < |rows| && 0 <= d < |rows| && mask[k] && RetentionTerminal(rows[k]) && !mask[d] ::
      Recency(rows[d]) <= Recency(rows[k])
  }

  // ----- main results

  lemma MaskDropsOldest(rows: seq<JobRow>, limit: int)
    ensures DropsOldest(rows, KeptMask(rows, limit))
  {
    NewestFirstOrder(rows);
    var order := NewestFirst(rows);
    var chosen := KeptFinished(rows, limit);
    var mask := KeptMask(rows, limit);
    forall k: nat, d: nat | k < |rows| && d < |rows| && mask[k] && RetentionTerminal(rows[k]) && !mask[d]
      ensures Recency(rows[d]) <= Recency(rows[k])
    {
      assert k in chosen;
      var i :| 0 <= i < |chosen| && chosen[i] == k;
      assert d in order && d !in chosen;
      var j :| 0 <= j < |order| && order[j] == d;
    }
  }

  /** Exact retention: rows that must stay stay; the number kept is the limit when that many
      fit beside them, and just them otherwise; no evicted row is newer than a kept evictable
      one. The kept rows are a filter of the store, so they keep its order. */
  lemma RetentionIsExact(rows: seq<JobRow>, limit: int)
    ensures PruneStore(rows, limit) == Filter(rows, KeptMask(rows, limit))
    ensures forall k :: 0 <= k < |rows| && !RetentionTerminal(rows[k]) ==> KeptMask(rows, limit)[k]
    ensures DropsOldest(rows, KeptMask(rows, limit))
    ensures |PruneStore(rows, limit)| == Min(|rows|, Max(Max(0, limit), Count(ActiveMask(rows))))
  {
    NewestFirstOrder(rows);
    MaskDropsOldest(rows, limit);
    CountMark(ActiveMask(rows), KeptFinished(rows, limit));
  }

  lemma {:induction false} FinishedAscend(rows: seq<JobRow>, n: nat)
    requires n <= |rows|
    ensures AscendingBy(Finished(rows, n), (k: nat) => k)
  {
    if n > 0 { FinishedAscend(rows, n - 1); }
  }

  /** Completed history, status by status. */
  predicate History(r: JobRow) {
    r.status in {Succeeded, Failed, Exited, Stopped} || (r.status == Lost && (r.kind == Managed || r.absenceConfirmed))
  }

  /** Against every row that goes, a kept row of history was updated later, or at the same time and stands
      before it; a row without an update time counts as updated when it was created. */
  lemma NewestAreKept(rows: seq<JobRow>, limit: int, k: nat, d: nat)
    requires k < |rows| && d < |rows| && KeptMask(rows, limit)[k] && History(rows[k]) && !KeptMask(rows, limit)[d]
    ensures History(rows[d])
    ensures var kept := if rows[k].updatedAt == 0 then rows[k].createdAt else rows[k].updatedAt;
      var gone := if rows[d].updatedAt == 0 then rows[d].createdAt else rows[d].updatedAt;
      gone < kept || (gone == kept && k < d)
  {
    RetentionIsExact(rows, limit);
    MaskDropsOldest(rows, limit);
    if Recency(rows[k]) == Recency(rows[d]) { TiesKeepStoreOrder(rows, limit, k, d); }
  }

  lemma TiesKeepStoreOrder(rows: seq<JobRow>, limit: int, k: nat, d: nat)
    requires k < |rows| && d < |rows| && KeptMask(rows, limit)[k] && RetentionTerminal(rows[k]) && !KeptMask(rows, limit)[d]
    requires RetentionTerminal(rows[d]) && Recency(rows[k]) == Recency(rows[d])
    ensures k < d
  {
    NewestFirstOrder(rows);
    var order, chosen := NewestFirst(rows), KeptFinished(rows, limit);
    var key := (p: nat) => if p < |rows| then -Recency(rows[p]) else 0;
    FinishedAscend(rows, |rows|);
    SortIsStable(Finished(rows, |rows|), key, (p: nat) => p);
    assert k in chosen;
    var i :| 0 <= i < |chosen| && chosen[i] == k;
    assert d in order && d !in chosen;
    var j :| 0 <= j < |order| && order[j] == d;
    assert j >= |chosen|;
    assert key(order[i]) == key(order[j]);
  }

  lemma {:induction false} FilterAll(rows: seq<JobRow>, mask: seq<bool>)
    requires |mask| == |rows|
    requires forall k :: 0 <= k < |mask| ==> mask[k]
    ensures Filter(rows, mask) == rows
  {
    if rows != [] {
      FilterAll(rows[1..], mask[1..]);
    }
  }

  /** A filter that drops no row that must stay keeps all of them. */
  lemma {:induction false} FilterKeepsActive(rows: seq<JobRow>, mask: seq<bool>)
    requires |mask| == |rows|
    requires forall k :: 0 <= k < |rows| && !RetentionTerminal(rows[k]) ==> mask[k]
    ensures Count(ActiveMask(Filter(rows, mask))) == Count(ActiveMask(rows))
  {
    if rows != [] {
      FilterKeepsActive(rows[1..], mask[1..]);
      assert ActiveMask(rows)[1..] == ActiveMask(rows[1..]);
      var f := Filter(rows, mask);
      if mask[0] {
        assert f[1..] == Filter(rows[1..], mask[1..]);
        assert ActiveMask(f)[1..] == ActiveMask(f[1..]);
      } else {
        assert f == Filter(rows[1..], mask[1..]);
      }
    }
  }

  /** Pruning twice is pruning once. */
  lemma PruneIsIdempotent(rows: seq<JobRow>, limit: int)
    ensures PruneStore(PruneStore(rows, limit), limit) == PruneStore(rows, limit)
  {
    var pruned := PruneStore(rows, limit);
    RetentionIsExact(rows, limit);
    FilterKeepsActive(rows, KeptMask(rows, limit));
    RetentionIsExact(pruned, limit);
    CountFull(KeptMask(pruned, limit));
    FilterAll(pruned, KeptMask(pruned, limit));
  }

  lemma {:induction false} FilterKeepsKeys(rows: seq<JobRow>, mask: seq<bool>)
    requires |mask| == |rows| && DistinctKeys(rows)
    ensures DistinctKeys(Filter(rows, mask))
    ensures forall k :: 0 <= k < |rows| && mask[k] ==> rows[k] in Filter(rows, mask)
  {
    if rows != [] {
      FilterKeepsKeys(rows[1..], mask[1..]);
      var rest := Filter(rows[1..], mask[1..]);
      forall i | 0 <= i < |rest| ensures rest[i].key != rows[0].key {
        assert rest[i] in rows[1..];
      }
    }
  }

  /** Pruning only drops rows; no row that must stay is dropped. */
  lemma PruneKeepsRows(rows: seq<JobRow>, limit: int)
    requires DistinctKeys(rows)
    ensures DistinctKeys(PruneStore(rows, limit))
    ensures forall r :: r in PruneStore(rows, limit) ==> r in rows
    ensures forall r :: r in rows && !RetentionTerminal(r) ==> r in PruneStore(rows, limit)
  {
    RetentionIsExact(rows, limit);
    FilterKeepsKeys(rows, KeptMask(rows, limit));
  }
}
