/** Several hunks applied to one file: descending splices are one simultaneous substitution. */
module HashlineEdit {
  import opened Common
  import opened HashlineText

  /** Original lines `start..end`, counted from one, become `lines`. */
  datatype Hunk = Hunk(start: nat, end: nat, lines: seq<string>)

  function Start(h: Hunk): int { h.start }

  function FromLast(h: Hunk): int { 0 - h.start }

  predicate InFile(h: Hunk, n: nat) { 1 <= h.start <= h.end <= n }

  // ----- the splices

  function UpTo<T>(s: seq<T>, n: int): seq<T> { if n <= 0 then [] else if n <= |s| then s[..n] else s }

  function From<T>(s: seq<T>, n: nat): seq<T> { if n <= |s| then s[n..] else [] }

  function Splice(lines: seq<string>, h: Hunk): seq<string> {
    UpTo(lines, h.start - 1) + h.lines + From(lines, h.end)
  }

  function SpliceAll(lines: seq<string>, hunks: seq<Hunk>): seq<string>
    decreases |hunks|
  {
    if hunks == [] then lines else SpliceAll(Splice(lines, hunks[0]), hunks[1..])
  }

  /** `_apply_hashline_file_hunks`: the last hunk first. */
  function Updated(lines: seq<string>, hunks: seq<Hunk>): seq<string> {
    SpliceAll(lines, LastFirst(hunks))
  }

  function LastFirst(hunks: seq<Hunk>): seq<Hunk> {
    SortByKey(hunks, FromLast)
  }

  function InOrder(hunks: seq<Hunk>): (r: seq<Hunk>)
    ensures |r| == |hunks|
  {
    SortKeepsElements(hunks, Start);
    SortByKey(hunks, Start)
  }

  // ----- the overlap check

  predicate NextApart(sorted: seq<Hunk>) {
    forall k :: 0 <= k < |sorted| - 1 ==> sorted[k].end < sorted[k + 1].start
  }

  predicate Apart(g: Hunk, h: Hunk) { g.end < h.start || h.end < g.start }

  ghost predicate AllApart(hunks: seq<Hunk>) {
    forall i, j :: 0 <= i < j < |hunks| ==> Apart(hunks[i], hunks[j])
  }

  /** The hunks as laid out in a file of `n` lines, the first `from` of which are behind them. */
  predicate Laid(sorted: seq<Hunk>, from: nat, n: nat)
    decreases |sorted|
  {
    if sorted == [] then from <= n
    else from < sorted[0].start <= sorted[0].end <= n && Laid(sorted[1..], sorted[0].end, n)
  }

  lemma {:induction false} NextApartIsAllApart(sorted: seq<Hunk>, i: nat, j: nat)
    requires forall k :: 0 <= k < |sorted| ==> sorted[k].start <= sorted[k].end
    requires NextApart(sorted) && i < j < |sorted|
    ensures sorted[i].end < sorted[j].start
    decreases j
  {
    if i < j - 1 { NextApartIsAllApart(sorted, i, j - 1); }
  }

  lemma ApartRearranged(s: seq<Hunk>, t: seq<Hunk>)
    requires AllApart(s) && multiset(s) == multiset(t)
    requires forall k :: 0 <= k < |s| ==> s[k].start <= s[k].end
    ensures AllApart(t)
  {
    DistinctRearranged(s, t);
    forall i, j | 0 <= i < j < |t| ensures Apart(t[i], t[j]) {
      assert t[i] in multiset(t) && t[j] in multiset(t);
      var a :| 0 <= a < |s| && s[a] == t[i];
      var b :| 0 <= b < |s| && s[b] == t[j];
      assert a < b || b < a;
    }
  }

  /** Comparing neighbours after sorting finds an overlap exactly when some two hunks overlap. */
  lemma NeighboursSuffice(hunks: seq<Hunk>)
    requires forall k :: 0 <= k < |hunks| ==> hunks[k].start <= hunks[k].end
    ensures NextApart(InOrder(hunks)) <==> AllApart(hunks)
  {
    var sorted := InOrder(hunks);
    SortKeepsElements(hunks, Start);
    SortIsAscending(hunks, Start);
    forall k | 0 <= k < |sorted| ensures sorted[k].start <= sorted[k].end {
      assert sorted[k] in multiset(sorted);
      assert sorted[k] in hunks;
    }
    if NextApart(sorted) {
      forall i, j | 0 <= i < j < |sorted| { NextApartIsAllApart(sorted, i, j); }
      ApartRearranged(sorted, hunks);
    }
    if AllApart(hunks) {
      ApartRearranged(hunks, sorted);
      forall k | 0 <= k < |sorted| - 1 ensures sorted[k].end < sorted[k + 1].start {
        assert Apart(sorted[k], sorted[k + 1]);
        assert Start(sorted[k]) <= Start(sorted[k + 1]);
      }
    }
  }

  // ----- the substitution

  /** Gaps and replacements in original order. */
  function Interleaved(lines: seq<string>, from: nat, sorted: seq<Hunk>): seq<string>
    requires Laid(sorted, from, |lines|)
    decreases |sorted|
  {
    if sorted == [] then lines[from..]
    else lines[from..sorted[0].start - 1] + sorted[0].lines + Interleaved(lines, sorted[0].end, sorted[1..])
  }

  function Reversed<T>(s: seq<T>): seq<T> {
    if s == [] then [] else Reversed(s[1..]) + [s[0]]
  }

  lemma {:induction false} SpliceAllLast(lines: seq<string>, hunks: seq<Hunk>, h: Hunk)
    ensures SpliceAll(lines, hunks + [h]) == Splice(SpliceAll(lines, hunks), h)
    decreases |hunks|
  {
    if hunks == [] {
      assert [] + [h] == [h];
      assert [h][1..] == [];
    } else {
      SpliceAllLast(Splice(lines, hunks[0]), hunks[1..], h);
      assert (hunks + [h])[1..] == hunks[1..] + [h];
    }
  }

  /** A splice into a text whose part before `end` is still the original. */
  lemma PartsOf<T>(lines: seq<T>, from: nat, start: nat, end: nat, rest: seq<T>)
    requires from < start <= end <= |lines|
    ensures UpTo(lines[..end] + rest, start - 1) == lines[..from] + lines[from..start - 1]
    ensures From(lines[..end] + rest, end) == rest
  {
  }

  /** A splice into a text whose part before `end` is still the original. */
  lemma SpliceBefore(lines: seq<string>, from: nat, h: Hunk, rest: seq<string>)
    requires from < h.start <= h.end <= |lines|
    ensures Splice(lines[..h.end] + rest, h) == lines[..from] + (lines[from..h.start - 1] + h.lines + rest)
  {
    PartsOf(lines, from, h.start, h.end, rest);
    Grouped(lines[..from], lines[from..h.start - 1], h.lines, rest);
  }

  lemma Grouped<T>(a: seq<T>, b: seq<T>, c: seq<T>, d: seq<T>)
    ensures (a + b) + c + d == a + (b + c + d)
  {
  }

  lemma OneMoreSplice(lines: seq<string>, from: nat, h: Hunk, before: seq<Hunk>, rest: seq<string>)
    requires from < h.start <= h.end <= |lines|
    requires SpliceAll(lines, before) == lines[..h.end] + rest
    ensures SpliceAll(lines, before + [h]) == lines[..from] + (lines[from..h.start - 1] + h.lines + rest)
  {
    SpliceAllLast(lines, before, h);
    SpliceBefore(lines, from, h, rest);
  }

  lemma Cut<T>(s: seq<T>, n: nat)
    requires n <= |s|
    ensures s == s[..n] + s[n..]
  {
  }

  /** Splicing the last hunk first builds the substitution from the end: what lies before the hunks
      stays, and their splices rewrite the rest. */
  lemma {:induction false} SplicesInterleave(lines: seq<string>, from: nat, sorted: seq<Hunk>, backwards: seq<Hunk>)
    requires Laid(sorted, from, |lines|) && backwards == Reversed(sorted)
    ensures SpliceAll(lines, backwards) == lines[..from] + Interleaved(lines, from, sorted)
    decreases |sorted|
  {
    if sorted == [] {
      Cut(lines, from);
    } else {
      var h, tail := sorted[0], sorted[1..];
      SplicesInterleave(lines, h.end, tail, Reversed(tail));
      OneMoreSplice(lines, from, h, Reversed(tail), Interleaved(lines, h.end, tail));
    }
  }

  ghost predicate Strictly<T>(s: seq<T>, key: T -> int) {
    forall i, j :: 0 <= i < j < |s| ==> key(s[i]) < key(s[j])
  }

  lemma SameFirst<T>(s: seq<T>, t: seq<T>, key: T -> int)
    requires Strictly(s, key) && AscendingBy(t, key) && multiset(s) == multiset(t) && s != []
    ensures t != [] && s[0] == t[0]
  {
    assert s[0] in multiset(t);
    assert t[0] in multiset(s);
    var j :| 0 <= j < |t| && t[j] == s[0];
    var i :| 0 <= i < |s| && s[i] == t[0];
  }

  lemma SameRest<T>(s: seq<T>, t: seq<T>)
    requires s != [] && t != [] && s[0] == t[0] && multiset(s) == multiset(t)
    ensures multiset(s[1..]) == multiset(t[1..])
  {
    assert s == [s[0]] + s[1..];
    assert t == [t[0]] + t[1..];
    assert multiset(s[1..]) == multiset(s) - multiset{s[0]};
  }

  /** A strict order of given elements is the only sorted order. */
  lemma {:induction false} OnlyOneOrder<T>(s: seq<T>, t: seq<T>, key: T -> int)
    requires Strictly(s, key) && AscendingBy(t, key) && multiset(s) == multiset(t)
    ensures s == t
    decreases |s|
  {
    if s == [] {
      assert |multiset(t)| == 0;
    } else {
      SameFirst(s, t, key);
      SameRest(s, t);
      OnlyOneOrder(s[1..], t[1..], key);
    }
  }

  lemma {:induction false} ReversedIs<T>(s: seq<T>)
    ensures |Reversed(s)| == |s| && multiset(Reversed(s)) == multiset(s)
    ensures forall k :: 0 <= k < |s| ==> Reversed(s)[k] == s[|s| - 1 - k]
  {
    if s != [] {
      ReversedIs(s[1..]);
      assert s == [s[0]] + s[1..];
    }
  }

  lemma {:induction false} ApartIsLaid(sorted: seq<Hunk>, from: nat, n: nat)
    requires from <= n && forall k :: 0 <= k < |sorted| ==> InFile(sorted[k], n)
    requires NextApart(sorted) && (sorted != [] ==> from < sorted[0].start)
    ensures Laid(sorted, from, n)
    decreases |sorted|
  {
    if sorted != [] {
      assert forall k :: 0 <= k < |sorted| - 1 ==> sorted[1..][k] == sorted[k + 1];
      ApartIsLaid(sorted[1..], sorted[0].end, n);
    }
  }

  /** Hunks that pass the check, in order, and what the descending sort does to them. */
  lemma SortedHunks(hunks: seq<Hunk>, n: nat)
    requires forall k :: 0 <= k < |hunks| ==> InFile(hunks[k], n)
    requires NextApart(InOrder(hunks))
    ensures Laid(InOrder(hunks), 0, n)
    ensures Strictly(InOrder(hunks), Start)
    ensures LastFirst(hunks) == Reversed(InOrder(hunks))
  {
    var sorted := InOrder(hunks);
    SortKeepsElements(hunks, Start);
    forall k | 0 <= k < |sorted| ensures InFile(sorted[k], n) {
      assert sorted[k] in multiset(sorted);
      assert sorted[k] in hunks;
    }
    ApartIsLaid(sorted, 0, n);
    forall i, j | 0 <= i < j < |sorted| ensures Start(sorted[i]) < Start(sorted[j]) {
      NextApartIsAllApart(sorted, i, j);
    }
    ReversedIs(sorted);
    SortKeepsElements(hunks, FromLast);
    SortIsAscending(hunks, FromLast);
    OnlyOneOrder(Reversed(sorted), LastFirst(hunks), FromLast);
  }

  /** Once the check passes, the splices are the simultaneous substitution. */
  lemma UpdateIsASubstitution(lines: seq<string>, hunks: seq<Hunk>)
    requires forall k :: 0 <= k < |hunks| ==> InFile(hunks[k], |lines|)
    requires NextApart(InOrder(hunks))
    ensures Laid(InOrder(hunks), 0, |lines|)
    ensures Updated(lines, hunks) == Interleaved(lines, 0, InOrder(hunks))
  {
    SortedHunks(hunks, |lines|);
    SplicesInterleave(lines, 0, InOrder(hunks), Reversed(InOrder(hunks)));
    assert lines[..0] + Interleaved(lines, 0, InOrder(hunks)) == Interleaved(lines, 0, InOrder(hunks));
  }

  /** The order in which the hunks were written does not matter. */
  lemma InputOrderDoesNotMatter(lines: seq<string>, hunks: seq<Hunk>, others: seq<Hunk>)
    requires forall k :: 0 <= k < |hunks| ==> InFile(hunks[k], |lines|)
    requires multiset(hunks) == multiset(others) && NextApart(InOrder(hunks))
    ensures NextApart(InOrder(others)) && Updated(lines, others) == Updated(lines, hunks)
  {
    SortedHunks(hunks, |lines|);
    SortKeepsElements(hunks, Start);
    SortKeepsElements(others, Start);
    SortIsAscending(others, Start);
    OnlyOneOrder(InOrder(hunks), InOrder(others), Start);
    forall k | 0 <= k < |others| ensures InFile(others[k], |lines|) {
      assert others[k] in multiset(others);
      assert others[k] in hunks;
    }
    SortedHunks(others, |lines|);
  }

  // ----- where the replacements are

  function Delta(h: Hunk): int { |h.lines| - (h.end - h.start + 1) }

  /** The running delta before the `k`-th hunk. */
  function Shift(sorted: seq<Hunk>, k: nat): int
    requires k <= |sorted|
  {
    if k == 0 then 0 else Shift(sorted, k - 1) + Delta(sorted[k - 1])
  }

  lemma {:induction false} ShiftFromHead(sorted: seq<Hunk>, k: nat)
    requires 0 < k <= |sorted|
    ensures Shift(sorted, k) == Delta(sorted[0]) + Shift(sorted[1..], k - 1)
  {
    if k > 1 { ShiftFromHead(sorted, k - 1); }
  }

  /** `part` stands in `s` at position `at`. */
  predicate StandsAt<T(==)>(part: seq<T>, s: seq<T>, at: int) {
    0 <= at && at + |part| <= |s| && s[at..at + |part|] == part
  }

  lemma StandsLater<T>(part: seq<T>, a: seq<T>, b: seq<T>, at: int)
    requires StandsAt(part, b, at)
    ensures StandsAt(part, a + b, |a| + at)
  {
    assert (a + b)[|a| + at..|a| + at + |part|] == b[at..at + |part|];
  }

  lemma StandsBetween<T>(a: seq<T>, part: seq<T>, b: seq<T>)
    ensures StandsAt(part, a + part + b, |a|)
  {
    assert (a + part + b)[|a|..|a| + |part|] == part;
  }

  lemma InterleavedLater(lines: seq<string>, from: nat, sorted: seq<Hunk>, part: seq<string>, at: int)
    requires sorted != [] && Laid(sorted, from, |lines|)
    requires StandsAt(part, Interleaved(lines, sorted[0].end, sorted[1..]), at)
    ensures StandsAt(part, Interleaved(lines, from, sorted), sorted[0].start - 1 - from + |sorted[0].lines| + at)
  {
    var h := sorted[0];
    StandsLater(part, lines[from..h.start - 1] + h.lines, Interleaved(lines, h.end, sorted[1..]), at);
  }

  lemma {:induction false} InterleavedAt(lines: seq<string>, from: nat, sorted: seq<Hunk>, k: nat, at: int)
    requires Laid(sorted, from, |lines|) && k < |sorted| && at == sorted[k].start - 1 + Shift(sorted, k) - from
    ensures StandsAt(sorted[k].lines, Interleaved(lines, from, sorted), at)
    decreases |sorted|
  {
    var h, tail := sorted[0], sorted[1..];
    if k == 0 {
      StandsBetween(lines[from..h.start - 1], h.lines, Interleaved(lines, h.end, tail));
    } else {
      var later := sorted[k].start - 1 + Shift(tail, k - 1) - h.end;
      InterleavedAt(lines, h.end, tail, k - 1, later);
      InterleavedLater(lines, from, sorted, sorted[k].lines, later);
      ShiftFromHead(sorted, k);
    }
  }

  lemma {:induction false} InterleavedLength(lines: seq<string>, from: nat, sorted: seq<Hunk>)
    requires Laid(sorted, from, |lines|)
    ensures |Interleaved(lines, from, sorted)| == |lines| - from + Shift(sorted, |sorted|)
    decreases |sorted|
  {
    if sorted != [] {
      InterleavedLength(lines, sorted[0].end, sorted[1..]);
      ShiftFromHead(sorted, |sorted|);
    }
  }

  /** What the hunks that start before a line add to the file, in whatever order they are listed. */
  function DeltaBefore(hunks: seq<Hunk>, line: nat): int {
    if hunks == [] then 0
    else (if hunks[0].start < line then Delta(hunks[0]) else 0) + DeltaBefore(hunks[1..], line)
  }

  lemma {:induction false} DeltaBeforeInsert(h: Hunk, hunks: seq<Hunk>, line: nat)
    ensures DeltaBefore(InsertByKey(h, hunks, Start), line) == DeltaBefore([h] + hunks, line)
    decreases |hunks|
  {
    if hunks != [] && Start(h) > Start(hunks[0]) {
      DeltaBeforeInsert(h, hunks[1..], line);
      assert ([h] + hunks)[1..] == hunks && ([h] + hunks[1..])[1..] == hunks[1..];
    }
  }

  lemma {:induction false} DeltaBeforeInOrder(hunks: seq<Hunk>, line: nat)
    ensures DeltaBefore(InOrder(hunks), line) == DeltaBefore(hunks, line)
    decreases |hunks|
  {
    if hunks != [] {
      DeltaBeforeInOrder(hunks[1..], line);
      DeltaBeforeInsert(hunks[0], InOrder(hunks[1..]), line);
      assert ([hunks[0]] + InOrder(hunks[1..]))[1..] == InOrder(hunks[1..]);
    }
  }

  lemma {:induction false} NothingBefore(sorted: seq<Hunk>, line: nat)
    requires forall k :: 0 <= k < |sorted| ==> sorted[k].start >= line
    ensures DeltaBefore(sorted, line) == 0
  {
    if sorted != [] { NothingBefore(sorted[1..], line); }
  }

  /** In file order the running delta is just that. */
  lemma {:induction false} ShiftIs(sorted: seq<Hunk>, k: nat)
    requires Strictly(sorted, Start) && k < |sorted|
    ensures Shift(sorted, k) == DeltaBefore(sorted, sorted[k].start)
    decreases |sorted|
  {
    if k == 0 {
      assert forall j :: 0 <= j < |sorted| ==> Start(sorted[j]) >= Start(sorted[0]);
      NothingBefore(sorted, sorted[0].start);
    } else {
      ShiftFromHead(sorted, k);
      ShiftIs(sorted[1..], k - 1);
      assert Start(sorted[0]) < Start(sorted[k]);
    }
  }

  /** The `k`-th replacement stands at its start line plus the running delta. */
  predicate Reported(updated: seq<string>, hunks: seq<Hunk>, k: nat)
    requires k < |hunks|
  {
    StandsAt(hunks[k].lines, updated, hunks[k].start - 1 + DeltaBefore(hunks, hunks[k].start))
  }

  lemma SortedReported(lines: seq<string>, sorted: seq<Hunk>, k: nat)
    requires Laid(sorted, 0, |lines|) && Strictly(sorted, Start) && k < |sorted|
    ensures Reported(Interleaved(lines, 0, sorted), sorted, k)
  {
    ShiftIs(sorted, k);
    InterleavedAt(lines, 0, sorted, k, sorted[k].start - 1 + Shift(sorted, k));
  }

  lemma AllReported(lines: seq<string>, hunks: seq<Hunk>, sorted: seq<Hunk>)
    requires sorted == InOrder(hunks) && Laid(sorted, 0, |lines|) && Strictly(sorted, Start)
    ensures forall k :: 0 <= k < |hunks| ==> Reported(Interleaved(lines, 0, sorted), hunks, k)
  {
    SortKeepsMembers(hunks, Start);
    forall k | 0 <= k < |hunks| ensures Reported(Interleaved(lines, 0, sorted), hunks, k) {
      assert hunks[k] in sorted;
      var j :| 0 <= j < |sorted| && sorted[j] == hunks[k];
      SortedReported(lines, sorted, j);
      DeltaBeforeInOrder(hunks, hunks[k].start);
    }
  }

  /** Each replacement is where the location map says, and the file grows by the sum of the deltas. */
  lemma ReplacementsAreWhereReported(lines: seq<string>, hunks: seq<Hunk>)
    requires forall k :: 0 <= k < |hunks| ==> InFile(hunks[k], |lines|)
    requires NextApart(InOrder(hunks))
    ensures |Updated(lines, hunks)| == |lines| + Shift(InOrder(hunks), |hunks|)
    ensures forall k :: 0 <= k < |hunks| ==> Reported(Updated(lines, hunks), hunks, k)
  {
    SortedHunks(hunks, |lines|);
    UpdateIsASubstitution(lines, hunks);
    InterleavedLength(lines, 0, InOrder(hunks));
    AllReported(lines, hunks, InOrder(hunks));
  }

  // ----- how many bytes

  /** The lines a hunk replaces. */
  function Selected(lines: seq<string>, h: Hunk): seq<string> {
    if InFile(h, |lines|) then lines[h.start - 1..h.end] else []
  }

  /** What one hunk adds to the file's size. */
  function Growth(lines: seq<string>, h: Hunk): int { LinesBytes(h.lines) - LinesBytes(Selected(lines, h)) }

  function TotalGrowth(lines: seq<string>, hunks: seq<Hunk>): int {
    if hunks == [] then 0 else Growth(lines, hunks[0]) + TotalGrowth(lines, hunks[1..])
  }

  lemma {:induction false} GrowthInsert(lines: seq<string>, h: Hunk, hunks: seq<Hunk>)
    ensures TotalGrowth(lines, InsertByKey(h, hunks, Start)) == Growth(lines, h) + TotalGrowth(lines, hunks)
    decreases |hunks|
  {
    if hunks == [] || Start(h) <= Start(hunks[0]) {
      assert ([h] + hunks)[1..] == hunks;
    } else {
      GrowthInsert(lines, h, hunks[1..]);
      assert InsertByKey(h, hunks, Start)[1..] == InsertByKey(h, hunks[1..], Start);
    }
  }

  lemma {:induction false} GrowthInOrder(lines: seq<string>, hunks: seq<Hunk>)
    ensures TotalGrowth(lines, InOrder(hunks)) == TotalGrowth(lines, hunks)
    decreases |hunks|
  {
    if hunks != [] {
      GrowthInOrder(lines, hunks[1..]);
      GrowthInsert(lines, hunks[0], InOrder(hunks[1..]));
    }
  }

  lemma CutTwice<T>(lines: seq<T>, from: nat, start: nat, end: nat)
    requires from < start <= end <= |lines|
    ensures lines[from..] == lines[from..start - 1] + lines[start - 1..end] + lines[end..]
  {
  }

  /** Replacing a part changes the size by the difference, whatever happens behind it. */
  lemma ReplacedPartBytes(gap: seq<string>, was: seq<string>, after: seq<string>, part: seq<string>, rest: seq<string>)
    ensures LinesBytes(gap + part + rest) - LinesBytes(gap + was + after)
      == LinesBytes(part) - LinesBytes(was) + LinesBytes(rest) - LinesBytes(after)
  {
    LinesBytesConcat(gap + part, rest);
    LinesBytesConcat(gap, part);
    LinesBytesConcat(gap + was, after);
    LinesBytesConcat(gap, was);
  }

  lemma OneMoreHunkBytes(lines: seq<string>, from: nat, h: Hunk, rest: seq<string>, growth: int)
    requires from < h.start <= h.end <= |lines|
    requires LinesBytes(rest) == LinesBytes(lines[h.end..]) + growth
    ensures LinesBytes(lines[from..h.start - 1] + h.lines + rest) == LinesBytes(lines[from..]) + (Growth(lines, h) + growth)
  {
    CutTwice(lines, from, h.start, h.end);
    ReplacedPartBytes(lines[from..h.start - 1], lines[h.start - 1..h.end], lines[h.end..], h.lines, rest);
  }

  lemma {:induction false} InterleavedBytes(lines: seq<string>, from: nat, sorted: seq<Hunk>)
    requires Laid(sorted, from, |lines|)
    ensures LinesBytes(Interleaved(lines, from, sorted)) == LinesBytes(lines[from..]) + TotalGrowth(lines, sorted)
    decreases |sorted|
  {
    if sorted != [] {
      var h, tail := sorted[0], sorted[1..];
      InterleavedBytes(lines, h.end, tail);
      OneMoreHunkBytes(lines, from, h, Interleaved(lines, h.end, tail), TotalGrowth(lines, tail));
    }
  }

  function SizeAfter(lines: seq<string>, hunks: seq<Hunk>): int { TextBytes(Join(lines)) + TotalGrowth(lines, hunks) }

  /** The size of the edited file: the old size and what each hunk adds. */
  lemma UpdatedBytes(lines: seq<string>, hunks: seq<Hunk>)
    requires forall k :: 0 <= k < |hunks| ==> InFile(hunks[k], |lines|)
    requires NextApart(InOrder(hunks))
    ensures TextBytes(Join(Updated(lines, hunks))) == SizeAfter(lines, hunks)
  {
    UpdateIsASubstitution(lines, hunks);
    GrowthInOrder(lines, hunks);
    InterleavedBytes(lines, 0, InOrder(hunks));
    assert lines[0..] == lines;
    JoinedBytes(Updated(lines, hunks));
    JoinedBytes(lines);
  }
}
