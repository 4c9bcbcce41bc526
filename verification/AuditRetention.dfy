/** Trimming the audit log to its byte budget without splitting the records of one call. */
module AuditRetention {
  import opened Common
  import opened AuditLog

  type Unit = seq<nat>

  // ----- retention units

  /** Units under construction: lists of line positions, and the unit of each call id. */
  datatype Grouping = Grouping(units: seq<Unit>, unitOf: map<string, nat>)

  function AddLine(g: Grouping, i: nat, line: Line): Grouping {
    if line.call == "" then g.(units := g.units + [[i]])
    else if line.call in g.unitOf && g.unitOf[line.call] < |g.units| then
      var u := g.unitOf[line.call];
      g.(units := g.units[u := g.units[u] + [i]])
    else Grouping(g.units + [[i]], g.unitOf[line.call := |g.units|])
  }

  function Group(lines: seq<Line>): Grouping {
    if lines == [] then Grouping([], map[])
    else AddLine(Group(lines[..|lines| - 1]), |lines| - 1, lines[|lines| - 1])
  }

  function LastPosition(u: Unit): int { if u == [] then -1 else u[|u| - 1] }

  /** `_retention_units`: grouped lines ordered by their latest line. */
  function RetentionUnits(lines: seq<Line>): seq<Unit> {
    SortByKey(Group(lines).units, LastPosition)
  }

  /** The unit each line went to. */
  function Home(lines: seq<Line>): seq<nat> {
    if lines == [] then []
    else
      var before, line := lines[..|lines| - 1], lines[|lines| - 1];
      var g := Group(before);
      Home(before) + [if line.call != "" && line.call in g.unitOf && g.unitOf[line.call] < |g.units|
                      then g.unitOf[line.call] else |g.units|]
  }

  ghost predicate SameUnit(lines: seq<Line>, i: nat, j: nat)
    requires i < |lines| && j < |lines|
  {
    i == j || lines[i].call == lines[j].call != ""
  }

  /** The units are the lists of positions with the same home. */
  ghost predicate HomesListed(units: seq<Unit>, home: seq<nat>) {
    && (forall i :: 0 <= i < |home| ==> home[i] < |units|)
    && (forall k: nat, i: nat {:trigger i in units[k]} {:trigger home[i], units[k]} ::
        k < |units| ==> (i in units[k] <==> i < |home| && home[i] == k))
    && (forall k :: 0 <= k < |units| ==> units[k] != [] && Distinct(units[k]))
  }

  ghost predicate SameHomes(home: seq<nat>, lines: seq<Line>) {
    && |home| == |lines|
    && (forall i, j :: 0 <= i < |lines| && 0 <= j < |lines| ==> (home[i] == home[j] <==> SameUnit(lines, i, j)))
  }

  ghost predicate CallsIndexed(unitOf: map<string, nat>, home: seq<nat>, lines: seq<Line>) {
    && |home| == |lines|
    && (forall i :: 0 <= i < |lines| && lines[i].call != "" ==> lines[i].call in unitOf && unitOf[lines[i].call] == home[i])
    && (forall c :: c in unitOf ==> c != "" && Occurs(c, lines))
  }

  ghost predicate Occurs(c: string, lines: seq<Line>) {
    exists i :: 0 <= i < |lines| && lines[i].call == c
  }

  ghost predicate GroupingOk(g: Grouping, home: seq<nat>, lines: seq<Line>) {
    HomesListed(g.units, home) && SameHomes(home, lines) && CallsIndexed(g.unitOf, home, lines)
  }

  lemma HomesExtended(units: seq<Unit>, home: seq<nat>, at: nat)
    requires HomesListed(units, home) && at <= |units|
    ensures HomesListed(if at < |units| then units[at := units[at] + [|home|]] else units + [[|home|]], home + [at])
  {
    var units' := if at < |units| then units[at := units[at] + [|home|]] else units + [[|home|]];
    if at < |units| {
      assert |home| !in units[at];
      DistinctConcat(units[at], [|home|]);
    }
    forall k: nat, i: nat | k < |units'|
      ensures i in units'[k] <==> i < |home| + 1 && (home + [at])[i] == k
    {
      if k < |units| {
        assert i in units[k] <==> i < |home| && home[i] == k;
      }
    }
  }

  lemma SameHomesExtended(units: seq<Unit>, home: seq<nat>, lines: seq<Line>, unitOf: map<string, nat>, line: Line, at: nat)
    requires HomesListed(units, home) && SameHomes(home, lines) && CallsIndexed(unitOf, home, lines)
    requires at == if line.call != "" && line.call in unitOf then unitOf[line.call] else |units|
    ensures at <= |units| && SameHomes(home + [at], lines + [line])
  {
    var n := |lines|;
    var all := lines + [line];
    forall i | 0 <= i < n ensures home[i] == at <==> SameUnit(all, i, n) {
      if line.call != "" && line.call in unitOf {
        assert Occurs(line.call, lines);
        var k :| 0 <= k < n && lines[k].call == line.call;
        assert at == home[k];
        assert home[i] == home[k] <==> SameUnit(lines, i, k);
      }
    }
    if line.call != "" && line.call in unitOf {
      assert Occurs(line.call, lines);
      var k :| 0 <= k < n && lines[k].call == line.call;
      assert at == home[k];
    }
    forall i, j | 0 <= i < n && 0 <= j < n ensures home[i] == home[j] <==> SameUnit(all, i, j) {
      assert home[i] == home[j] <==> SameUnit(lines, i, j);
    }
  }

  lemma LineAdded(g: Grouping, home: seq<nat>, lines: seq<Line>, line: Line)
    requires GroupingOk(g, home, lines)
    ensures var h := if line.call != "" && line.call in g.unitOf && g.unitOf[line.call] < |g.units|
                     then g.unitOf[line.call] else |g.units|;
      GroupingOk(AddLine(g, |lines|, line), home + [h], lines + [line])
  {
    var n := |lines|;
    var all := lines + [line];
    var g' := AddLine(g, n, line);
    var at := if line.call != "" && line.call in g.unitOf then g.unitOf[line.call] else |g.units|;
    SameHomesExtended(g.units, home, lines, g.unitOf, line, at);
    if line.call in g.unitOf {
      assert Occurs(line.call, lines);
      var k :| 0 <= k < n && lines[k].call == line.call;
      assert at == home[k] < |g.units|;
    }
    HomesExtended(g.units, home, at);
    forall c | c in g'.unitOf ensures c != "" && Occurs(c, all) {
      if c in g.unitOf {
        assert Occurs(c, lines);
        var i :| 0 <= i < n && lines[i].call == c;
        assert all[i].call == c;
      } else {
        assert all[n].call == c;
      }
    }
  }

  lemma {:induction false} GroupIsOk(lines: seq<Line>)
    ensures GroupingOk(Group(lines), Home(lines), lines)
    decreases |lines|
  {
    if lines != [] {
      var n := |lines| - 1;
      GroupIsOk(lines[..n]);
      LineAdded(Group(lines[..n]), Home(lines[..n]), lines[..n], lines[n]);
      assert lines == lines[..n] + [lines[n]];
    }
  }

  /** A list of units: every line has one, no line has two, and two lines share one exactly when they
      belong to the same call. */
  ghost predicate Partition(units: seq<Unit>, lines: seq<Line>) {
    && Distinct(units)
    && (forall u, i :: u in units && i in u ==> i < |lines|)
    && (forall u :: u in units ==> u != [] && Distinct(u))
    && (forall u, v, i :: u in units && v in units && i in u && i in v ==> u == v)
    && (forall u, i, j: nat :: u in units && i in u && i < |lines| && j < |lines| ==> (j in u <==> SameUnit(lines, i, j)))
    && (forall i :: 0 <= i < |lines| ==> Covered(units, i))
  }

  ghost predicate Covered(units: seq<Unit>, i: nat) {
    exists u :: u in units && i in u
  }

  lemma ListedUnitsPartition(units: seq<Unit>, home: seq<nat>, lines: seq<Line>)
    requires HomesListed(units, home) && SameHomes(home, lines)
    ensures Partition(units, lines)
  {
    forall k, l | 0 <= k < l < |units| ensures units[k] != units[l] {
      assert units[k][0] in units[k] && units[k][0] !in units[l];
    }
    forall u, i | u in units && i in u ensures i < |lines| && u == units[home[i]] {
      var k :| 0 <= k < |units| && units[k] == u;
      assert i in units[k] <==> i < |home| && home[i] == k;
    }
    forall u, i, j: nat | u in units && i in u && i < |lines| && j < |lines| ensures j in u <==> SameUnit(lines, i, j) {
      assert u == units[home[i]];
      assert j in units[home[i]] <==> j < |home| && home[j] == home[i];
    }
    forall i | 0 <= i < |lines| ensures Covered(units, i) {
      assert units[home[i]] in units && i in units[home[i]];
    }
  }

  lemma PartitionRearranged(units: seq<Unit>, sorted: seq<Unit>, lines: seq<Line>)
    requires Partition(units, lines) && Distinct(sorted)
    requires forall u :: u in sorted <==> u in units
    ensures Partition(sorted, lines)
  {
    forall i | 0 <= i < |lines| ensures Covered(sorted, i) {
      assert Covered(units, i);
      var u :| u in units && i in u;
      assert u in sorted;
    }
  }

  lemma UnitsAreAPartition(lines: seq<Line>)
    ensures Partition(RetentionUnits(lines), lines)
    ensures AscendingBy(RetentionUnits(lines), LastPosition)
  {
    GroupIsOk(lines);
    var units := Group(lines).units;
    ListedUnitsPartition(units, Home(lines), lines);
    SortKeepsElements(units, LastPosition);
    SortKeepsMembers(units, LastPosition);
    SortIsAscending(units, LastPosition);
    DistinctRearranged(units, RetentionUnits(lines));
    PartitionRearranged(units, RetentionUnits(lines), lines);
  }

  // ----- trimming

  function UnitBytes(u: Unit, lines: seq<Line>): nat {
    if u == [] then 0
    else UnitBytes(u[..|u| - 1], lines) + (if u[|u| - 1] < |lines| then lines[u[|u| - 1]].size else 0)
  }

  function Total(lines: seq<Line>): nat {
    if lines == [] then 0 else Total(lines[..|lines| - 1]) + lines[|lines| - 1].size
  }

  function Flatten(units: seq<Unit>): seq<nat> {
    if units == [] then [] else Flatten(units[..|units| - 1]) + units[|units| - 1]
  }

  function Target(maxBytes: nat): nat { Max(1, maxBytes / 2) }

  /** Walk the first `n` units from the newest down; `chosen` lists the picked units oldest first. */
  function Take(units: seq<Unit>, n: nat, lines: seq<Line>, maxBytes: nat, chosen: seq<Unit>, bytes: nat): seq<Unit>
    requires n <= |units|
  {
    if n == 0 then chosen
    else
      var size := UnitBytes(units[n - 1], lines);
      if size > maxBytes then Take(units, n - 1, lines, maxBytes, chosen, bytes)
      else if chosen != [] && bytes + size > Target(maxBytes) then chosen
      else if bytes + size >= Target(maxBytes) then [units[n - 1]] + chosen
      else Take(units, n - 1, lines, maxBytes, [units[n - 1]] + chosen, bytes + size)
  }

  function Chosen(lines: seq<Line>, maxBytes: nat): seq<Unit> {
    var units := RetentionUnits(lines);
    Take(units, |units|, lines, maxBytes, [], 0)
  }

  /** The retention units that fit the limit on their own. */
  function Fitters(lines: seq<Line>, maxBytes: nat): seq<Unit> {
    Fitting(RetentionUnits(lines), |RetentionUnits(lines)|, lines, maxBytes)
  }

  function Position(i: nat): int { i }

  /** The positions of some units, in log order. */
  function PositionsIn(units: seq<Unit>): seq<nat> {
    SortByKey(Flatten(units), Position)
  }

  function KeptPositions(lines: seq<Line>, maxBytes: nat): seq<nat> {
    PositionsIn(Chosen(lines, maxBytes))
  }

  function LinesAt(lines: seq<Line>, kept: seq<nat>): (r: seq<Line>)
    requires InRange(kept, lines)
    ensures |r| == |kept|
    ensures forall k :: 0 <= k < |kept| ==> kept[k] < |lines| && r[k] == lines[kept[k]]
  {
    if kept == [] then []
    else
      LinesAt(lines, kept[..|kept| - 1]) + [lines[kept[|kept| - 1]]]
  }

  /** Of the first `n` units, those that fit the limit on their own, in order. */
  function Fitting(units: seq<Unit>, n: nat, lines: seq<Line>, maxBytes: nat): seq<Unit>
    requires n <= |units|
  {
    if n == 0 then []
    else Fitting(units, n - 1, lines, maxBytes) + (if UnitBytes(units[n - 1], lines) <= maxBytes then [units[n - 1]] else [])
  }

  function UnitsBytes(units: seq<Unit>, lines: seq<Line>): nat {
    if units == [] then 0 else UnitBytes(units[0], lines) + UnitsBytes(units[1..], lines)
  }

  lemma SuffixMoved(fits: seq<Unit>, u: Unit, chosen: seq<Unit>, k: nat)
    requires k <= |fits|
    ensures (fits + [u])[k..] + chosen == fits[k..] + ([u] + chosen)
    ensures k > 0 ==> (fits + [u])[k - 1] == fits[k - 1]
  {
  }

  lemma UnitsBytesPrepend(u: Unit, units: seq<Unit>, lines: seq<Line>)
    ensures UnitsBytes([u] + units, lines) == UnitBytes(u, lines) + UnitsBytes(units, lines)
  {
    assert ([u] + units)[1..] == units;
  }

  /** Units from `k` on, the newest ones, up to the target: the newest is there whatever its size; more than
      one stay within the target; without the oldest of them the target is not reached; and with the next
      older one it would be passed, unless it is reached already. */
  predicate NewestUpTo(fits: seq<Unit>, k: nat, lines: seq<Line>, target: nat)
    requires k <= |fits|
  {
    && (fits != [] ==> k < |fits|)
    && UpToTarget(fits, k, lines, target, [])
  }

  /** The same for a part of the units, when `chosen` has been picked behind them. */
  predicate UpToTarget(fits: seq<Unit>, k: nat, lines: seq<Line>, target: nat, chosen: seq<Unit>)
    requires k <= |fits|
  {
    var kept := fits[k..] + chosen;
    && (|kept| > 1 ==> UnitsBytes(kept, lines) <= target)
    && (kept != [] ==> UnitsBytes(kept, lines) - UnitBytes(kept[0], lines) < target)
    && (k > 0 ==> UnitsBytes(kept, lines) >= target || UnitBytes(fits[k - 1], lines) + UnitsBytes(kept, lines) > target)
  }

  /** `taken` is what the loop has picked in the end, `chosen` what it had picked before these units. */
  predicate Picked(taken: seq<Unit>, fits: seq<Unit>, k: nat, lines: seq<Line>, target: nat, chosen: seq<Unit>) {
    && k <= |fits| && taken == fits[k..] + chosen
    && (fits != [] && chosen == [] ==> k < |fits|)
    && UpToTarget(fits, k, lines, target, chosen)
  }

  /** The picked units are a suffix of the fitting ones, up to the target. */
  lemma {:induction false} TakeIsASuffix(units: seq<Unit>, n: nat, lines: seq<Line>, maxBytes: nat, chosen: seq<Unit>, bytes: nat)
    returns (k: nat)
    requires n <= |units| && bytes == UnitsBytes(chosen, lines)
    requires chosen != [] ==> bytes < Target(maxBytes)
    ensures Picked(Take(units, n, lines, maxBytes, chosen, bytes), Fitting(units, n, lines, maxBytes), k, lines,
                   Target(maxBytes), chosen)
    decreases n, 1
  {
    if n == 0 {
      k := 0;
      NothingLeft(chosen, lines, Target(maxBytes));
    } else if UnitBytes(units[n - 1], lines) > maxBytes {
      k := TakeIsASuffix(units, n - 1, lines, maxBytes, chosen, bytes);
      assert Fitting(units, n - 1, lines, maxBytes) + [] == Fitting(units, n - 1, lines, maxBytes);
    } else {
      k := TakeFitting(units, n, lines, maxBytes, chosen, bytes);
    }
  }

  lemma {:induction false} TakeFitting(units: seq<Unit>, n: nat, lines: seq<Line>, maxBytes: nat, chosen: seq<Unit>, bytes: nat)
    returns (k: nat)
    requires 0 < n <= |units| && bytes == UnitsBytes(chosen, lines) && UnitBytes(units[n - 1], lines) <= maxBytes
    requires chosen != [] ==> bytes < Target(maxBytes)
    ensures Picked(Take(units, n, lines, maxBytes, chosen, bytes), Fitting(units, n, lines, maxBytes), k, lines,
                   Target(maxBytes), chosen)
    decreases n, 0
  {
    var u := units[n - 1];
    var size := UnitBytes(u, lines);
    var fits := Fitting(units, n - 1, lines, maxBytes);
    if chosen != [] && bytes + size > Target(maxBytes) {
      k := |fits| + 1;
      StoppedBefore(fits, u, lines, Target(maxBytes), chosen);
    } else if bytes + size >= Target(maxBytes) {
      k := |fits|;
      StoppedAt(fits, u, lines, Target(maxBytes), chosen);
    } else {
      UnitsBytesPrepend(u, chosen, lines);
      k := TakeIsASuffix(units, n - 1, lines, maxBytes, [u] + chosen, bytes + size);
      WentOn(Take(units, n - 1, lines, maxBytes, [u] + chosen, bytes + size), fits, u, lines, Target(maxBytes), chosen, k);
    }
  }

  lemma NothingLeft(chosen: seq<Unit>, lines: seq<Line>, target: nat)
    requires chosen != [] ==> UnitsBytes(chosen, lines) < target
    ensures Picked(chosen, [], 0, lines, target, chosen)
  {
    assert [] + chosen == chosen;
  }

  lemma StoppedBefore(fits: seq<Unit>, u: Unit, lines: seq<Line>, target: nat, chosen: seq<Unit>)
    requires chosen != [] && UnitsBytes(chosen, lines) + UnitBytes(u, lines) > target
    requires UnitsBytes(chosen, lines) < target
    ensures Picked(chosen, fits + [u], |fits| + 1, lines, target, chosen)
  {
    assert (fits + [u])[|fits| + 1..] == [];
    assert [] + chosen == chosen;
  }

  lemma StoppedAt(fits: seq<Unit>, u: Unit, lines: seq<Line>, target: nat, chosen: seq<Unit>)
    requires target > 0 && UnitsBytes(chosen, lines) + UnitBytes(u, lines) >= target
    requires chosen != [] ==> UnitsBytes(chosen, lines) < target && UnitsBytes(chosen, lines) + UnitBytes(u, lines) <= target
    ensures Picked([u] + chosen, fits + [u], |fits|, lines, target, chosen)
  {
    assert (fits + [u])[|fits|..] == [u];
    UnitsBytesPrepend(u, chosen, lines);
  }

  lemma WentOn(taken: seq<Unit>, fits: seq<Unit>, u: Unit, lines: seq<Line>, target: nat, chosen: seq<Unit>, k: nat)
    requires Picked(taken, fits, k, lines, target, [u] + chosen)
    ensures Picked(taken, fits + [u], k, lines, target, chosen)
  {
    SuffixMoved(fits, u, chosen, k);
  }

  /** The picked units stay within the limit. */
  lemma {:induction false} TakeIsBounded(units: seq<Unit>, n: nat, lines: seq<Line>, maxBytes: nat, chosen: seq<Unit>, bytes: nat)
    requires n <= |units| && maxBytes > 0
    requires bytes == UnitsBytes(chosen, lines) && (chosen != [] ==> bytes <= Target(maxBytes))
    ensures UnitsBytes(Take(units, n, lines, maxBytes, chosen, bytes), lines) <= maxBytes
    decreases n
  {
    if n > 0 {
      var u := units[n - 1];
      var size := UnitBytes(u, lines);
      UnitsBytesPrepend(u, chosen, lines);
      if size > maxBytes {
        TakeIsBounded(units, n - 1, lines, maxBytes, chosen, bytes);
      } else if (chosen == [] || bytes + size <= Target(maxBytes)) && bytes + size < Target(maxBytes) {
        TakeIsBounded(units, n - 1, lines, maxBytes, [u] + chosen, bytes + size);
      }
    }
  }

  lemma {:induction false} FittingMembers(units: seq<Unit>, n: nat, lines: seq<Line>, maxBytes: nat)
    requires n <= |units|
    ensures forall u :: u in Fitting(units, n, lines, maxBytes) <==> u in units[..n] && UnitBytes(u, lines) <= maxBytes
    ensures Distinct(units) ==> Distinct(Fitting(units, n, lines, maxBytes))
    decreases n
  {
    if n > 0 {
      FittingMembers(units, n - 1, lines, maxBytes);
      assert units[..n] == units[..n - 1] + [units[n - 1]];
      assert Distinct(units) ==> units[n - 1] !in units[..n - 1];
    }
  }

  lemma {:induction false} FlattenMembers(units: seq<Unit>, lines: seq<Line>)
    requires Distinct(units)
    requires forall u, v, i :: u in units && v in units && i in u && i in v ==> u == v
    requires forall u :: u in units ==> Distinct(u)
    ensures forall i :: i in Flatten(units) <==> Covered(units, i)
    ensures Distinct(Flatten(units))
    ensures UnitBytes(Flatten(units), lines) == UnitsBytes(units, lines)
    decreases |units|
  {
    if units == [] {
      assert forall i: nat :: !Covered(units, i);
    } else {
      var n := |units| - 1;
      var before, last := units[..n], units[n];
      assert units == before + [last];
      assert last !in before;
      FlattenMembers(before, lines);
      BytesConcat(Flatten(before), last, lines);
      UnitsBytesAppend(before, last, lines);
      forall i: nat ensures i in Flatten(units) <==> Covered(units, i) {
        if Covered(before, i) {
          var u :| u in before && i in u;
          assert u in units;
        }
        if i in last { assert last in units; }
      }
      forall i | i in Flatten(before) ensures i !in last {
        assert Covered(before, i);
        var u :| u in before && i in u;
        assert u in units && last in units;
      }
      assert Distinct(last) by { assert last in units; }
      DistinctConcat(Flatten(before), last);
    }
  }

  lemma {:induction false} BytesConcat(a: seq<nat>, b: seq<nat>, lines: seq<Line>)
    ensures UnitBytes(a + b, lines) == UnitBytes(a, lines) + UnitBytes(b, lines)
    decreases |b|
  {
    if b == [] {
      assert a + b == a;
    } else {
      var n := |b| - 1;
      BytesConcat(a, b[..n], lines);
      assert (a + b)[..|a| + n] == a + b[..n];
    }
  }

  lemma {:induction false} UnitsBytesAppend(units: seq<Unit>, u: Unit, lines: seq<Line>)
    ensures UnitsBytes(units + [u], lines) == UnitsBytes(units, lines) + UnitBytes(u, lines)
    decreases |units|
  {
    if units == [] {
      assert [u][1..] == [];
    } else {
      UnitsBytesAppend(units[1..], u, lines);
      assert (units + [u])[1..] == units[1..] + [u];
    }
  }

  lemma {:induction false} BytesInsert(x: nat, s: seq<nat>, key: nat -> int, lines: seq<Line>)
    ensures UnitBytes(InsertByKey(x, s, key), lines) == UnitBytes([x], lines) + UnitBytes(s, lines)
    decreases |s|
  {
    if s == [] {
    } else if key(x) <= key(s[0]) {
      BytesConcat([x], s, lines);
    } else {
      BytesInsert(x, s[1..], key, lines);
      BytesConcat([s[0]], InsertByKey(x, s[1..], key), lines);
      BytesConcat([s[0]], s[1..], lines);
      assert s == [s[0]] + s[1..];
    }
  }

  lemma {:induction false} BytesSort(s: seq<nat>, key: nat -> int, lines: seq<Line>)
    ensures UnitBytes(SortByKey(s, key), lines) == UnitBytes(s, lines)
    decreases |s|
  {
    if s != [] {
      BytesSort(s[1..], key, lines);
      BytesInsert(s[0], SortByKey(s[1..], key), key, lines);
      BytesConcat([s[0]], s[1..], lines);
      assert s == [s[0]] + s[1..];
    }
  }

  lemma {:induction false} TotalAt(lines: seq<Line>, kept: seq<nat>)
    requires InRange(kept, lines)
    ensures Total(LinesAt(lines, kept)) == UnitBytes(kept, lines)
    decreases |kept|
  {
    if kept != [] {
      var n := |kept| - 1;
      TotalAt(lines, kept[..n]);
      assert LinesAt(lines, kept)[..n] == LinesAt(lines, kept[..n]);
    }
  }

  lemma ChosenIsASuffix(lines: seq<Line>, maxBytes: nat) returns (k: nat)
    requires maxBytes > 0
    ensures k <= |Fitters(lines, maxBytes)|
    ensures Chosen(lines, maxBytes) == Fitters(lines, maxBytes)[k..]
    ensures NewestUpTo(Fitters(lines, maxBytes), k, lines, Target(maxBytes))
    ensures UnitsBytes(Chosen(lines, maxBytes), lines) <= maxBytes
    ensures Distinct(Chosen(lines, maxBytes))
    ensures forall u :: u in Chosen(lines, maxBytes) ==> u in RetentionUnits(lines)
  {
    var units := RetentionUnits(lines);
    UnitsAreAPartition(lines);
    k := TakeIsASuffix(units, |units|, lines, maxBytes, [], 0);
    TakeIsBounded(units, |units|, lines, maxBytes, [], 0);
    assert units[..|units|] == units;
    var fits := Fitters(lines, maxBytes);
    FittingMembers(units, |units|, lines, maxBytes);
    assert Chosen(lines, maxBytes) == fits[k..] + [] == fits[k..];
    forall u | u in Chosen(lines, maxBytes) ensures u in units { assert u in fits; }
  }

  ghost predicate Ascending(s: seq<nat>) {
    forall a, b :: 0 <= a < b < |s| ==> s[a] < s[b]
  }

  predicate InRange(s: seq<nat>, lines: seq<Line>) {
    forall k :: 0 <= k < |s| ==> s[k] < |lines|
  }

  /** Exactly the positions the units cover. */
  ghost predicate PositionsOf(s: seq<nat>, units: seq<Unit>) {
    forall i :: i in s <==> Covered(units, i)
  }

  /** All or none of the lines of one call. */
  ghost predicate PairClosed(s: seq<nat>, lines: seq<Line>) {
    forall i, j: nat :: i in s && i < |lines| && j < |lines| && SameUnit(lines, i, j) ==> j in s
  }

  /** The positions of some retention units exist, ascend, and hold whole calls. */
  lemma UnitPositions(units: seq<Unit>, lines: seq<Line>)
    requires Distinct(units) && forall u :: u in units ==> u in RetentionUnits(lines)
    ensures var kept := PositionsIn(units);
      && Ascending(kept) && InRange(kept, lines)
      && PositionsOf(kept, units) && PairClosed(kept, lines)
      && UnitBytes(kept, lines) == UnitsBytes(units, lines)
  {
    UnitsAreAPartition(lines);
    PositionsAscend(units, lines);
    PositionsAreClosed(units, RetentionUnits(lines), PositionsIn(units), lines);
  }

  lemma PositionsAscend(units: seq<Unit>, lines: seq<Line>)
    requires Distinct(units)
    requires forall u, v, i :: u in units && v in units && i in u && i in v ==> u == v
    requires forall u :: u in units ==> Distinct(u)
    ensures var kept := PositionsIn(units);
      Ascending(kept) && PositionsOf(kept, units) && UnitBytes(kept, lines) == UnitsBytes(units, lines)
  {
    FlattenMembers(units, lines);
    SortKeepsMembers(Flatten(units), Position);
    BytesSort(Flatten(units), Position, lines);
    SortedAscends(Flatten(units), PositionsIn(units));
  }

  lemma SortedAscends(s: seq<nat>, kept: seq<nat>)
    requires Distinct(s) && kept == SortByKey(s, Position)
    ensures Ascending(kept)
  {
    SortKeepsElements(s, Position);
    SortIsAscending(s, Position);
    DistinctRearranged(s, kept);
    forall a, b | 0 <= a < b < |kept| ensures kept[a] < kept[b] {
      assert Position(kept[a]) <= Position(kept[b]);
    }
  }

  lemma PositionsAreClosed(units: seq<Unit>, all: seq<Unit>, kept: seq<nat>, lines: seq<Line>)
    requires Partition(all, lines) && PositionsOf(kept, units)
    requires forall u :: u in units ==> u in all
    ensures InRange(kept, lines) && PairClosed(kept, lines)
  {
    forall k | 0 <= k < |kept| ensures kept[k] < |lines| {
      assert kept[k] in kept;
      assert Covered(units, kept[k]);
      var u :| u in units && kept[k] in u;
    }
    forall i, j: nat | i in kept && i < |lines| && j < |lines| && SameUnit(lines, i, j) ensures j in kept {
      assert Covered(units, i);
      var u :| u in units && i in u;
      assert u in all && j in u;
      assert Covered(units, j);
    }
  }

  /** A log's size is the sum of its lines' sizes. */
  lemma {:induction false} TotalIsTheSum(a: seq<Line>, b: seq<Line>, line: Line)
    ensures Total(a + b) == Total(a) + Total(b) && Total([]) == 0 && Total([line]) == line.size
    decreases |b|
  {
    assert [line][..0] == [];
    if b == [] {
      assert a + b == a;
    } else {
      TotalIsTheSum(a, b[..|b| - 1], line);
      assert (a + b)[..|a + b| - 1] == a + b[..|b| - 1];
    }
  }

  lemma FittersAre(lines: seq<Line>, maxBytes: nat)
    ensures forall u :: u in Fitters(lines, maxBytes) <==> u in RetentionUnits(lines) && UnitBytes(u, lines) <= maxBytes
  {
    var units := RetentionUnits(lines);
    FittingMembers(units, |units|, lines, maxBytes);
    assert units[..|units|] == units;
  }

  /** What the trimmed log is, for every log over its limit: it is within the limit; it keeps the old
      order; it keeps the lines of each call together; and the kept units are, of those that fit the limit
      alone, the newest up to half of it. */
  lemma TrimIsBoundedAndPairClosed(lines: seq<Line>, maxBytes: nat) returns (k: nat)
    requires maxBytes > 0
    ensures Ascending(KeptPositions(lines, maxBytes)) && InRange(KeptPositions(lines, maxBytes), lines)
    ensures Total(LinesAt(lines, KeptPositions(lines, maxBytes))) <= maxBytes
    ensures PairClosed(KeptPositions(lines, maxBytes), lines)
    ensures PositionsOf(KeptPositions(lines, maxBytes), Chosen(lines, maxBytes))
    ensures k <= |Fitters(lines, maxBytes)|
    ensures Chosen(lines, maxBytes) == Fitters(lines, maxBytes)[k..]
    ensures NewestUpTo(Fitters(lines, maxBytes), k, lines, if maxBytes < 2 then 1 else maxBytes / 2)
    ensures forall u :: u in Fitters(lines, maxBytes) <==> u in RetentionUnits(lines) && UnitBytes(u, lines) <= maxBytes
  {
    FittersAre(lines, maxBytes);
    k := ChosenIsASuffix(lines, maxBytes);
    UnitPositions(Chosen(lines, maxBytes), lines);
    TotalAt(lines, KeptPositions(lines, maxBytes));
  }

  lemma ChosenAreUnits(lines: seq<Line>, maxBytes: nat)
    requires maxBytes > 0
    ensures Distinct(Chosen(lines, maxBytes))
    ensures forall u :: u in Chosen(lines, maxBytes) ==> u in RetentionUnits(lines)
  {
    var _ := ChosenIsASuffix(lines, maxBytes);
  }

  function TrimmedLog(lines: seq<Line>, maxBytes: int): seq<Line> {
    if maxBytes <= 0 || Total(lines) <= maxBytes then lines
    else
      ChosenAreUnits(lines, maxBytes);
      UnitPositions(Chosen(lines, maxBytes), lines);
      LinesAt(lines, KeptPositions(lines, maxBytes))
  }

  // ----- the loops

  lemma GroupStep(lines: seq<Line>, i: nat)
    requires i < |lines|
    ensures Group(lines[..i + 1]) == AddLine(Group(lines[..i]), i, lines[i])
    ensures var g, call := Group(lines[..i]), lines[i].call;
      call != "" && call in g.unitOf ==> g.unitOf[call] < |g.units|
  {
    assert lines[..i + 1][..i] == lines[..i];
    GroupIsOk(lines[..i]);
    if lines[i].call != "" && lines[i].call in Group(lines[..i]).unitOf { assert Occurs(lines[i].call, lines[..i]); }
  }

  method GroupLines(lines: seq<Line>) returns (units: seq<Unit>)
    ensures units == RetentionUnits(lines)
  {
    units := [];
    var callUnits: map<string, nat> := map[];
    var index := 0;
    while index < |lines|
      invariant 0 <= index <= |lines|
      invariant Grouping(units, callUnits) == Group(lines[..index])
    {
      GroupStep(lines, index);
      var call := lines[index].call;
      if call != "" {
        if call !in callUnits {
          callUnits := callUnits[call := |units|];
          units := units + [[index]];
        } else {
          var at := callUnits[call];
          units := units[at := units[at] + [index]];
        }
      } else {
        units := units + [[index]];
      }
      index := index + 1;
    }
    assert lines[..index] == lines;
    units := SortByKey(units, LastPosition);
  }

  method EnforceLogLimit(lines: seq<Line>, maxBytes: int) returns (log: seq<Line>, changed: bool)
    ensures log == TrimmedLog(lines, maxBytes)
    ensures changed <==> maxBytes > 0 && Total(lines) > maxBytes
  {
    if maxBytes <= 0 || Total(lines) <= maxBytes { return lines, false; }
    var target := Max(1, maxBytes / 2);
    var units := GroupLines(lines);
    var selected: seq<Unit> := [];
    var selectedBytes: nat := 0;
    var n := |units|;
    while n > 0
      invariant 0 <= n <= |units|
      invariant Take(units, n, lines, maxBytes, selected, selectedBytes) == Chosen(lines, maxBytes)
    {
      var unit := units[n - 1];
      var unitBytes := UnitBytes(unit, lines);
      if unitBytes <= maxBytes {
        if selected != [] && selectedBytes + unitBytes > target { break; }
        selected := [unit] + selected;
        selectedBytes := selectedBytes + unitBytes;
        if selectedBytes >= target { break; }
      }
      n := n - 1;
    }
    assert selected == Chosen(lines, maxBytes);
    ChosenAreUnits(lines, maxBytes);
    UnitPositions(selected, lines);
    log := LinesAt(lines, PositionsIn(selected));
    changed := true;
  }
}
