/** The payload store's byte quota, and why meeting it never drops a payload still in use. */
module AuditPayloads {
  import opened Common
  import opened AuditLog
  import opened AuditRetention

  /** One entry of the payload directory. `digest` is its name without the suffix; it is proper when it is a
      regular file, not a link, and its name is a digest. */
  datatype PayloadFile = PayloadFile(digest: Digest, size: nat, mtime: int, proper: bool)

  datatype Settings = Settings(retention: int, quota: nat, logLimit: int)

  const SWEEP_INTERVAL := 60

  // ----- references in a value

  function Metadata(v: Json): seq<Ref> {
    match v
    case Reference(r) => [r]
    case Object(children) => AllMetadata(children)
    case List(items) => AllMetadata(items)
    case Scalar => []
  }

  function AllMetadata(vs: seq<Json>): seq<Ref> {
    if vs == [] then [] else Metadata(vs[0]) + AllMetadata(vs[1..])
  }

  function Digests(v: Json): set<Digest> {
    match v
    case Reference(r) => {r.digest}
    case Object(children) => AllDigests(children)
    case List(items) => AllDigests(items)
    case Scalar => {}
  }

  function AllDigests(vs: seq<Json>): set<Digest> {
    if vs == [] then {} else Digests(vs[0]) + AllDigests(vs[1..])
  }

  /** The two collectors agree: the digests are those of the metadata. */
  lemma {:induction false} CollectorsAgree(v: Json)
    ensures forall d :: d in Digests(v) <==> exists r :: r in Metadata(v) && r.digest == d
  {
    match v
    case Reference(r) => assert r in Metadata(v);
    case Object(children) => AllCollectorsAgree(children);
    case List(items) => AllCollectorsAgree(items);
    case Scalar =>
  }

  lemma {:induction false} AllCollectorsAgree(vs: seq<Json>)
    ensures forall d :: d in AllDigests(vs) <==> exists r :: r in AllMetadata(vs) && r.digest == d
  {
    if vs != [] {
      CollectorsAgree(vs[0]);
      AllCollectorsAgree(vs[1..]);
      forall d ensures d in AllDigests(vs) <==> exists r :: r in AllMetadata(vs) && r.digest == d {
        if d in Digests(vs[0]) {
          var r :| r in Metadata(vs[0]) && r.digest == d;
          assert r in AllMetadata(vs);
        } else if d in AllDigests(vs[1..]) {
          var r :| r in AllMetadata(vs[1..]) && r.digest == d;
          assert r in AllMetadata(vs);
        }
      }
    }
  }

  // ----- references in the log

  function LineDigests(l: Line): set<Digest> {
    if l.value.Some? then Digests(l.value.value) else {}
  }

  function UnitDigests(unit: Unit, lines: seq<Line>): set<Digest> {
    if unit == [] then {}
    else (if unit[0] < |lines| then LineDigests(lines[unit[0]]) else {}) + UnitDigests(unit[1..], lines)
  }

  function Referenced(units: seq<Unit>, lines: seq<Line>): set<Digest> {
    if units == [] then {} else UnitDigests(units[0], lines) + Referenced(units[1..], lines)
  }

  /** Log records are the lines that decode to an object. */
  predicate IsRecord(l: Line) { l.value.Some? && (l.value.value.Reference? || l.value.value.Object?) }

  function LineRefs(l: Line): seq<Ref> {
    if IsRecord(l) then Metadata(l.value.value) else []
  }

  function RecordRefs(lines: seq<Line>): seq<Ref> {
    if lines == [] then [] else LineRefs(lines[0]) + RecordRefs(lines[1..])
  }

  predicate Unexpired(r: Ref, now: int, retention: int) {
    r.createdAt.Some? && retention > 0 && Max(0, now - r.createdAt.value) <= retention
  }

  /** `_record_payload_activity`: digests the records mention, and those with an unexpired mention. */
  function Mentioned(refs: seq<Ref>): set<Digest> { set r | r in refs :: r.digest }

  function Active(refs: seq<Ref>, now: int, retention: int): set<Digest> {
    set r | r in refs && Unexpired(r, now, retention) :: r.digest
  }

  // ----- sizes

  function Bytes(files: seq<PayloadFile>): nat {
    if files == [] then 0 else files[0].size + Bytes(files[1..])
  }

  /** The stored size of a set of digests: each proper file counts when its digest is in the set. */
  function BytesIn(files: seq<PayloadFile>, digests: set<Digest>): nat {
    if files == [] then 0
    else (if files[0].proper && files[0].digest in digests then files[0].size else 0) + BytesIn(files[1..], digests)
  }

  /** Drop oldest units until what the rest references fits the quota. */
  function FittingUnits(units: seq<Unit>, lines: seq<Line>, files: seq<PayloadFile>, quota: nat): seq<Unit> {
    if units != [] && BytesIn(files, Referenced(units, lines)) > quota
    then FittingUnits(units[1..], lines, files, quota)
    else units
  }

  /** The log after the unit loop: rewritten, in its old order, only when a unit went. */
  function SweptPositions(lines: seq<Line>, files: seq<PayloadFile>, quota: nat): seq<nat> {
    PositionsIn(FittingUnits(RetentionUnits(lines), lines, files, quota))
  }

  function SweptLog(lines: seq<Line>, files: seq<PayloadFile>, quota: nat): seq<Line> {
    var kept := FittingUnits(RetentionUnits(lines), lines, files, quota);
    if |kept| == |RetentionUnits(lines)| then lines
    else
      SweptPositionsOk(lines, files, quota);
      LinesAt(lines, SweptPositions(lines, files, quota))
  }

  // ----- pruning

  predicate Survives(f: PayloadFile, referenced: set<Digest>, active: set<Digest>, now: int, retention: int) {
    if !f.proper then false
    else if f.digest in referenced then f.digest in active
    else retention != 0 && Max(0, now - f.mtime) <= retention
  }

  function Candidates(files: seq<PayloadFile>, referenced: set<Digest>, active: set<Digest>, now: int, retention: int)
    : (r: seq<PayloadFile>)
    ensures forall f :: f in r <==> f in files && Survives(f, referenced, active, now, retention)
  {
    if files == [] then []
    else
      var rest := Candidates(files[1..], referenced, active, now, retention);
      if Survives(files[0], referenced, active, now, retention) then [files[0]] + rest else rest
  }

  function Mtime(f: PayloadFile): int { f.mtime }

  /** Eviction order: inactive before active, then oldest first. The pair is sorted by its second part
      and then, stably, by its first. */
  function EvictionOrder(candidates: seq<PayloadFile>, active: set<Digest>): seq<PayloadFile> {
    SortByKey(SortByKey(candidates, Mtime), (f: PayloadFile) => if f.digest in active then 1 else 0)
  }

  function Evict(order: seq<PayloadFile>, total: int, quota: nat): seq<PayloadFile> {
    if order == [] || total <= quota then order else Evict(order[1..], total - order[0].size, quota)
  }

  /** `prune_payload_files`, when every unlink succeeds: what is left. */
  function Remaining(files: seq<PayloadFile>, referenced: set<Digest>, active: set<Digest>, now: int, s: Settings)
    : seq<PayloadFile>
  {
    var candidates := Candidates(files, referenced, active, now, s.retention);
    if Bytes(candidates) <= s.quota then candidates
    else Evict(EvictionOrder(candidates, active), Bytes(candidates), s.quota)
  }

  // ----- sums

  lemma {:induction false} BytesInMonotone(files: seq<PayloadFile>, a: set<Digest>, b: set<Digest>)
    requires a <= b
    ensures BytesIn(files, a) <= BytesIn(files, b)
  {
    if files != [] { BytesInMonotone(files[1..], a, b); }
  }

  lemma {:induction false} CandidateBytes(files: seq<PayloadFile>, referenced: set<Digest>, active: set<Digest>, now: int, retention: int)
    ensures BytesIn(Candidates(files, referenced, active, now, retention), active) <= BytesIn(files, active)
  {
    if files != [] {
      CandidateBytes(files[1..], referenced, active, now, retention);
      var rest := Candidates(files[1..], referenced, active, now, retention);
      if Survives(files[0], referenced, active, now, retention) {
        assert ([files[0]] + rest)[1..] == rest;
      }
    }
  }

  lemma {:induction false} InsertBytes(x: PayloadFile, s: seq<PayloadFile>, key: PayloadFile -> int, d: set<Digest>)
    ensures Bytes(InsertByKey(x, s, key)) == x.size + Bytes(s)
    ensures BytesIn(InsertByKey(x, s, key), d) == (if x.proper && x.digest in d then x.size else 0) + BytesIn(s, d)
    decreases |s|
  {
    if s != [] && key(x) > key(s[0]) {
      InsertBytes(x, s[1..], key, d);
      assert InsertByKey(x, s, key)[1..] == InsertByKey(x, s[1..], key);
    } else {
      assert InsertByKey(x, s, key)[1..] == s;
    }
  }

  lemma {:induction false} SortBytes(s: seq<PayloadFile>, key: PayloadFile -> int, d: set<Digest>)
    ensures Bytes(SortByKey(s, key)) == Bytes(s) && BytesIn(SortByKey(s, key), d) == BytesIn(s, d)
    decreases |s|
  {
    if s != [] {
      SortBytes(s[1..], key, d);
      InsertBytes(s[0], SortByKey(s[1..], key), key, d);
    }
  }

  /** In a list of inactive files followed by active ones, the active part weighs what is active. */
  lemma {:induction false} ActiveTailBytes(order: seq<PayloadFile>, active: set<Digest>) returns (j: nat)
    requires forall a, b :: 0 <= a < b < |order| && order[a].digest in active ==> order[b].digest in active
    requires forall k :: 0 <= k < |order| ==> order[k].proper
    ensures j <= |order|
    ensures forall k :: 0 <= k < |order| ==> (order[k].digest in active <==> j <= k)
    ensures Bytes(order[j..]) == BytesIn(order, active)
  {
    if order == [] {
      j := 0;
    } else if order[0].digest in active {
      j := 0;
      assert order[0..] == order;
      AllActiveBytes(order, active);
    } else {
      var i := ActiveTailBytes(order[1..], active);
      j := i + 1;
      assert order[j..] == order[1..][i..];
      forall k | 0 <= k < |order| ensures order[k].digest in active <==> j <= k {
        if k > 0 { assert order[k] == order[1..][k - 1]; }
      }
    }
  }

  lemma {:induction false} AllActiveBytes(order: seq<PayloadFile>, active: set<Digest>)
    requires forall k :: 0 <= k < |order| ==> order[k].proper && order[k].digest in active
    ensures Bytes(order) == BytesIn(order, active)
  {
    if order != [] { AllActiveBytes(order[1..], active); }
  }

  /** Eviction stops at the latest where the rest fits, and what it leaves fits. */
  lemma {:induction false} EvictStopsInTime(order: seq<PayloadFile>, quota: nat, j: nat)
    requires j <= |order| && Bytes(order[j..]) <= quota
    ensures Bytes(Evict(order, Bytes(order), quota)) <= quota
    ensures forall k :: j <= k < |order| ==> order[k] in Evict(order, Bytes(order), quota)
    decreases |order|
  {
    assert order[0..] == order;
    if order != [] && Bytes(order) > quota {
      assert order[j..] == order[1..][j - 1..];
      EvictStopsInTime(order[1..], quota, j - 1);
      forall k | j <= k < |order| ensures order[k] in Evict(order, Bytes(order), quota) {
        assert order[k] == order[1..][k - 1];
      }
    }
  }

  // ----- the unit loop and the sweep agree

  lemma {:induction false} FittingUnitsFit(units: seq<Unit>, lines: seq<Line>, files: seq<PayloadFile>, quota: nat)
    ensures var kept := FittingUnits(units, lines, files, quota);
      && BytesIn(files, Referenced(kept, lines)) <= quota
      && |kept| <= |units| && kept == units[|units| - |kept|..]
      && (|kept| < |units| ==> BytesIn(files, Referenced(units[|units| - |kept| - 1..], lines)) > quota)
    decreases |units|
  {
    if units == [] {
      NothingReferenced(files);
    } else if BytesIn(files, Referenced(units, lines)) > quota {
      FittingUnitsFit(units[1..], lines, files, quota);
      assert units[0..] == units;
    }
  }

  lemma {:induction false} NothingReferenced(files: seq<PayloadFile>)
    ensures BytesIn(files, {}) == 0
  {
    if files != [] { NothingReferenced(files[1..]); }
  }

  lemma {:induction false} UnitMember(unit: Unit, lines: seq<Line>, i: nat)
    requires i in unit && i < |lines|
    ensures LineDigests(lines[i]) <= UnitDigests(unit, lines)
  {
    if i != unit[0] { UnitMember(unit[1..], lines, i); }
  }

  lemma {:induction false} UnitsMember(units: seq<Unit>, lines: seq<Line>, unit: Unit)
    requires unit in units
    ensures UnitDigests(unit, lines) <= Referenced(units, lines)
  {
    if unit != units[0] { UnitsMember(units[1..], lines, unit); }
  }

  ghost predicate InSomeUnit(l: Line, units: seq<Unit>, lines: seq<Line>) {
    exists i: nat :: i < |lines| && lines[i] == l && Covered(units, i)
  }

  /** Every digest a kept record mentions is one the unit loop counted. */
  lemma {:induction false} RecordsAreCounted(kept: seq<Line>, units: seq<Unit>, lines: seq<Line>)
    requires forall l :: l in kept ==> InSomeUnit(l, units, lines)
    ensures Mentioned(RecordRefs(kept)) <= Referenced(units, lines)
    decreases |kept|
  {
    if kept != [] {
      RecordsAreCounted(kept[1..], units, lines);
      var l := kept[0];
      assert l in kept;
      var i: nat :| i < |lines| && lines[i] == l && Covered(units, i);
      var u :| u in units && i in u;
      UnitMember(u, lines, i);
      UnitsMember(units, lines, u);
      if l.value.Some? { CollectorsAgree(l.value.value); }
      forall d | d in Mentioned(RecordRefs(kept)) ensures d in Referenced(units, lines) {
        var r :| r in RecordRefs(kept) && r.digest == d;
        if r in RecordRefs(kept[1..]) {
          assert d in Mentioned(RecordRefs(kept[1..]));
        } else {
          assert r in LineRefs(l);
          assert d in LineDigests(l);
        }
      }
    }
  }

  /** The kept positions are those of the kept units, so calls stay whole. */
  lemma SweptPositionsOk(lines: seq<Line>, files: seq<PayloadFile>, quota: nat)
    ensures InRange(SweptPositions(lines, files, quota), lines)
    ensures Ascending(SweptPositions(lines, files, quota))
    ensures PairClosed(SweptPositions(lines, files, quota), lines)
    ensures PositionsOf(SweptPositions(lines, files, quota), FittingUnits(RetentionUnits(lines), lines, files, quota))
  {
    var units := RetentionUnits(lines);
    var chosen := FittingUnits(units, lines, files, quota);
    FittingUnitsFit(units, lines, files, quota);
    UnitsAreAPartition(lines);
    UnitPositions(chosen, lines);
  }

  /** After a sweep the store is within its quota, every payload that an unexpired reference in a kept
      record names is still there if it was there before, nothing appears, and no link or stray name is
      left. */
  lemma SweepKeepsLivePayloads(lines: seq<Line>, files: seq<PayloadFile>, now: int, s: Settings)
    ensures var refs := RecordRefs(SweptLog(lines, files, s.quota));
      var left := Remaining(files, Mentioned(refs), Active(refs, now, s.retention), now, s);
      && Bytes(left) <= s.quota
      && (forall f, r :: f in files && f.proper && r in refs && Unexpired(r, now, s.retention) && r.digest == f.digest ==> f in left)
      && (forall f :: f in left ==> f in files && f.proper)
  {
    var kept := FittingUnits(RetentionUnits(lines), lines, files, s.quota);
    var log := SweptLog(lines, files, s.quota);
    var refs := RecordRefs(log);
    var referenced, active := Mentioned(refs), Active(refs, now, s.retention);
    FittingUnitsFit(RetentionUnits(lines), lines, files, s.quota);
    SweptLogIsCounted(lines, files, s.quota);
    RecordsAreCounted(log, kept, lines);
    assert active <= referenced;
    BytesInMonotone(files, active, Referenced(kept, lines));
    var candidates := Candidates(files, referenced, active, now, s.retention);
    CandidateBytes(files, referenced, active, now, s.retention);
    OrderedEviction(candidates, active, s.quota);
    forall f, r | f in files && f.proper && r in refs && Unexpired(r, now, s.retention) && r.digest == f.digest
      ensures f in candidates && f.digest in active
    {
      assert f.digest in active && f.digest in referenced;
    }
  }

  lemma SweptLogIsCounted(lines: seq<Line>, files: seq<PayloadFile>, quota: nat)
    ensures forall l :: l in SweptLog(lines, files, quota) ==>
      InSomeUnit(l, FittingUnits(RetentionUnits(lines), lines, files, quota), lines)
  {
    var units := RetentionUnits(lines);
    var kept := FittingUnits(units, lines, files, quota);
    var log := SweptLog(lines, files, quota);
    FittingUnitsFit(units, lines, files, quota);
    UnitsAreAPartition(lines);
    SweptPositionsOk(lines, files, quota);
    forall l | l in log ensures InSomeUnit(l, kept, lines) {
      if |kept| == |units| {
        assert kept == units;
        var i: nat :| i < |lines| && lines[i] == l;
        assert Covered(units, i);
      } else {
        var positions := SweptPositions(lines, files, quota);
        var k :| 0 <= k < |log| && log[k] == l;
        assert positions[k] in positions;
        assert Covered(kept, positions[k]);
      }
    }
  }

  lemma OrderedEviction(candidates: seq<PayloadFile>, active: set<Digest>, quota: nat)
    requires BytesIn(candidates, active) <= quota && forall f :: f in candidates ==> f.proper
    ensures var left := Evict(EvictionOrder(candidates, active), Bytes(candidates), quota);
      && Bytes(left) <= quota
      && (forall f :: f in candidates && f.digest in active ==> f in left)
      && (forall f :: f in left ==> f in candidates)
  {
    var key := (f: PayloadFile) => if f.digest in active then 1 else 0;
    var byTime := SortByKey(candidates, Mtime);
    var order := SortByKey(byTime, key);
    assert EvictionOrder(candidates, active) == order;
    SortBytes(candidates, Mtime, active);
    SortBytes(byTime, key, active);
    SortKeepsMembers(candidates, Mtime);
    SortKeepsMembers(byTime, key);
    SortIsAscending(byTime, key);
    forall a, b | 0 <= a < b < |order| && order[a].digest in active ensures order[b].digest in active {
      assert key(order[a]) <= key(order[b]);
    }
    var j := ActiveTailBytes(order, active);
    EvictStopsInTime(order, quota, j);
    EvictKeepsOnly(order, Bytes(order), quota);
  }

  lemma {:induction false} EvictKeepsOnly(order: seq<PayloadFile>, total: int, quota: nat)
    ensures forall f :: f in Evict(order, total, quota) ==> f in order
    decreases |order|
  {
    if order != [] && total > quota { EvictKeepsOnly(order[1..], total - order[0].size, quota); }
  }

  // ----- the loops

  function Names(files: seq<PayloadFile>): set<Digest> { set f | f in files :: f.digest }

  predicate UniquelyNamed(files: seq<PayloadFile>) {
    files != [] ==> files[0].digest !in Names(files[1..]) && UniquelyNamed(files[1..])
  }

  lemma NamesSplit(s: seq<PayloadFile>)
    requires s != []
    ensures Names(s) == {s[0].digest} + Names(s[1..])
  {
    assert s == [s[0]] + s[1..];
    forall d | d in Names(s) ensures d in {s[0].digest} + Names(s[1..]) {
      var f :| f in s && f.digest == d;
    }
  }

  lemma NamesAppend(s: seq<PayloadFile>, f: PayloadFile)
    ensures Names(s + [f]) == Names(s) + {f.digest}
  {
    forall d | d in Names(s + [f]) ensures d in Names(s) + {f.digest} {
      var g :| g in s + [f] && g.digest == d;
    }
    assert f in s + [f];
    forall d | d in Names(s) ensures d in Names(s + [f]) {
      var g :| g in s && g.digest == d;
      assert g in s + [f];
    }
  }

  lemma NamesOfPart(part: seq<PayloadFile>, whole: seq<PayloadFile>)
    requires forall f :: f in part ==> f in whole
    ensures Names(part) <= Names(whole)
  {
    forall d | d in Names(part) ensures d in Names(whole) {
      var f :| f in part && f.digest == d;
      assert f in whole;
    }
  }

  lemma {:induction false} UniqueDrop(files: seq<PayloadFile>, k: nat)
    requires UniquelyNamed(files) && k <= |files|
    ensures UniquelyNamed(files[k..])
    decreases k
  {
    if k == 0 {
      assert files[0..] == files;
    } else {
      UniqueDrop(files[1..], k - 1);
      assert files[1..][k - 1..] == files[k..];
    }
  }

  lemma {:induction false} UniqueApart(files: seq<PayloadFile>, i: nat, j: nat)
    requires UniquelyNamed(files) && i < j < |files|
    ensures files[i].digest != files[j].digest
    decreases i
  {
    if i == 0 {
      assert files[j] == files[1..][j - 1];
      assert files[j].digest in Names(files[1..]);
    } else {
      UniqueApart(files[1..], i - 1, j - 1);
    }
  }

  /** Removing the file a listing starts with leaves the names of the rest. */
  lemma UniqueSuffix(files: seq<PayloadFile>, k: nat)
    requires UniquelyNamed(files) && k < |files|
    ensures Names(files[k..]) == {files[k].digest} + Names(files[k + 1..])
    ensures files[k].digest !in Names(files[k + 1..])
    ensures files[k].digest !in Names(files[..k])
  {
    UniqueDrop(files, k);
    assert files[k..][0] == files[k] && files[k..][1..] == files[k + 1..];
    NamesSplit(files[k..]);
    forall f | f in files[..k] ensures f.digest != files[k].digest {
      var i :| 0 <= i < k && files[i] == f;
      UniqueApart(files, i, k);
    }
  }

  lemma {:induction false} CandidatesExtended(files: seq<PayloadFile>, n: nat, referenced: set<Digest>, active: set<Digest>,
                                              now: int, retention: int)
    requires n < |files|
    ensures Candidates(files[..n + 1], referenced, active, now, retention)
      == Candidates(files[..n], referenced, active, now, retention)
        + (if Survives(files[n], referenced, active, now, retention) then [files[n]] else [])
    decreases n
  {
    if n > 0 {
      CandidatesExtended(files[1..], n - 1, referenced, active, now, retention);
      assert files[..n + 1][1..] == files[1..][..n];
      assert files[..n][1..] == files[1..][..n - 1];
    }
  }

  lemma {:induction false} UniqueCandidates(files: seq<PayloadFile>, referenced: set<Digest>, active: set<Digest>, now: int, retention: int)
    requires UniquelyNamed(files)
    ensures UniquelyNamed(Candidates(files, referenced, active, now, retention))
    ensures Names(Candidates(files, referenced, active, now, retention)) <= Names(files)
    decreases |files|
  {
    if files != [] {
      UniqueCandidates(files[1..], referenced, active, now, retention);
      var rest := Candidates(files[1..], referenced, active, now, retention);
      NamesSplit(files);
      if Survives(files[0], referenced, active, now, retention) {
        assert ([files[0]] + rest)[1..] == rest;
        NamesSplit([files[0]] + rest);
      }
    }
  }

  lemma {:induction false} UniqueInsert(x: PayloadFile, s: seq<PayloadFile>, key: PayloadFile -> int)
    requires UniquelyNamed(s) && x.digest !in Names(s)
    ensures UniquelyNamed(InsertByKey(x, s, key)) && Names(InsertByKey(x, s, key)) == {x.digest} + Names(s)
    decreases |s|
  {
    var r := InsertByKey(x, s, key);
    if s != [] && key(x) > key(s[0]) {
      NamesSplit(s);
      UniqueInsert(x, s[1..], key);
      assert r[1..] == InsertByKey(x, s[1..], key);
    } else {
      assert r[1..] == s;
    }
    NamesSplit(r);
  }

  lemma {:induction false} UniqueSort(s: seq<PayloadFile>, key: PayloadFile -> int)
    requires UniquelyNamed(s)
    ensures UniquelyNamed(SortByKey(s, key)) && Names(SortByKey(s, key)) == Names(s)
    decreases |s|
  {
    if s != [] {
      UniqueSort(s[1..], key);
      NamesSplit(s);
      UniqueInsert(s[0], SortByKey(s[1..], key), key);
    }
  }

  lemma EvictionOrderKeepsNames(candidates: seq<PayloadFile>, active: set<Digest>)
    requires UniquelyNamed(candidates)
    ensures UniquelyNamed(EvictionOrder(candidates, active))
    ensures Names(EvictionOrder(candidates, active)) == Names(candidates)
  {
    var key := (f: PayloadFile) => if f.digest in active then 1 else 0;
    UniqueSort(candidates, Mtime);
    UniqueSort(SortByKey(candidates, Mtime), key);
    assert EvictionOrder(candidates, active) == SortByKey(SortByKey(candidates, Mtime), key);
  }

  /** The payload directory: the digests that have a file. */
  class PayloadStore {
    var present: set<Digest>

    constructor (digests: set<Digest>)
      ensures present == digests
    {
      present := digests;
    }

    /** The first loop of `prune_payload_files`: unlink what does not survive. */
    method Expire(files: seq<PayloadFile>, referenced: set<Digest>, active: set<Digest>, now: int, retention: int)
      returns (candidates: seq<PayloadFile>)
      requires UniquelyNamed(files) && present == Names(files)
      modifies this
      ensures candidates == Candidates(files, referenced, active, now, retention)
      ensures present == Names(candidates)
    {
      candidates := [];
      var i := 0;
      assert files[0..] == files;
      while i < |files|
        invariant 0 <= i <= |files|
        invariant candidates == Candidates(files[..i], referenced, active, now, retention)
        invariant present == Names(candidates) + Names(files[i..])
      {
        var file := files[i];
        CandidatesExtended(files, i, referenced, active, now, retention);
        UniqueSuffix(files, i);
        NamesOfPart(candidates, files[..i]);
        if Survives(file, referenced, active, now, retention) {
          NamesAppend(candidates, file);
          candidates := candidates + [file];
        } else {
          present := present - {file.digest};
        }
        i := i + 1;
      }
      assert files[..i] == files;
    }

    /** Its second loop: unlink in eviction order until the store fits. */
    method EvictDown(order: seq<PayloadFile>, quota: nat)
      requires UniquelyNamed(order) && present == Names(order)
      modifies this
      ensures present == Names(Evict(order, Bytes(order), quota))
    {
      var total := Bytes(order);
      var k := 0;
      ghost var expected := Evict(order, total, quota);
      assert order[0..] == order;
      while k < |order| && total > quota
        invariant 0 <= k <= |order|
        invariant total == Bytes(order[k..])
        invariant Evict(order[k..], total, quota) == expected
        invariant present == Names(order[k..])
      {
        UniqueSuffix(order, k);
        assert order[k..][1..] == order[k + 1..];
        present := present - {order[k].digest};
        total := total - order[k].size;
        k := k + 1;
      }
    }

    method Prune(files: seq<PayloadFile>, referenced: set<Digest>, active: set<Digest>, now: int, s: Settings)
      requires UniquelyNamed(files) && present == Names(files)
      modifies this
      ensures present == Names(Remaining(files, referenced, active, now, s))
    {
      var candidates := Expire(files, referenced, active, now, s.retention);
      if Bytes(candidates) <= s.quota { return; }
      UniqueCandidates(files, referenced, active, now, s.retention);
      EvictionOrderKeepsNames(candidates, active);
      SortedBytes(candidates, active);
      EvictDown(EvictionOrder(candidates, active), s.quota);
    }
  }

  lemma SortedBytes(candidates: seq<PayloadFile>, active: set<Digest>)
    ensures Bytes(EvictionOrder(candidates, active)) == Bytes(candidates)
  {
    var key := (f: PayloadFile) => if f.digest in active then 1 else 0;
    SortBytes(candidates, Mtime, active);
    SortBytes(SortByKey(candidates, Mtime), key, active);
    assert EvictionOrder(candidates, active) == SortByKey(SortByKey(candidates, Mtime), key);
  }

  /** The sweep of `_enforce_audit_retention`: drop oldest units, rewrite the log if any went, then
      prune the store by what the kept records mention. */
  method Sweep(lines: seq<Line>, files: seq<PayloadFile>, store: PayloadStore, now: int, s: Settings)
    returns (log: seq<Line>)
    requires UniquelyNamed(files) && store.present == Names(files)
    modifies store
    ensures log == SweptLog(lines, files, s.quota)
    ensures store.present == SweptNames(lines, files, now, s)
  {
    var units := GroupLines(lines);
    var selected := units;
    while selected != [] && BytesIn(files, Referenced(selected, lines)) > s.quota
      invariant FittingUnits(selected, lines, files, s.quota) == FittingUnits(units, lines, files, s.quota)
      decreases |selected|
    {
      selected := selected[1..];
    }
    log := lines;
    if |selected| != |units| {
      SweptPositionsOk(lines, files, s.quota);
      log := LinesAt(lines, PositionsIn(selected));
    }
    var refs := RecordRefs(log);
    store.Prune(files, Mentioned(refs), Active(refs, now, s.retention), now, s);
  }

  /** The files a sweep leaves. */
  function SweptFiles(lines: seq<Line>, files: seq<PayloadFile>, now: int, s: Settings): seq<PayloadFile> {
    var refs := RecordRefs(SweptLog(lines, files, s.quota));
    Remaining(files, Mentioned(refs), Active(refs, now, s.retention), now, s)
  }

  function SweptNames(lines: seq<Line>, files: seq<PayloadFile>, now: int, s: Settings): set<Digest> {
    Names(SweptFiles(lines, files, now, s))
  }

  /** A sweep is made when a payload was stored, the log was cut, or the last sweep is too long ago. */
  predicate SweepDue(payloadChanged: bool, logChanged: bool, rootExists: bool, last: Option<int>, clock: int) {
    payloadChanged || logChanged || (rootExists && (last.None? || clock - last.value >= SWEEP_INTERVAL))
  }

  predicate OverLimit(lines: seq<Line>, limit: int) { limit > 0 && Total(lines) > limit }

  /** `_enforce_audit_retention`, a missing log counting as an empty one: the log is cut to its limit; then,
      only when a sweep is due, log and store are swept. */
  method EnforceRetention(lines: seq<Line>, files: seq<PayloadFile>, store: PayloadStore, payloadChanged: bool,
                          rootExists: bool, last: Option<int>, clock: int, now: int, s: Settings)
    returns (log: seq<Line>, swept: Option<int>)
    requires UniquelyNamed(files) && store.present == Names(files)
    modifies store
    ensures var cut := TrimmedLog(lines, s.logLimit);
      if SweepDue(payloadChanged, OverLimit(lines, s.logLimit), rootExists, last, clock)
      then log == SweptLog(cut, files, s.quota) && store.present == SweptNames(cut, files, now, s) && swept == Some(clock)
      else log == lines && store.present == old(store.present) && swept == last
  {
    var logChanged: bool;
    log, logChanged := EnforceLogLimit(lines, s.logLimit);
    var periodic := rootExists && (last.None? || clock - last.value >= SWEEP_INTERVAL);
    if !payloadChanged && !logChanged && !periodic { return log, last; }
    log := Sweep(log, files, store, now, s);
    swept := Some(clock);
  }

  lemma CutIsBounded(lines: seq<Line>, limit: int)
    requires limit > 0
    ensures Total(TrimmedLog(lines, limit)) <= limit
  {
    if Total(lines) > limit {
      var _ := TrimIsBoundedAndPairClosed(lines, limit);
    }
  }

  lemma {:induction false} PartOfTheTotal(kept: seq<nat>, lines: seq<Line>, n: nat)
    requires Ascending(kept) && n <= |lines| && forall k :: 0 <= k < |kept| ==> kept[k] < n
    ensures UnitBytes(kept, lines) <= Total(lines[..n])
    decreases n
  {
    if kept != [] {
      var m := |kept| - 1;
      assert kept[m] < n;
      assert lines[..n][..n - 1] == lines[..n - 1];
      PartOfTheTotal(if kept[m] == n - 1 then kept[..m] else kept, lines, n - 1);
    }
  }

  /** Dropping units only shortens the log. */
  lemma SweptIsBounded(lines: seq<Line>, files: seq<PayloadFile>, quota: nat)
    ensures Total(SweptLog(lines, files, quota)) <= Total(lines)
  {
    var positions := SweptPositions(lines, files, quota);
    SweptPositionsOk(lines, files, quota);
    TotalAt(lines, positions);
    PartOfTheTotal(positions, lines, |lines|);
    assert lines[..|lines|] == lines;
  }
}
