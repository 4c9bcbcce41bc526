/** What one retention pass keeps and what it removes, file by file, in terms of the log's text alone. */
module AuditSweep {
  import opened Common
  import opened AuditLog
  import opened AuditRetention
  import opened AuditPayloads

  // ----- what a log mentions

  /** The value at a path of positions. */
  function ValueAt(v: Json, path: seq<nat>): Option<Json>
    decreases |path|
  {
    if path == [] then Some(v)
    else
      match v
      case Object(children) => if path[0] < |children| then ValueAt(children[path[0]], path[1..]) else None
      case List(items) => if path[0] < |items| then ValueAt(items[path[0]], path[1..]) else None
      case _ => None
  }

  ghost predicate Holds(v: Json, r: Ref) { exists path: seq<nat> :: ValueAt(v, path) == Some(Reference(r)) }

  lemma HoldsBelow(v: Json, vs: seq<Json>, k: nat, r: Ref)
    requires (v == Object(vs) || v == List(vs)) && k < |vs| && Holds(vs[k], r)
    ensures Holds(v, r)
  {
    var path: seq<nat> :| ValueAt(vs[k], path) == Some(Reference(r));
    assert ([k] + path)[1..] == path;
    assert ValueAt(v, [k] + path) == Some(Reference(r));
  }

  lemma HoldsInSome(v: Json, vs: seq<Json>, r: Ref) returns (k: nat)
    requires (v == Object(vs) || v == List(vs)) && Holds(v, r)
    ensures k < |vs| && Holds(vs[k], r)
  {
    var path: seq<nat> :| ValueAt(v, path) == Some(Reference(r));
    k := path[0];
    assert ValueAt(vs[k], path[1..]) == Some(Reference(r));
  }

  /** The collector finds exactly the references that stand somewhere in the value. */
  lemma {:induction false} MetadataIs(v: Json, r: Ref)
    ensures r in Metadata(v) <==> Holds(v, r)
    decreases v, 1
  {
    match v
    case Reference(q) =>
      assert ValueAt(v, []) == Some(v);
      if Holds(v, r) {
        var path: seq<nat> :| ValueAt(v, path) == Some(Reference(r));
        assert path == [];
      }
    case Scalar =>
    case Object(children) => MetadataOfAll(v, children, r);
    case List(items) => MetadataOfAll(v, items, r);
  }

  lemma {:induction false} MetadataOfAll(v: Json, vs: seq<Json>, r: Ref)
    requires v == Object(vs) || v == List(vs)
    ensures r in AllMetadata(vs) <==> Holds(v, r)
    decreases v, 0
  {
    SomeMetadata(vs, r);
    if r in AllMetadata(vs) {
      var k :| 0 <= k < |vs| && r in Metadata(vs[k]);
      MetadataIs(vs[k], r);
      HoldsBelow(v, vs, k, r);
    }
    if Holds(v, r) {
      var k := HoldsInSome(v, vs, r);
      MetadataIs(vs[k], r);
    }
  }

  lemma {:induction false} SomeMetadata(vs: seq<Json>, r: Ref)
    ensures r in AllMetadata(vs) <==> exists k :: 0 <= k < |vs| && r in Metadata(vs[k])
    decreases |vs|
  {
    if vs != [] {
      var rest := vs[1..];
      SomeMetadata(rest, r);
      if k :| 0 <= k < |vs| && r in Metadata(vs[k]) {
        if k > 0 { assert rest[k - 1] == vs[k]; }
      }
      if r in AllMetadata(rest) {
        var k :| 0 <= k < |rest| && r in Metadata(rest[k]);
        assert vs[k + 1] == rest[k];
      }
    }
  }

  /** Some line of the log decodes to an object in which this reference stands. */
  ghost predicate Mentions(log: seq<Line>, r: Ref) {
    exists k :: 0 <= k < |log| && LineMentions(log[k], r)
  }

  ghost predicate LineMentions(l: Line, r: Ref) {
    l.value.Some? && (l.value.value.Object? || l.value.value.Reference?) && Holds(l.value.value, r)
  }

  lemma {:induction false} RefsAreMentions(log: seq<Line>, r: Ref)
    ensures r in RecordRefs(log) <==> Mentions(log, r)
    decreases |log|
  {
    if log != [] {
      var rest := log[1..];
      RefsAreMentions(rest, r);
      if log[0].value.Some? { MetadataIs(log[0].value.value, r); }
      assert r in LineRefs(log[0]) <==> LineMentions(log[0], r);
      if Mentions(log, r) {
        var k :| 0 <= k < |log| && LineMentions(log[k], r);
        if k > 0 { assert rest[k - 1] == log[k]; }
      }
      if Mentions(rest, r) {
        var k :| 0 <= k < |rest| && LineMentions(rest[k], r);
        assert log[k + 1] == rest[k];
      }
    }
  }

  // ----- sizes

  /** `Bytes` is the sum of the sizes: additive, and the size of a file for one file. */
  lemma {:induction false} BytesAdd(a: seq<PayloadFile>, b: seq<PayloadFile>)
    ensures Bytes(a + b) == Bytes(a) + Bytes(b)
    ensures forall f: PayloadFile :: Bytes([f]) == f.size
    decreases |a|
  {
    forall f: PayloadFile ensures Bytes([f]) == f.size { assert [f][1..] == []; }
    if a == [] {
      assert a + b == b;
    } else {
      assert (a + b)[1..] == a[1..] + b;
      BytesAdd(a[1..], b);
    }
  }

  // ----- eviction

  lemma {:induction false} EvictIsASuffix(order: seq<PayloadFile>, quota: nat) returns (k: nat)
    ensures k <= |order| && Evict(order, Bytes(order), quota) == order[k..]
    ensures k > 0 ==> Bytes(order[k - 1..]) > quota
    decreases |order|
  {
    if order == [] || Bytes(order) <= quota {
      k := 0;
      assert order[0..] == order;
    } else {
      var i := EvictIsASuffix(order[1..], quota);
      k := i + 1;
      assert order[1..][i..] == order[k..];
      if i > 0 {
        assert order[1..][i - 1..] == order[k - 1..];
      } else {
        assert order[0..] == order;
      }
    }
  }

  /** `f` goes before `g`: an inactive file before an active one, and of two alike the older one. */
  predicate GoesBefore(f: PayloadFile, g: PayloadFile, active: set<Digest>) {
    if f.digest in active then g.digest in active && f.mtime <= g.mtime
    else g.digest in active || f.mtime <= g.mtime
  }

  lemma OrderGoesBefore(candidates: seq<PayloadFile>, active: set<Digest>, i: nat, j: nat)
    requires i < j < |EvictionOrder(candidates, active)|
    ensures GoesBefore(EvictionOrder(candidates, active)[i], EvictionOrder(candidates, active)[j], active)
  {
    var key := (f: PayloadFile) => if f.digest in active then 1 else 0;
    var byTime := SortByKey(candidates, Mtime);
    var order := SortByKey(byTime, key);
    assert EvictionOrder(candidates, active) == order;
    SortIsAscending(candidates, Mtime);
    SortIsAscending(byTime, key);
    SortIsStable(byTime, key, Mtime);
    assert key(order[i]) <= key(order[j]);
    assert key(order[i]) == key(order[j]) ==> Mtime(order[i]) <= Mtime(order[j]);
  }

  lemma PlaceInFront(s: seq<PayloadFile>, k: nat, f: PayloadFile) returns (i: nat)
    requires k <= |s| && f in s && f !in s[k..]
    ensures i < k && s[i] == f
  {
    assert s == s[..k] + s[k..];
    assert f in s[..k];
    i :| 0 <= i < k && s[..k][i] == f;
  }

  /** In an order of its own, one file that went, and the last that did. */
  lemma OneTaken(order: seq<PayloadFile>, left: seq<PayloadFile>, active: set<Digest>, quota: nat, f: PayloadFile) returns (last: PayloadFile)
    requires UniquelyNamed(order) && left == Evict(order, Bytes(order), quota) && f in order && f !in left
    requires forall i, j :: 0 <= i < j < |order| ==> GoesBefore(order[i], order[j], active)
    ensures forall g :: g in left ==> GoesBefore(f, g, active)
    ensures last in order && last !in left && Bytes([last] + left) > quota
    ensures last == f || GoesBefore(f, last, active)
  {
    var k := EvictIsASuffix(order, quota);
    var i := PlaceInFront(order, k, f);
    forall g | g in left ensures GoesBefore(f, g, active) {
      var j :| 0 <= j < |left| && left[j] == g;
      assert order[k + j] == g;
    }
    last := order[k - 1];
    assert order[k - 1..] == [last] + left;
    UniqueSuffix(order, k - 1);
    NotAmong(order[k..], last);
  }

  /** What eviction takes: a file goes only when everything left goes after it, and only while the rest would
      not fit. */
  lemma EvictionTakesTheOldest(candidates: seq<PayloadFile>, active: set<Digest>, quota: nat, left: seq<PayloadFile>, f: PayloadFile)
    returns (last: PayloadFile)
    requires UniquelyNamed(candidates) && left == Evict(EvictionOrder(candidates, active), Bytes(candidates), quota)
    requires f in candidates && f !in left
    ensures forall g :: g in left ==> GoesBefore(f, g, active)
    ensures last in candidates && last !in left && Bytes([last] + left) > quota
    ensures last == f || GoesBefore(f, last, active)
  {
    var order := EvictionOrder(candidates, active);
    SortedBytes(candidates, active);
    OrderMembers(candidates, active);
    EvictionOrderKeepsNames(candidates, active);
    forall i, j | 0 <= i < j < |order| ensures GoesBefore(order[i], order[j], active) {
      OrderGoesBefore(candidates, active, i, j);
    }
    last := OneTaken(order, left, active, quota, f);
  }

  lemma NotAmong(s: seq<PayloadFile>, f: PayloadFile)
    requires f.digest !in Names(s)
    ensures f !in s
  {
  }

  lemma OrderMembers(candidates: seq<PayloadFile>, active: set<Digest>)
    ensures forall f :: f in EvictionOrder(candidates, active) <==> f in candidates
  {
    var key := (f: PayloadFile) => if f.digest in active then 1 else 0;
    SortKeepsMembers(candidates, Mtime);
    SortKeepsMembers(SortByKey(candidates, Mtime), key);
    assert EvictionOrder(candidates, active) == SortByKey(SortByKey(candidates, Mtime), key);
  }

  // ----- one file

  /** The log mentions the file in a record, with these times; `None` stands for a missing one. */
  ghost predicate MentionedAt(log: seq<Line>, f: PayloadFile, created: Option<int>) {
    exists r :: Mentions(log, r) && r.digest == f.digest && r.createdAt == created
  }

  /** A young mention: no older than the retention. */
  ghost predicate YoungMention(log: seq<Line>, f: PayloadFile, now: int, retention: int) {
    exists t :: MentionedAt(log, f, Some(t)) && retention > 0 && now - t <= retention
  }

  ghost predicate AnyMention(log: seq<Line>, f: PayloadFile) { exists created :: MentionedAt(log, f, created) }

  /** What may stay, before the quota: a proper file with a young mention, or a young one without any. */
  ghost predicate MayStay(log: seq<Line>, f: PayloadFile, now: int, retention: int) {
    && f.proper
    && (YoungMention(log, f, now, retention)
        || (!AnyMention(log, f) && retention > 0 && now - f.mtime <= retention))
  }

  lemma ActiveIs(log: seq<Line>, f: PayloadFile, now: int, retention: int)
    ensures f.digest in Active(RecordRefs(log), now, retention) <==> YoungMention(log, f, now, retention)
    ensures f.digest in Mentioned(RecordRefs(log)) <==> AnyMention(log, f)
  {
    var refs := RecordRefs(log);
    if f.digest in Active(refs, now, retention) {
      var r :| r in refs && Unexpired(r, now, retention) && r.digest == f.digest;
      RefsAreMentions(log, r);
      assert MentionedAt(log, f, Some(r.createdAt.value));
    }
    if YoungMention(log, f, now, retention) {
      var t :| MentionedAt(log, f, Some(t)) && retention > 0 && now - t <= retention;
      var r :| Mentions(log, r) && r.digest == f.digest && r.createdAt == Some(t);
      RefsAreMentions(log, r);
      assert Unexpired(r, now, retention);
    }
    if f.digest in Mentioned(refs) {
      var r :| r in refs && r.digest == f.digest;
      RefsAreMentions(log, r);
      assert MentionedAt(log, f, r.createdAt);
    }
    if AnyMention(log, f) {
      var created :| MentionedAt(log, f, created);
      var r :| Mentions(log, r) && r.digest == f.digest && r.createdAt == created;
      RefsAreMentions(log, r);
    }
  }

  lemma SurvivesIs(log: seq<Line>, f: PayloadFile, now: int, retention: int)
    ensures var refs := RecordRefs(log);
      Survives(f, Mentioned(refs), Active(refs, now, retention), now, retention) <==> MayStay(log, f, now, retention)
  {
    ActiveIs(log, f, now, retention);
    if YoungMention(log, f, now, retention) {
      var t :| MentionedAt(log, f, Some(t)) && retention > 0 && now - t <= retention;
      assert AnyMention(log, f);
    }
  }

  /** The decision over every file: one with a young mention stays; one that may not stay goes; and of those
      that may, only files without a young mention go, oldest first, and only while the rest would not
      fit. */
  ghost predicate Decided(files: seq<PayloadFile>, left: seq<PayloadFile>, log: seq<Line>, now: int, s: Settings) {
    && (forall f :: f in files && f.proper && YoungMention(log, f, now, s.retention) ==> f in left)
    && (forall f :: f in files && !MayStay(log, f, now, s.retention) ==> f !in left)
    && (forall f, g :: f in files && MayStay(log, f, now, s.retention) && f !in left && g in left
          ==> YoungMention(log, g, now, s.retention) || f.mtime <= g.mtime)
    && (forall f :: f in files && MayStay(log, f, now, s.retention) && f !in left ==>
          exists last :: last in files && f.mtime <= last.mtime && Bytes([last] + left) > s.quota)
  }

  lemma SweepDecides(lines: seq<Line>, files: seq<PayloadFile>, now: int, s: Settings)
    requires UniquelyNamed(files)
    ensures Decided(files, SweptFiles(lines, files, now, s), SweptLog(lines, files, s.quota), now, s)
  {
    var log := SweptLog(lines, files, s.quota);
    var refs := RecordRefs(log);
    var left := SweptFiles(lines, files, now, s);
    SweepKeepsLivePayloads(lines, files, now, s);
    forall f | f in files && f.proper && YoungMention(log, f, now, s.retention) ensures f in left {
      ActiveIs(log, f, now, s.retention);
      var r :| r in refs && Unexpired(r, now, s.retention) && r.digest == f.digest;
    }
    KeptAreCandidates(files, Mentioned(refs), Active(refs, now, s.retention), now, s);
    RestDecided(files, left, log, refs, Active(refs, now, s.retention), now, s);
  }

  /** The files that go, in terms of the candidates. */
  lemma RestDecided(files: seq<PayloadFile>, left: seq<PayloadFile>, log: seq<Line>, refs: seq<Ref>, active: set<Digest>, now: int, s: Settings)
    requires UniquelyNamed(files) && refs == RecordRefs(log) && active == Active(refs, now, s.retention)
    requires left == Remaining(files, Mentioned(refs), active, now, s)
    requires forall f :: f in left ==> f in Candidates(files, Mentioned(refs), active, now, s.retention)
    requires forall f :: f in files && f.proper && YoungMention(log, f, now, s.retention) ==> f in left
    ensures Decided(files, left, log, now, s)
  {
    var candidates := Candidates(files, Mentioned(refs), active, now, s.retention);
    forall f | f in files
      ensures f in candidates <==> MayStay(log, f, now, s.retention)
      ensures f.digest in active <==> YoungMention(log, f, now, s.retention)
    {
      SurvivesIs(log, f, now, s.retention);
      ActiveIs(log, f, now, s.retention);
    }
    UniqueCandidates(files, Mentioned(refs), active, now, s.retention);
    OverQuota(files, left, Mentioned(refs), active, now, s);
    forall f | f in candidates && f !in left
      ensures forall g :: g in left ==> g.digest in active || f.mtime <= g.mtime
      ensures exists last :: last in files && f.mtime <= last.mtime && Bytes([last] + left) > s.quota
    {
      Evicted(files, candidates, left, active, s.quota, f);
    }
  }

  /** A candidate that went: nothing younger was left to go instead, and the rest did not fit before. */
  lemma Evicted(files: seq<PayloadFile>, candidates: seq<PayloadFile>, left: seq<PayloadFile>, active: set<Digest>, quota: nat, f: PayloadFile)
    requires forall g :: g in candidates ==> g in files
    requires left == Evict(EvictionOrder(candidates, active), Bytes(candidates), quota)
    requires UniquelyNamed(candidates) && forall g :: g in candidates && g.digest in active ==> g in left
    requires f in candidates && f !in left && f.digest !in active
    ensures forall g :: g in left ==> g.digest in active || f.mtime <= g.mtime
    ensures exists last :: last in files && f.mtime <= last.mtime && Bytes([last] + left) > quota
  {
    var last := EvictionTakesTheOldest(candidates, active, quota, left, f);
  }

  lemma OverQuota(files: seq<PayloadFile>, left: seq<PayloadFile>, referenced: set<Digest>, active: set<Digest>, now: int, s: Settings)
    requires left == Remaining(files, referenced, active, now, s)
    ensures var candidates := Candidates(files, referenced, active, now, s.retention);
      || left == candidates
      || left == Evict(EvictionOrder(candidates, active), Bytes(candidates), s.quota)
  {
  }

  lemma KeptAreCandidates(files: seq<PayloadFile>, referenced: set<Digest>, active: set<Digest>, now: int, s: Settings)
    ensures forall f :: f in Remaining(files, referenced, active, now, s) ==> f in Candidates(files, referenced, active, now, s.retention)
  {
    var candidates := Candidates(files, referenced, active, now, s.retention);
    EvictKeepsOnly(EvictionOrder(candidates, active), Bytes(candidates), s.quota);
    OrderMembers(candidates, active);
  }

  // ----- one whole pass

  /** One retention pass over a directory as it is listed. The log ends within its limit. A sweep is made when
      a payload was stored, when the log was over its limit, and when the last one is a minute old; after it
      the payloads left fit the quota, each is one that was there, and every file is kept or removed by its
      age and by what the log still says of it. */
  method RetainOnce(lines: seq<Line>, files: seq<PayloadFile>, payloadChanged: bool, rootExists: bool, last: Option<int>,
                    clock: int, now: int, s: Settings)
    returns (log: seq<Line>, present: set<Digest>, ghost left: seq<PayloadFile>)
    requires UniquelyNamed(files) && (!rootExists ==> files == [])
    ensures s.logLimit > 0 ==> Total(log) <= s.logLimit
    ensures present == Names(left) && forall f :: f in left ==> f in files
    ensures (payloadChanged || (s.logLimit > 0 && Total(lines) > s.logLimit)
             || (rootExists && (last == None || clock - last.value >= 60))) ==>
      && Bytes(left) <= s.quota && Decided(files, left, log, now, s)
      && (forall f, t :: f in files && f.proper && MentionedAt(log, f, Some(t)) && s.retention > 0 && now - t <= s.retention
            ==> f.digest in present)
      && (forall f :: f in files && f.proper && (exists t :: MentionedAt(log, f, t))
            && (forall t :: MentionedAt(log, f, t) ==> t == None || s.retention <= 0 || now - t.value > s.retention)
            ==> f.digest !in present)
      && (forall f :: f in files && !(exists t :: MentionedAt(log, f, t)) && (s.retention <= 0 || now - f.mtime > s.retention)
            ==> f.digest !in present)
      && (forall f :: f in files && !f.proper ==> f.digest !in present)
    ensures (!payloadChanged && (s.logLimit <= 0 || Total(lines) <= s.logLimit)
             && !(rootExists && (last == None || clock - last.value >= 60))) ==>
      log == lines && left == files
  {
    var store := new PayloadStore(Names(files));
    var swept: Option<int>;
    log, swept := EnforceRetention(lines, files, store, payloadChanged, rootExists, last, clock, now, s);
    present := store.present;
    if s.logLimit > 0 { CutIsBounded(lines, s.logLimit); }
    if SweepDue(payloadChanged, OverLimit(lines, s.logLimit), rootExists, last, clock) {
      ghost var cut := TrimmedLog(lines, s.logLimit);
      left := SweptFiles(cut, files, now, s);
      SweepKeepsLivePayloads(cut, files, now, s);
      SweptIsBounded(cut, files, s.quota);
      SweepDecides(cut, files, now, s);
      PresentIs(files, left, log, now, s);
    } else {
      left := files;
    }
  }

  lemma NameOfOne(files: seq<PayloadFile>, left: seq<PayloadFile>, f: PayloadFile)
    requires UniquelyNamed(files) && f in files && forall g :: g in left ==> g in files
    ensures f.digest in Names(left) <==> f in left
  {
    if f.digest in Names(left) {
      var g :| g in left && g.digest == f.digest;
      OneOfAName(files, f, g);
    }
  }

  lemma OneOfAName(files: seq<PayloadFile>, f: PayloadFile, g: PayloadFile)
    requires UniquelyNamed(files) && f in files && g in files && f.digest == g.digest
    ensures f == g
  {
    var i :| 0 <= i < |files| && files[i] == f;
    var j :| 0 <= j < |files| && files[j] == g;
    if i < j { UniqueApart(files, i, j); } else if j < i { UniqueApart(files, j, i); }
  }

  lemma PresentIs(files: seq<PayloadFile>, left: seq<PayloadFile>, log: seq<Line>, now: int, s: Settings)
    requires UniquelyNamed(files) && Decided(files, left, log, now, s) && forall g :: g in left ==> g in files
    ensures forall f, t :: (f in files && f.proper && MentionedAt(log, f, Some(t)) && s.retention > 0 && now - t <= s.retention
                            ==> f.digest in Names(left))
    ensures forall f :: (f in files && f.proper && (exists t :: MentionedAt(log, f, t))
                         && (forall t :: MentionedAt(log, f, t) ==> t == None || s.retention <= 0 || now - t.value > s.retention)
                         ==> f.digest !in Names(left))
    ensures forall f :: (f in files && !(exists t :: MentionedAt(log, f, t)) && (s.retention <= 0 || now - f.mtime > s.retention)
                         ==> f.digest !in Names(left))
    ensures forall f :: f in files && !f.proper ==> f.digest !in Names(left)
  {
    forall f, t | f in files && f.proper && MentionedAt(log, f, Some(t)) && s.retention > 0 && now - t <= s.retention
      ensures f.digest in Names(left)
    {
      YoungIsPresent(files, left, log, now, s, f, t);
    }
    forall f | f in files && f.proper && (exists t :: MentionedAt(log, f, t))
               && (forall t :: MentionedAt(log, f, t) ==> t == None || s.retention <= 0 || now - t.value > s.retention)
      ensures f.digest !in Names(left)
    {
      OldIsGone(files, left, log, now, s, f);
    }
    forall f | f in files && !(exists t :: MentionedAt(log, f, t)) && (s.retention <= 0 || now - f.mtime > s.retention)
      ensures f.digest !in Names(left)
    {
      OrphanIsGone(files, left, log, now, s, f);
    }
    forall f | f in files && !f.proper ensures f.digest !in Names(left) { StrayIsGone(files, left, log, now, s, f); }
  }

  lemma YoungIsPresent(files: seq<PayloadFile>, left: seq<PayloadFile>, log: seq<Line>, now: int, s: Settings, f: PayloadFile, t: int)
    requires UniquelyNamed(files) && Decided(files, left, log, now, s) && forall g :: g in left ==> g in files
    requires f in files && f.proper && MentionedAt(log, f, Some(t)) && s.retention > 0 && now - t <= s.retention
    ensures f.digest in Names(left)
  {
    assert YoungMention(log, f, now, s.retention);
    NameOfOne(files, left, f);
  }

  lemma OldIsGone(files: seq<PayloadFile>, left: seq<PayloadFile>, log: seq<Line>, now: int, s: Settings, f: PayloadFile)
    requires UniquelyNamed(files) && Decided(files, left, log, now, s) && forall g :: g in left ==> g in files
    requires f in files && exists t :: MentionedAt(log, f, t)
    requires forall t :: MentionedAt(log, f, t) ==> t == None || s.retention <= 0 || now - t.value > s.retention
    ensures f.digest !in Names(left)
  {
    assert AnyMention(log, f) && !MayStay(log, f, now, s.retention);
    NameOfOne(files, left, f);
  }

  lemma OrphanIsGone(files: seq<PayloadFile>, left: seq<PayloadFile>, log: seq<Line>, now: int, s: Settings, f: PayloadFile)
    requires UniquelyNamed(files) && Decided(files, left, log, now, s) && forall g :: g in left ==> g in files
    requires f in files && !(exists t :: MentionedAt(log, f, t)) && (s.retention <= 0 || now - f.mtime > s.retention)
    ensures f.digest !in Names(left)
  {
    assert !MayStay(log, f, now, s.retention);
    NameOfOne(files, left, f);
  }

  lemma StrayIsGone(files: seq<PayloadFile>, left: seq<PayloadFile>, log: seq<Line>, now: int, s: Settings, f: PayloadFile)
    requires UniquelyNamed(files) && Decided(files, left, log, now, s) && forall g :: g in left ==> g in files
    requires f in files && !f.proper
    ensures f.digest !in Names(left)
  {
    assert !MayStay(log, f, now, s.retention);
    NameOfOne(files, left, f);
  }
}
