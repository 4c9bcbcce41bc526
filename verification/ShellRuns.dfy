/** Whole runs of one shell job under one controller: operations in separate steps, shells that
    finish or die at any time, transactions that fail before or after their primary write, and
    cancellation or a controller crash anywhere. Operations of one session hold its lifecycle lock,
    so at most one is in progress. */
module ShellRuns {
  import opened Common
  import opened JobState
  import opened Reconciliation
  import opened Retention
  import opened ShellJobs

  datatype Purpose = ForRefresh | ForTail | ForStop | ForRetry

  /** What the operation in progress has done so far. */
  datatype Op =
    | Idle
    | Seen(purpose: Purpose, inventory: Option<set<ShellName>>)
    | TailUnread(listed: set<ShellName>, shell: ShellName)
    | StartPublished(token: nat)
    | StartRaised(token: nat)
    | StartLaunched(token: nat)
    | StartUndone(token: nat)
    | StopPublished(token: nat, target: Option<ShellName>)
    | StopJudged(token: nat, target: Option<ShellName>, gone: bool, raised: bool)
    | RetryPublished(token: nat, n: nat)
    | RetryPrepared(token: nat, n: nat)
    | RetryReady(token: nat, n: nat)
    | RetryRaised(token: nat, n: nat)
    | RetryLaunched(token: nat, n: nat)
    | RetryUndone(token: nat, n: nat)

  /** `alive`: attempts whose shell exists; `going`: attempts whose runner has not ended; `launched`
      and `used` are history. */
  datatype World = World(
    key: JobKey, row: Option<JobRow>, alive: set<nat>, going: set<nat>, launched: set<nat>,
    records: map<AttemptPath, Completion>, tokens: set<nat>, used: set<nat>, op: Op)

  /** `saved`: the primary file was replaced; `raises`: the transaction ends with an exception. */
  datatype Step =
    | TakeInventory(purpose: Purpose, inventory: Option<set<ShellName>>)
    | PublishStart(token: nat, now: int, raises: bool)
    | LaunchStart(ok: bool)
    | RefuseStart(saved: bool, now: int)
    | CommitStart(saved: bool, raises: bool, now: int)
    | UndoLaunch(killed: bool, unlinked: bool)
    | RefreshRow(saved: bool, unread: bool, now: int)
    | FailTail(saved: bool, now: int)
    | PublishStop(token: nat, saved: bool, raises: bool, now: int)
    | KillShell(killed: bool, raised: bool, after: Option<set<ShellName>>)
    | CommitStop(saved: bool, stderr: string, now: int)
    | PublishRetry(token: nat, saved: bool, raises: bool, now: int)
    | PrepareRetry(ok: bool)
    | StorePaths(saved: bool, raises: bool)
    | LaunchRetry(ok: bool)
    | RefuseRetry(saved: bool, now: int)
    | CommitRetry(saved: bool, raises: bool, now: int)
    | Abandon
    | Crash
    | RunnerEnds(attempt: nat, completion: Completion)
    | ShellDies(attempt: nat)
    | Prune

  function Name(w: World, n: nat): ShellName { ShellName(w.key.job, n) }

  function StatusPath(w: World, n: nat): AttemptPath { AttemptPath(w.key.job, n, StatusPart) }

  /** An inventory that lists exactly this job's existing shells, whatever else it lists. */
  ghost predicate Authoritative(inventory: set<ShellName>, w: World) {
    forall n :: Name(w, n) in inventory <==> n in w.alive
  }

  function Env(w: World, inventory: Option<set<ShellName>>, now: int): Environment {
    Environment(inventory, w.records, w.tokens, false, Unknown, now)
  }

  function Done(w: World): World
  { w.(op := Idle, tokens := {}) }

  ghost predicate Enabled(w: World, s: Step) {
    match s
    case TakeInventory(purpose, inventory) =>
      w.op.Idle? && w.row.Some? && (inventory.Some? ==> Authoritative(inventory.value, w))
    case PublishStart(token, now, raises) => w.op.Idle? && w.row.None? && w.launched == {} && w.used == {}
    case LaunchStart(ok) => w.op.StartPublished?
    case RefuseStart(saved, now) => w.op.StartRaised? && (saved ==> w.row.Some?)
    case CommitStart(saved, raises, now) => w.op.StartLaunched? && (saved ==> w.row.Some?) && (!saved ==> raises)
    case UndoLaunch(killed, unlinked) => w.op.StartUndone? || w.op.RetryUndone?
    case RefreshRow(saved, unread, now) =>
      w.op.Seen? && w.op.purpose in {ForRefresh, ForTail} && (saved ==> w.row.Some?)
      && (unread ==>
          && saved && w.op.purpose == ForTail && w.op.inventory.Some?
          && Refresh(w.row.value, Env(w, w.op.inventory, now)).current.shell.Some?)
    case FailTail(saved, now) => w.op.TailUnread? && (saved ==> w.row.Some?)
    case PublishStop(token, saved, raises, now) =>
      w.op.Seen? && w.op.purpose == ForStop && token !in w.used && (saved ==> w.row.Some?) && (!saved ==> raises)
    case KillShell(killed, raised, after) =>
      && w.op.StopPublished? && !(killed && raised)
      && (killed ==> after.None?)
      && (after.Some? ==> Authoritative(after.value, w))
    case CommitStop(saved, stderr, now) => w.op.StopJudged? && (saved ==> w.row.Some?)
    case PublishRetry(token, saved, raises, now) =>
      w.op.Seen? && w.op.purpose == ForRetry && token !in w.used && (saved ==> w.row.Some?) && (!saved ==> raises)
    case PrepareRetry(ok) => w.op.RetryPublished?
    case StorePaths(saved, raises) => w.op.RetryPrepared? && (saved ==> w.row.Some?) && (!saved ==> raises)
    case LaunchRetry(ok) => w.op.RetryReady?
    case RefuseRetry(saved, now) => w.op.RetryRaised? && (saved ==> w.row.Some?)
    case CommitRetry(saved, raises, now) => w.op.RetryLaunched? && (saved ==> w.row.Some?) && (!saved ==> raises)
    case Abandon => !w.op.Idle?
    case Crash => true
    case RunnerEnds(attempt, completion) => attempt in w.going
    case ShellDies(attempt) => attempt in w.alive
    case Prune => w.row.Some? && RetentionTerminal(w.row.value)
  }

  function Launch(w: World, n: nat): World {
    w.(alive := w.alive + {n}, going := w.going + {n}, launched := w.launched + {n})
  }

  function Kill(w: World, n: nat): World {
    w.(alive := w.alive - {n}, going := w.going - {n})
  }

  /** The attempt whose shell has this name, if the name is one of this job's. */
  function AttemptNamed(w: World, shell: Option<ShellName>): set<nat> {
    if shell.Some? && shell.value.job == w.key.job then {shell.value.attempt} else {}
  }

  function PublishedStop(w: World, s: Step): World
    requires s.PublishStop? && w.row.Some? && w.op.Seen?
  {
    var st := StopStaged(w.row.value, Env(w, w.op.inventory, s.now), s.token);
    var v := w.(row := Some(st.row), used := w.used + {s.token});
    if st.proceeds && !s.raises then v.(op := StopPublished(s.token, st.row.current.shell), tokens := {s.token})
    else Done(v)
  }

  function PublishedRetry(w: World, s: Step): World
    requires s.PublishRetry? && w.row.Some? && w.op.Seen?
  {
    var st := RetryStaged(w.row.value, Env(w, w.op.inventory, s.now), s.token);
    var v := w.(row := Some(st.row), used := w.used + {s.token});
    if st.proceeds && !s.raises && st.row.pending.number.Some?
    then v.(op := RetryPublished(s.token, st.row.pending.number.value), tokens := {s.token})
    else Done(v)
  }

  function Take(w: World, s: Step): World
    requires Enabled(w, s)
  {
    match s
    case TakeInventory(purpose, inventory) => w.(op := Seen(purpose, inventory))
    case PublishStart(token, now, raises) =>
      var v := w.(row := Some(StartingRow(w.key, token, now)), used := w.used + {token});
      if raises then Done(v) else v.(op := StartPublished(token), tokens := {token})
    case LaunchStart(ok) =>
      if ok then Launch(w, 1).(op := StartLaunched(w.op.token)) else w.(op := StartRaised(w.op.token))
    case RefuseStart(saved, now) =>
      var v := w.(records := w.records - {StatusPath(w, 1)});
      Done(if saved then v.(row := Some(StartRefused(w.row.value, w.op.token, "start failed", now))) else v)
    case CommitStart(saved, raises, now) =>
      var changed := w.row.None? || !StagedAs(w.row.value, Starting, w.op.token);
      var v := if saved then w.(row := Some(StartCommitted(w.row.value, w.op.token, Name(w, 1), now))) else w;
      if raises || changed then v.(op := StartUndone(w.op.token)) else Done(v)
    case UndoLaunch(killed, unlinked) =>
      var n := if w.op.StartUndone? then 1 else w.op.n;
      var v := if killed then Kill(w, n) else w;
      Done(if unlinked then v.(records := w.records - {StatusPath(w, n)}) else v)
    case RefreshRow(saved, unread, now) =>
      if !saved then Done(w)
      else
        var r := Refresh(w.row.value, Env(w, w.op.inventory, now));
        if unread then w.(row := Some(r), op := TailUnread(w.op.inventory.value, r.current.shell.value))
        else Done(w.(row := Some(r)))
    case FailTail(saved, now) =>
      Done(if saved then w.(row := Some(TailFailed(w.row.value, w.op.shell, w.op.listed, "capture failed", now))) else w)
    case PublishStop(token, saved, raises, now) =>
      if saved then PublishedStop(w, s) else Done(w.(used := w.used + {token}))
    case KillShell(killed, raised, after) =>
      var n := AttemptNamed(w, w.op.target);
      var gone := killed || (after.Some? && ShellLiveness(w.op.target, after) != Live);
      var v := if killed then w.(alive := w.alive - n, going := w.going - n) else w;
      v.(op := StopJudged(w.op.token, w.op.target, gone, raised))
    case CommitStop(saved, stderr, now) =>
      Done(if !saved then w
           else if w.op.raised then w.(row := Some(StopErrorCommitted(w.row.value, w.op.token, w.op.target, w.op.gone, stderr, now)))
           else w.(row := Some(StopCommitted(w.row.value, w.op.token, w.op.target, w.op.gone, stderr, now))))
    case PublishRetry(token, saved, raises, now) =>
      if saved then PublishedRetry(w, s) else Done(w.(used := w.used + {token}))
    case PrepareRetry(ok) =>
      if ok then w.(records := w.records - {StatusPath(w, w.op.n)}, op := RetryPrepared(w.op.token, w.op.n))
      else w.(op := RetryRaised(w.op.token, w.op.n))
    case StorePaths(saved, raises) =>
      var failed := w.(op := RetryRaised(w.op.token, w.op.n));
      if !saved then failed
      else
        var st := RetryPathsStored(w.row.value, w.op.token, w.op.n);
        if !st.proceeds then failed
        else if raises then failed.(row := Some(st.row))
        else w.(row := Some(st.row), op := RetryReady(w.op.token, w.op.n))
    case LaunchRetry(ok) =>
      if ok then Launch(w, w.op.n).(op := RetryLaunched(w.op.token, w.op.n))
      else w.(op := RetryRaised(w.op.token, w.op.n))
    case RefuseRetry(saved, now) =>
      var v := w.(records := w.records - {StatusPath(w, w.op.n)});
      Done(if saved then v.(row := Some(RetryRefused(w.row.value, w.op.token, "retry failed", now))) else v)
    case CommitRetry(saved, raises, now) =>
      var changed := w.row.None? || !StagedAs(w.row.value, Retrying, w.op.token);
      var v := if saved then w.(row := Some(RetryCommitted(w.row.value, w.op.token, Name(w, w.op.n), now))) else w;
      if raises || changed then v.(op := RetryUndone(w.op.token, w.op.n))
      else Done(v.(records := map p | p in w.records && p == StatusPath(w, w.op.n) :: w.records[p]))
    case Abandon => Done(w)
    case Crash => Done(w)
    case RunnerEnds(attempt, completion) =>
      w.(going := w.going - {attempt}, records := w.records[StatusPath(w, attempt) := completion])
    case ShellDies(attempt) => Kill(w, attempt)
    case Prune => w.(row := None, records := map[])
  }

  function Start(key: JobKey): World {
    World(key, None, {}, {}, {}, map[], {}, {}, Idle)
  }

  ghost predicate Run(states: seq<World>, steps: seq<Step>) {
    && |states| == |steps| + 1
    && states[0] == Start(states[0].key)
    && forall i :: 0 <= i < |steps| ==> Enabled(states[i], steps[i]) && states[i + 1] == Take(states[i], steps[i])
  }

  // ----- the invariant

  /** The attempt fields belong together as the row's status says. */
  ghost predicate Coherent(r: JobRow) {
    && r.kind == Shell
    && r.current.number.Some? && r.current.number.value >= 1
    && (r.status in {Starting, Running, Stopping, Lost} ==> r.current == AttemptOf(r.key.job, r.current.number.value))
    && (r.status == Starting ==> r.current.number.value == 1)
    && (r.status != Retrying ==> r.pending == NO_ATTEMPT)
    && (r.status == Retrying ==>
        && r.pending.number == Some(r.current.number.value + 1)
        && (r.pending == AttemptOf(r.key.job, r.pending.number.value)
            || r.pending == NO_ATTEMPT.(number := r.pending.number, shell := Some(ShellName(r.key.job, r.pending.number.value)))))
  }

  /** The attempt number a row stands for: the pending one while retrying. */
  function Top(r: JobRow): nat {
    if r.status == Retrying && r.pending.number.Some? then r.pending.number.value
    else if r.current.number.Some? then r.current.number.value
    else 0
  }

  ghost predicate RowOk(w: World, r: JobRow) {
    && r.key == w.key && Coherent(r)
    && (forall n :: n in w.launched ==> n <= Top(r))
    && (r.status == Retrying && Top(r) in w.launched ==> r.pending == AttemptOf(w.key.job, Top(r)))
    && (forall n :: n in w.going ==> r.status.Active() && n == Top(r))
    && (r.operation.Some? ==> r.operation.value.id in w.used)
  }

  ghost predicate OpOk(w: World) {
    match w.op
    case Idle => w.tokens == {}
    case Seen(_, inventory) =>
      w.tokens == {} && (inventory.Some? ==> forall n ::
        (n in w.alive ==> Name(w, n) in inventory.value) && (Name(w, n) in inventory.value ==> n in w.launched))
    case TailUnread(listed, _) => w.tokens == {} && forall n :: n in w.alive ==> Name(w, n) in listed
    case StartPublished(t) => w.tokens == {t} && w.row.Some? && StagedAs(w.row.value, Starting, t) && w.launched == {}
    case StartRaised(t) => w.tokens == {t} && w.row.Some? && StagedAs(w.row.value, Starting, t) && w.launched == {}
    case StartLaunched(t) => w.tokens == {t} && w.row.Some? && StagedAs(w.row.value, Starting, t)
    case StartUndone(t) => true
    case StopPublished(t, target) =>
      w.tokens == {t} && w.row.Some? && StagedAs(w.row.value, Stopping, t) && w.row.value.current.shell == target
    case StopJudged(t, target, gone, _) =>
      && w.tokens == {t} && w.row.Some? && StagedAs(w.row.value, Stopping, t) && w.row.value.current.shell == target
      && (gone ==> Top(w.row.value) !in w.alive)
    case RetryPublished(t, n) =>
      w.tokens == {t} && w.row.Some? && StagedAs(w.row.value, Retrying, t) && Top(w.row.value) == n && n !in w.launched
    case RetryPrepared(t, n) =>
      w.tokens == {t} && w.row.Some? && StagedAs(w.row.value, Retrying, t) && Top(w.row.value) == n && n !in w.launched
    case RetryReady(t, n) =>
      && w.tokens == {t} && w.row.Some? && StagedAs(w.row.value, Retrying, t) && Top(w.row.value) == n && n !in w.launched
      && w.row.value.pending == AttemptOf(w.key.job, n)
    case RetryRaised(t, n) =>
      w.tokens == {t} && w.row.Some? && StagedAs(w.row.value, Retrying, t) && Top(w.row.value) == n && n !in w.launched
    case RetryLaunched(t, n) =>
      && w.tokens == {t} && w.row.Some? && StagedAs(w.row.value, Retrying, t) && Top(w.row.value) == n
      && w.row.value.pending == AttemptOf(w.key.job, n)
    case RetryUndone(t, n) => true
  }

  ghost predicate Good(w: World) {
    && w.going <= w.alive <= w.launched
    && w.tokens <= w.used
    && (forall p :: p in w.records ==> p == StatusPath(w, p.attempt) && p.attempt in w.launched && p.attempt !in w.going)
    && (w.row.None? ==> w.going == {})
    && (w.row.Some? ==> RowOk(w, w.row.value))
    && (w.op.StartPublished? || w.op.StartLaunched? || w.op.StopPublished? || w.op.RetryPublished? ==> w.op.token in w.used)
    && OpOk(w)
  }

  // ----- one refresh

  ghost predicate Informed(w: World, inventory: Option<set<ShellName>>) {
    inventory.Some? ==> forall n ::
      (n in w.alive ==> Name(w, n) in inventory.value) && (Name(w, n) in inventory.value ==> n in w.launched)
  }

  ghost predicate RecordsOk(w: World) {
    forall p :: p in w.records ==> p == StatusPath(w, p.attempt) && p.attempt in w.launched && p.attempt !in w.going
  }

  /** Where a refreshed row may end up, in terms of attempts. */
  lemma RefreshedAttempts(w: World, r: JobRow, inventory: Option<set<ShellName>>, now: int)
    requires RowOk(w, r) && RecordsOk(w) && Informed(w, inventory) && w.tokens == {}
    ensures var s := Refresh(r, Env(w, inventory, now));
      && s.key == w.key && Coherent(s) && Top(s) == Top(r)
      && (r.status == Retrying && s.status == Running ==> s.current == AttemptOf(w.key.job, Top(r)))
  {
    if r.status == Retrying {
      RefreshedRetry(w, r, inventory, now);
    } else {
      PlainOutcome(r, Env(w, inventory, now));
    }
  }

  /** Any other row keeps its attempts, and never comes to be staged. */
  lemma PlainOutcome(r: JobRow, e: Environment)
    requires Coherent(r) && r.status != Retrying
    ensures var s := Refresh(r, e);
      s.key == r.key && Coherent(s) && Top(s) == Top(r)
  {
    PlainKeepsAttempts(r, e);
  }

  lemma PlainKeepsAttempts(r: JobRow, e: Environment)
    requires r.kind == Shell && r.status != Retrying && r.pending == NO_ATTEMPT
    ensures var s := Refresh(r, e);
      && s.key == r.key && s.kind == r.kind && s.current == r.current && s.pending == r.pending
      && (s.status == r.status || s.status !in {Starting, Stopping, Retrying})
      && (r.status.Active() || r.status == Lost || s.status == r.status)
  {
    RefreshKeepsIdentity(r, e);
  }

  lemma RefreshedRetry(w: World, r: JobRow, inventory: Option<set<ShellName>>, now: int)
    requires RowOk(w, r) && RecordsOk(w) && Informed(w, inventory) && w.tokens == {}
    requires r.status == Retrying
    ensures var s := Refresh(r, Env(w, inventory, now));
      && s.key == w.key && Coherent(s) && Top(s) == Top(r)
      && (s.status == Running ==> s.current == AttemptOf(w.key.job, Top(r)))
  {
    var n := Top(r);
    assert ShellLiveness(r.pending.shell, inventory) == Live ==> n in w.launched;
    RetryOutcome(r, Env(w, inventory, now));
  }

  /** The row has taken its pending attempt over and is no longer retrying. */
  ghost predicate TookOver(r: JobRow, s: JobRow) {
    && s.key == r.key && Coherent(s) && Top(s) == Top(r)
    && (s.status == Running ==> s.current == AttemptOf(r.key.job, Top(r)))
  }

  lemma RetryFinished(r: JobRow, e: Environment)
    requires Coherent(r) && r.status == Retrying && e.tokens == {}
    requires ReadStatus(r.pending.status, e.records).Some?
    ensures TookOver(r, Refresh(r, e))
  {
  }

  lemma RetryFoundLive(r: JobRow, e: Environment)
    requires Coherent(r) && r.status == Retrying && e.tokens == {}
    requires ReadStatus(r.pending.status, e.records).None?
    requires ShellLiveness(r.pending.shell, e.inventory) == Live && r.pending == AttemptOf(r.key.job, Top(r))
    ensures TookOver(r, Refresh(r, e))
  {
  }

  lemma RetryNotFound(r: JobRow, e: Environment)
    requires Coherent(r) && r.status == Retrying && e.tokens == {}
    requires ReadStatus(r.pending.status, e.records).None? && ShellLiveness(r.pending.shell, e.inventory) != Live
    ensures TookOver(r, Refresh(r, e))
  {
  }

  /** What becomes of a retrying row this process does not work on, when its shell is live only with all
      its paths stored. */
  lemma RetryOutcome(r: JobRow, e: Environment)
    requires Coherent(r) && r.status == Retrying && e.tokens == {}
    requires ShellLiveness(r.pending.shell, e.inventory) == Live ==> r.pending == AttemptOf(r.key.job, Top(r))
    ensures TookOver(r, Refresh(r, e))
  {
    if ReadStatus(r.pending.status, e.records).Some? {
      RetryFinished(r, e);
    } else if ShellLiveness(r.pending.shell, e.inventory) == Live {
      RetryFoundLive(r, e);
    } else {
      RetryNotFound(r, e);
    }
  }

  /** An attempt whose runner is going keeps its row active through a refresh. */
  lemma RefreshedStaysActive(w: World, r: JobRow, inventory: Option<set<ShellName>>, now: int, n: nat)
    requires RowOk(w, r) && RecordsOk(w) && Informed(w, inventory) && w.tokens == {}
    requires n in w.going && w.going <= w.alive
    ensures Refresh(r, Env(w, inventory, now)).status.Active()
  {
    var e := Env(w, inventory, now);
    assert StatusPath(w, n) !in w.records;
    if r.status == Retrying {
      assert ReadStatus(r.pending.status, w.records).None?;
      assert inventory.Some? ==> ShellLiveness(r.pending.shell, inventory) == Live;
    } else {
      assert r.current == AttemptOf(w.key.job, n);
      assert ReadStatus(r.current.status, w.records).None?;
      assert inventory.Some? ==> ShellLiveness(r.current.shell, inventory) == Live;
    }
  }

  lemma RefreshOk(w: World, r: JobRow, inventory: Option<set<ShellName>>, now: int)
    requires RowOk(w, r) && RecordsOk(w) && Informed(w, inventory) && w.tokens == {} && w.going <= w.alive
    ensures RowOk(w, Refresh(r, Env(w, inventory, now)))
  {
    var s := Refresh(r, Env(w, inventory, now));
    RefreshedAttempts(w, r, inventory, now);
    RefreshKeepsIdentity(r, Env(w, inventory, now));
    forall n | n in w.going ensures s.status.Active() && n == Top(s) {
      RefreshedStaysActive(w, r, inventory, now, n);
    }
    if s.status == Retrying {
      RefreshLeavesStaged(r, Env(w, inventory, now));
    }
  }

  /** A refresh that ends in a staged status changed nothing. */
  lemma RefreshLeavesStaged(r: JobRow, e: Environment)
    requires Refresh(r, e).status in {Starting, Stopping, Retrying}
    ensures Refresh(r, e) == r
  {
    RefreshKeepsIdentity(r, e);
    RefreshTakesTheTokenOrNothing(r, e);
    StagedDecision(r, Observe(r, e));
  }

  lemma StagedDecision(r: JobRow, o: Observation)
    requires r.status in {Starting, Stopping, Retrying}
    ensures ReconcileJob(r, o) == KEEP || ReconcileJob(r, o).updates.status.Some?
  {
  }

  // ----- each step keeps the invariant

  lemma GoodBeginStart(w: World, s: Step)
    requires Good(w) && Enabled(w, s) && (s.PublishStart? || s.LaunchStart?)
    ensures Good(Take(w, s))
  {
  }

  lemma GoodRefuseStart(w: World, s: Step)
    requires Good(w) && Enabled(w, s) && s.RefuseStart?
    ensures Good(Take(w, s))
  {
  }

  lemma GoodCommitStart(w: World, s: Step)
    requires Good(w) && Enabled(w, s) && s.CommitStart?
    ensures Good(Take(w, s))
  {
  }

  lemma GoodUndo(w: World, s: Step)
    requires Good(w) && Enabled(w, s) && s.UndoLaunch?
    ensures Good(Take(w, s))
  {
  }

  lemma GoodInventory(w: World, s: Step)
    requires Good(w) && Enabled(w, s) && s.TakeInventory?
    ensures Good(Take(w, s))
  {
  }

  lemma GoodRefresh(w: World, s: Step)
    requires Good(w) && Enabled(w, s) && s.RefreshRow?
    ensures Good(Take(w, s))
  {
    if s.saved {
      RefreshOk(w, w.row.value, w.op.inventory, s.now);
    }
  }

  lemma GoodTail(w: World, s: Step)
    requires Good(w) && Enabled(w, s) && s.FailTail?
    ensures Good(Take(w, s))
  {
    if s.saved {
      var r := w.row.value;
      var t := TailFailed(r, w.op.shell, w.op.listed, "capture failed", s.now);
      forall n | n in w.going ensures t.status.Active() && n == Top(t) {
        assert Name(w, n) in w.op.listed;
      }
    }
  }

  /** What staging a stop may have done to the refreshed row. */
  ghost predicate StopShape(job: JobRow, st: Staging, token: nat) {
    && st.row.key == job.key && st.row.kind == job.kind && st.row.current == job.current && st.row.pending == job.pending
    && (st.row == job || (job.status in {Running, Lost} && st.row.status in {Running, Stopped, Stopping}))
    && (job.status == Running ==> st.row.status in {Running, Stopping})
    && (st.row.operation == job.operation || st.row.operation == Some(Operation(token, StopOp)))
    && (st.proceeds ==> StagedAs(st.row, Stopping, token))
  }

  lemma StopStagedShape(r: JobRow, e: Environment, token: nat)
    ensures StopShape(Refresh(r, e), StopStaged(r, e, token), token)
  {
    var job := Refresh(r, e);
  }

  lemma StopStagedOk(w: World, job: JobRow, token: nat, st: Staging)
    requires RowOk(w, job) && (job.status == Lost ==> w.going == {}) && StopShape(job, st, token)
    ensures RowOk(w.(used := w.used + {token}), st.row)
  {
  }

  lemma GoodPublishStop(w: World, s: Step)
    requires Good(w) && Enabled(w, s) && s.PublishStop?
    ensures Good(Take(w, s))
  {
    if s.saved {
      var r := w.row.value;
      var e := Env(w, w.op.inventory, s.now);
      RefreshOk(w, r, w.op.inventory, s.now);
      assert Refresh(r, e).status == Lost ==> w.going == {} by {
        assert forall n :: n in w.going ==> Refresh(r, e).status.Active();
      }
      StopStagedShape(r, e, s.token);
      StopStagedOk(w, Refresh(r, e), s.token, StopStaged(r, e, s.token));
      StoppedWorld(w, s, StopStaged(r, e, s.token));
    }
  }

  lemma StoppedWorld(w: World, s: Step, st: Staging)
    requires Good(w) && Enabled(w, s) && s.PublishStop? && s.saved
    requires st == StopStaged(w.row.value, Env(w, w.op.inventory, s.now), s.token)
    requires RowOk(w.(used := w.used + {s.token}), st.row)
    requires st.proceeds ==> StagedAs(st.row, Stopping, s.token)
    ensures Good(Take(w, s))
  {
    var v := w.(row := Some(st.row), used := w.used + {s.token});
    assert RowOk(v, st.row);
  }

  lemma GoodKill(w: World, s: Step)
    requires Good(w) && Enabled(w, s) && s.KillShell?
    ensures Good(Take(w, s))
  {
    var n := Top(w.row.value);
    assert w.op.target == Some(Name(w, n));
  }

  lemma CommittedStopRow(w: World, r: JobRow, token: nat, gone: bool, text: string, now: int)
    requires RowOk(w, r) && StagedAs(r, Stopping, token) && (gone ==> w.going == {})
    ensures RowOk(w, StopCommitted(r, token, r.current.shell, gone, text, now))
    ensures RowOk(w, StopErrorCommitted(r, token, r.current.shell, gone, text, now))
  {
  }

  lemma GoodCommitStop(w: World, s: Step)
    requires Good(w) && Enabled(w, s) && s.CommitStop?
    ensures Good(Take(w, s))
  {
    if s.saved {
      var r := w.row.value;
      assert w.op.gone ==> w.going == {} by { assert forall n :: n in w.going ==> n == Top(r) && n in w.alive; }
      CommittedStopRow(w, r, w.op.token, w.op.gone, s.stderr, s.now);
      Rewritten(w, StopCommitted(r, w.op.token, w.op.target, w.op.gone, s.stderr, s.now));
      Rewritten(w, StopErrorCommitted(r, w.op.token, w.op.target, w.op.gone, s.stderr, s.now));
    }
  }

  /** An operation that ends with the row rewritten. */
  lemma Rewritten(w: World, r: JobRow)
    requires Good(w) && w.row.Some? && RowOk(w, r)
    ensures Good(Done(w.(row := Some(r))))
  {
    assert RowOk(Done(w.(row := Some(r))), r);
  }

  /** A staged retry: the refreshed row with the next number pending and nothing running. */
  lemma RetryStagedOk(w: World, r: JobRow, token: nat, now: int)
    requires Good(w) && w.row == Some(r) && w.op.Seen?
    ensures var st := RetryStaged(r, Env(w, w.op.inventory, now), token);
      && RowOk(w.(used := w.used + {token}), st.row)
      && (st.proceeds ==> StagedAs(st.row, Retrying, token) && Top(st.row) !in w.launched)
  {
    var e := Env(w, w.op.inventory, now);
    RefreshOk(w, r, w.op.inventory, now);
    var job := Refresh(r, e);
    var st := RetryStaged(r, e, token);
    if st.proceeds {
      assert w.going == {} by { assert forall n :: n in w.going ==> job.status.Active(); }
      assert Top(st.row) == Top(job) + 1;
      assert Coherent(st.row);
    }
  }

  lemma GoodPublishRetry(w: World, s: Step)
    requires Good(w) && Enabled(w, s) && s.PublishRetry?
    ensures Good(Take(w, s))
  {
    if s.saved {
      RetryStagedOk(w, w.row.value, s.token, s.now);
      var v := w.(used := w.used + {s.token});
      var st := RetryStaged(w.row.value, Env(w, w.op.inventory, s.now), s.token);
      assert RowOk(v, st.row);
    }
  }

  lemma GoodPrepareRetry(w: World, s: Step)
    requires Good(w) && Enabled(w, s) && s.PrepareRetry?
    ensures Good(Take(w, s))
  {
  }

  lemma PathsStoredRow(w: World, r: JobRow, token: nat, n: nat)
    requires RowOk(w, r) && StagedAs(r, Retrying, token) && Top(r) == n && n !in w.launched
    ensures var st := RetryPathsStored(r, token, n);
      && st.proceeds && RowOk(w, st.row) && StagedAs(st.row, Retrying, token) && Top(st.row) == n
      && st.row.pending == AttemptOf(w.key.job, n)
  {
  }

  lemma GoodStorePaths(w: World, s: Step)
    requires Good(w) && Enabled(w, s) && s.StorePaths?
    ensures Good(Take(w, s))
  {
    if s.saved { PathsStoredRow(w, w.row.value, w.op.token, w.op.n); }
  }

  lemma LaunchedRow(w: World, r: JobRow, n: nat)
    requires RowOk(w, r) && w.going <= w.launched && r.status == Retrying && Top(r) == n && n !in w.launched
    requires r.pending == AttemptOf(w.key.job, n)
    ensures RowOk(Launch(w, n), r)
  {
  }

  lemma GoodLaunchRetry(w: World, s: Step)
    requires Good(w) && Enabled(w, s) && s.LaunchRetry?
    ensures Good(Take(w, s))
  {
    LaunchedRow(w, w.row.value, w.op.n);
  }

  lemma GoodRefuseRetry(w: World, s: Step)
    requires Good(w) && Enabled(w, s) && s.RefuseRetry?
    ensures Good(Take(w, s))
  {
    var r := w.row.value;
    assert w.going == {} by { assert forall n :: n in w.going ==> n == Top(r) && n in w.launched; }
  }

  lemma CommittedRetryRow(w: World, r: JobRow, token: nat, n: nat, now: int)
    requires RowOk(w, r) && StagedAs(r, Retrying, token) && r.pending == AttemptOf(w.key.job, n) && Top(r) == n
    ensures RowOk(w, RetryCommitted(r, token, Name(w, n), now))
  {
  }

  lemma GoodCommitRetry(w: World, s: Step)
    requires Good(w) && Enabled(w, s) && s.CommitRetry?
    ensures Good(Take(w, s))
  {
    if s.saved { CommittedRetryRow(w, w.row.value, w.op.token, w.op.n, s.now); }
  }

  lemma GoodDrop(w: World, s: Step)
    requires Good(w) && Enabled(w, s) && (s.Abandon? || s.Crash? || s.Prune?)
    ensures Good(Take(w, s))
  {
    if s.Prune? {
      assert w.going == {} by { assert forall n :: n in w.going ==> w.row.value.status.Active(); }
    }
  }

  lemma GoodOutside(w: World, s: Step)
    requires Good(w) && Enabled(w, s) && (s.RunnerEnds? || s.ShellDies?)
    ensures Good(Take(w, s))
  {
  }

  lemma GoodStep(w: World, s: Step)
    requires Good(w) && Enabled(w, s)
    ensures Good(Take(w, s))
  {
    if s.PublishStart? || s.LaunchStart? { GoodBeginStart(w, s); }
    else if s.RefuseStart? { GoodRefuseStart(w, s); }
    else if s.CommitStart? { GoodCommitStart(w, s); }
    else if s.PublishRetry? || s.PrepareRetry? || s.StorePaths? || s.LaunchRetry? || s.RefuseRetry? || s.CommitRetry? {
      GoodRetryStep(w, s);
    } else {
      GoodOtherStep(w, s);
    }
  }

  lemma GoodRetryStep(w: World, s: Step)
    requires Good(w) && Enabled(w, s)
    requires s.PublishRetry? || s.PrepareRetry? || s.StorePaths? || s.LaunchRetry? || s.RefuseRetry? || s.CommitRetry?
    ensures Good(Take(w, s))
  {
    match s
    case PublishRetry(_, _, _, _) => GoodPublishRetry(w, s);
    case PrepareRetry(_) => GoodPrepareRetry(w, s);
    case StorePaths(_, _) => GoodStorePaths(w, s);
    case LaunchRetry(_) => GoodLaunchRetry(w, s);
    case RefuseRetry(_, _) => GoodRefuseRetry(w, s);
    case CommitRetry(_, _, _) => GoodCommitRetry(w, s);
  }

  lemma GoodOtherStep(w: World, s: Step)
    requires Good(w) && Enabled(w, s)
    requires !s.PublishStart? && !s.LaunchStart? && !s.RefuseStart? && !s.CommitStart?
    requires !s.PublishRetry? && !s.PrepareRetry? && !s.StorePaths? && !s.LaunchRetry? && !s.RefuseRetry? && !s.CommitRetry?
    ensures Good(Take(w, s))
  {
    match s
    case TakeInventory(_, _) => GoodInventory(w, s);
    case UndoLaunch(_, _) => GoodUndo(w, s);
    case RefreshRow(_, _, _) => GoodRefresh(w, s);
    case FailTail(_, _) => GoodTail(w, s);
    case PublishStop(_, _, _, _) => GoodPublishStop(w, s);
    case KillShell(_, _, _) => GoodKill(w, s);
    case CommitStop(_, _, _) => GoodCommitStop(w, s);
    case RunnerEnds(_, _) => GoodOutside(w, s);
    case ShellDies(_) => GoodOutside(w, s);
    case _ => GoodDrop(w, s);
  }
}
