/** What every run of a shell job guarantees, and what other processes cannot do to it. */
module ShellTheorems {
  import opened Common
  import opened JobState
  import opened Reconciliation
  import opened Retention
  import opened ShellJobs
  import opened ShellRuns

  lemma {:induction false} RunsAreGood(states: seq<World>, steps: seq<Step>, i: nat)
    requires Run(states, steps) && i < |states|
    ensures Good(states[i])
  {
    if i > 0 {
      RunsAreGood(states, steps, i - 1);
      GoodStep(states[i - 1], steps[i - 1]);
    }
  }

  /** No orphan: in every state of every run, an attempt whose runner is still going is named by its
      job's row while that row is active, so pruning cannot drop the row. */
  lemma NoOrphanedAttempt(states: seq<World>, steps: seq<Step>, i: nat, n: nat)
    requires Run(states, steps) && i < |states| && n in states[i].going
    ensures states[i].row.Some?
    ensures var r := states[i].row.value;
      && r.status.Active() && !RetentionTerminal(r)
      && (r.current.shell == Some(ShellName(r.key.job, n)) || r.pending.shell == Some(ShellName(r.key.job, n)))
  {
    RunsAreGood(states, steps, i);
  }

  /** Attempt numbers are never reused: each launch uses a number above every earlier one. */
  lemma LaunchesUseFreshNumbers(states: seq<World>, steps: seq<Step>, i: nat)
    requires Run(states, steps) && i < |steps|
    ensures forall n, m :: n in states[i + 1].launched && n !in states[i].launched && m in states[i].launched ==> m < n
    ensures states[i].launched <= states[i + 1].launched
  {
    RunsAreGood(states, steps, i);
    LaunchIsFresh(states[i], steps[i]);
  }

  lemma LaunchIsFresh(w: World, s: Step)
    requires Good(w) && Enabled(w, s)
    ensures w.launched <= Take(w, s).launched
    ensures forall n, m :: n in Take(w, s).launched && n !in w.launched && m in w.launched ==> m < n
  {
    if s.LaunchRetry? && s.ok {
      forall m | m in w.launched ensures m < w.op.n {
        assert m <= Top(w.row.value);
      }
    } else if s.LaunchStart? {
      assert w.launched == {};
    }
  }

  lemma RefreshKeepsTop(w: World, inventory: Option<set<ShellName>>, now: int)
    requires Good(w) && w.row.Some? && w.op.Seen? && inventory == w.op.inventory
    ensures Top(Refresh(w.row.value, Env(w, inventory, now))) == Top(w.row.value)
    ensures Coherent(Refresh(w.row.value, Env(w, inventory, now)))
  {
    RefreshedAttempts(w, w.row.value, inventory, now);
  }

  /** The attempt number a row stands for never goes down. */
  lemma AttemptNumberNeverDrops(states: seq<World>, steps: seq<Step>, i: nat)
    requires Run(states, steps) && i < |steps|
    requires states[i].row.Some? && states[i + 1].row.Some?
    ensures Top(states[i].row.value) <= Top(states[i + 1].row.value)
  {
    RunsAreGood(states, steps, i);
    var w, s := states[i], steps[i];
    if w.op.Seen? && (s.RefreshRow? || s.PublishStop? || s.PublishRetry?) && s.saved {
      RefreshKeepsTop(w, w.op.inventory, s.now);
      var e := Env(w, w.op.inventory, s.now);
      if s.PublishStop? { StopStagedShape(w.row.value, e, s.token); }
    } else {
      DropsElsewhere(w, s);
    }
  }

  lemma DropsElsewhere(w: World, s: Step)
    requires Good(w) && Enabled(w, s) && w.row.Some? && Take(w, s).row.Some?
    requires !(w.op.Seen? && (s.RefreshRow? || s.PublishStop? || s.PublishRetry?) && s.saved)
    ensures Top(w.row.value) <= Top(Take(w, s).row.value)
  {
    if s.CommitStop? {
      DropsInStop(w, s);
    } else if s.FailTail? {
      DropsInTail(w, s);
    } else if s.CommitRetry? || s.RefuseRetry? || s.StorePaths? {
      DropsInRetry(w, s);
    }
  }

  lemma DropsInStop(w: World, s: Step)
    requires Good(w) && Enabled(w, s) && w.row.Some? && Take(w, s).row.Some?
    requires s.CommitStop?
    ensures Top(w.row.value) <= Top(Take(w, s).row.value)
  {
  }

  lemma DropsInTail(w: World, s: Step)
    requires Good(w) && Enabled(w, s) && w.row.Some? && Take(w, s).row.Some?
    requires s.FailTail?
    ensures Top(w.row.value) <= Top(Take(w, s).row.value)
  {
  }

  lemma DropsInRetry(w: World, s: Step)
    requires Good(w) && Enabled(w, s) && w.row.Some? && Take(w, s).row.Some?
    requires s.CommitRetry? || s.RefuseRetry? || s.StorePaths?
    ensures Top(w.row.value) <= Top(Take(w, s).row.value)
  {
  }

  /** No stale completion: in every state of every run, whatever the inventory, when a refresh reads a
      completion record, the record is the one the runner of the attempt number the refreshed row
      carries wrote, and the row shows that record's outcome. */
  lemma CompletionBelongsToTheRow(states: seq<World>, steps: seq<Step>, i: nat, inventory: Option<set<ShellName>>, now: int)
    requires Run(states, steps) && i < |states| && states[i].row.Some?
    ensures var w := states[i];
      var r := w.row.value;
      var e := Env(w, inventory, now);
      var o := Observe(r, e);
      (r.status.Active() || r.status == Lost) && (o.status.Some? || o.pendingStatus.Some?) ==>
        && Refresh(r, e).current.number == Some(Top(r))
        && StatusPath(w, Top(r)) in w.records && Top(r) in w.launched && Top(r) !in w.going
        && ShowsOutcome(Refresh(r, e), w.records[StatusPath(w, Top(r))])
  {
    RunsAreGood(states, steps, i);
    var w := states[i];
    var r := w.row.value;
    var e := Env(w, inventory, now);
    if r.status == Retrying {
      RetryCompletion(w, r, e);
    } else if r.status.Active() || r.status == Lost {
      PlainCompletion(w, r, e);
    }
  }

  predicate ShowsOutcome(r: JobRow, c: Completion) {
    && r.status == (if c.exitCode == Some(0) then Succeeded else Failed)
    && r.exitCode == c.exitCode && r.error == c.error
    && r.logTruncated == c.logTruncated && r.outputBytes == c.outputBytes
  }

  lemma RetryCompletion(w: World, r: JobRow, e: Environment)
    requires Good(w) && w.row == Some(r) && r.status == Retrying && e.records == w.records
    ensures Observe(r, e).status.Some? || Observe(r, e).pendingStatus.Some? ==>
      && Refresh(r, e).current.number == Some(Top(r))
      && StatusPath(w, Top(r)) in w.records && Top(r) in w.launched && Top(r) !in w.going
      && ShowsOutcome(Refresh(r, e), w.records[StatusPath(w, Top(r))])
  {
    if Observe(r, e).pendingStatus.Some? {
      assert r.pending.status == Some(StatusPath(w, Top(r)));
    }
  }

  lemma PlainCompletion(w: World, r: JobRow, e: Environment)
    requires Good(w) && w.row == Some(r) && r.status in {Starting, Running, Stopping, Lost} && e.records == w.records
    ensures Observe(r, e).status.Some? || Observe(r, e).pendingStatus.Some? ==>
      && Refresh(r, e).current.number == Some(Top(r))
      && StatusPath(w, Top(r)) in w.records && Top(r) in w.launched && Top(r) !in w.going
      && ShowsOutcome(Refresh(r, e), w.records[StatusPath(w, Top(r))])
  {
    if Observe(r, e).status.Some? {
      assert r.current.status == Some(StatusPath(w, Top(r)));
    }
  }

  /** A row that shows success has the record of its own attempt, with exit code zero. */
  ghost predicate Honest(w: World) {
    w.row.Some? && w.row.value.status == Succeeded ==>
      && StatusPath(w, Top(w.row.value)) in w.records
      && w.records[StatusPath(w, Top(w.row.value))].exitCode == Some(0) && w.row.value.exitCode == Some(0)
  }

  lemma RefreshIsHonest(w: World, inventory: Option<set<ShellName>>, now: int)
    requires Good(w) && Honest(w) && w.row.Some? && w.op.Seen? && inventory == w.op.inventory
    ensures Honest(w.(row := Some(Refresh(w.row.value, Env(w, inventory, now)))))
  {
    var r, e := w.row.value, Env(w, inventory, now);
    RefreshedAttempts(w, r, inventory, now);
    if Refresh(r, e).status == Succeeded {
      if r.status == Succeeded {
        NothingDecides(r, e);
      } else {
        NoSuccessWithoutEvidence(r, e);
        OwnRecord(w, r, e);
      }
    }
  }

  /** The record a refresh goes by is that of the attempt number the row stands for. */
  lemma OwnRecord(w: World, r: JobRow, e: Environment)
    requires Good(w) && w.row == Some(r) && e.records == w.records && RecordOf(r, e).Some?
    requires r.status.Active() || r.status == Lost
    ensures StatusPath(w, Top(r)) in w.records && RecordOf(r, e).value == w.records[StatusPath(w, Top(r))]
  {
  }

  lemma HonestRefreshRow(w: World, s: Step)
    requires Good(w) && Honest(w) && Enabled(w, s) && s.RefreshRow?
    ensures Honest(Take(w, s))
  {
    if s.saved { RefreshIsHonest(w, w.op.inventory, s.now); }
  }

  lemma HonestPublishStop(w: World, s: Step)
    requires Good(w) && Honest(w) && Enabled(w, s) && s.PublishStop?
    ensures Honest(Take(w, s))
  {
    if s.saved {
      var e := Env(w, w.op.inventory, s.now);
      RefreshIsHonest(w, w.op.inventory, s.now);
      StopStagedShows(w.row.value, e, s.token);
    }
  }

  /** A staged stop shows success only where the refreshed row did, and then is that row. */
  lemma StopStagedShows(r: JobRow, e: Environment, token: nat)
    ensures StopStaged(r, e, token).row.status == Succeeded ==> StopStaged(r, e, token).row == Refresh(r, e)
  {
  }

  lemma HonestPublishRetry(w: World, s: Step)
    requires Good(w) && Honest(w) && Enabled(w, s) && s.PublishRetry?
    ensures Honest(Take(w, s))
  {
    if s.saved { RetryStagedShows(w.row.value, Env(w, w.op.inventory, s.now), s.token); }
  }

  lemma RetryStagedShows(r: JobRow, e: Environment, token: nat)
    ensures RetryStaged(r, e, token).row.status == Succeeded ==> RetryStaged(r, e, token).row == r
  {
  }

  /** An operation that is being undone found no finished row. */
  ghost predicate UndoesUnfinished(w: World) {
    w.op.StartUndone? || w.op.RetryUndone? ==> w.row.None? || w.row.value.status != Succeeded
  }

  lemma UndoStaysUnfinished(w: World, s: Step)
    requires Good(w) && UndoesUnfinished(w) && Enabled(w, s)
    ensures UndoesUnfinished(Take(w, s))
  {
    if s.CommitStart? || s.CommitRetry? { UndoBeginsUnfinished(w, s); } else { UndoGoesOn(w, s); }
  }

  lemma UndoBeginsUnfinished(w: World, s: Step)
    requires Good(w) && Enabled(w, s) && (s.CommitStart? || s.CommitRetry?)
    ensures UndoesUnfinished(Take(w, s))
  {
  }

  /** Any other step leaves an undone operation's row alone, or drops it. */
  lemma UndoGoesOn(w: World, s: Step)
    requires Enabled(w, s) && !s.CommitStart? && !s.CommitRetry?
    ensures var v := Take(w, s);
      v.op.StartUndone? || v.op.RetryUndone? ==> v.op == w.op && (v.row == w.row || v.row == None)
  {
  }

  lemma HonestUndo(w: World, s: Step)
    requires Honest(w) && UndoesUnfinished(w) && Enabled(w, s) && s.UndoLaunch?
    ensures Honest(Take(w, s))
  {
  }

  lemma HonestStop(w: World, s: Step)
    requires Good(w) && Honest(w) && Enabled(w, s) && (s.FailTail? || s.KillShell?)
    ensures Honest(Take(w, s))
  {
  }

  lemma HonestCommitStop(w: World, s: Step)
    requires Good(w) && Enabled(w, s) && s.CommitStop?
    ensures Honest(Take(w, s))
  {
    if s.saved { CommittedStopEnds(w.row.value, w.op.token, w.op.target, w.op.gone, s.stderr, s.now); }
  }

  lemma CommittedStopEnds(r: JobRow, token: nat, target: Option<ShellName>, gone: bool, text: string, now: int)
    requires StagedAs(r, Stopping, token)
    ensures StopCommitted(r, token, target, gone, text, now).status != Succeeded
    ensures StopErrorCommitted(r, token, target, gone, text, now).status != Succeeded
  {
  }

  lemma HonestStart(w: World, s: Step)
    requires Good(w) && Honest(w) && Enabled(w, s) && (s.PublishStart? || s.LaunchStart? || s.CommitStart? || s.RefuseStart?)
    ensures Honest(Take(w, s))
  {
  }

  lemma HonestOutside(w: World, s: Step)
    requires Honest(w) && Enabled(w, s)
    requires s.TakeInventory? || s.LaunchRetry? || s.Abandon? || s.Crash? || s.ShellDies? || s.Prune?
    ensures Honest(Take(w, s))
  {
  }

  lemma HonestRunnerEnds(w: World, s: Step)
    requires Good(w) && Honest(w) && Enabled(w, s) && s.RunnerEnds?
    ensures Honest(Take(w, s))
  {
  }

  lemma HonestRetryPrepares(w: World, s: Step)
    requires Good(w) && Honest(w) && Enabled(w, s) && (s.StorePaths? || s.PrepareRetry?)
    ensures Honest(Take(w, s))
  {
  }

  lemma HonestRetryEnds(w: World, s: Step)
    requires Good(w) && Honest(w) && Enabled(w, s) && (s.CommitRetry? || s.RefuseRetry?)
    ensures Honest(Take(w, s))
  {
  }

  lemma HonestStep(w: World, s: Step)
    requires Good(w) && Honest(w) && UndoesUnfinished(w) && Enabled(w, s)
    ensures Honest(Take(w, s))
  {
    if s.RefreshRow? {
      HonestRefreshRow(w, s);
    } else if s.PublishStop? {
      HonestPublishStop(w, s);
    } else if s.PublishRetry? {
      HonestPublishRetry(w, s);
    } else if s.CommitRetry? || s.RefuseRetry? {
      HonestRetryEnds(w, s);
    } else if s.StorePaths? || s.PrepareRetry? {
      HonestRetryPrepares(w, s);
    } else if s.RunnerEnds? {
      HonestRunnerEnds(w, s);
    } else if s.UndoLaunch? {
      HonestUndo(w, s);
    } else if s.CommitStop? {
      HonestCommitStop(w, s);
    } else if s.FailTail? || s.KillShell? {
      HonestStop(w, s);
    } else if s.PublishStart? || s.LaunchStart? || s.CommitStart? || s.RefuseStart? {
      HonestStart(w, s);
    } else {
      HonestOutside(w, s);
    }
  }

  /** No success without evidence, over runs: in every state of every run, a row that shows success stands
      beside the record its own attempt's runner wrote, with exit code zero. */
  lemma {:induction false} SuccessIsEvident(states: seq<World>, steps: seq<Step>, i: nat)
    requires Run(states, steps) && i < |states|
    ensures Honest(states[i]) && UndoesUnfinished(states[i])
  {
    if i > 0 {
      SuccessIsEvident(states, steps, i - 1);
      RunsAreGood(states, steps, i - 1);
      HonestStep(states[i - 1], steps[i - 1]);
      UndoStaysUnfinished(states[i - 1], steps[i - 1]);
    }
  }

  /** In a run, a refresh with an authoritative or an unknown inventory reaches its fixed point: the
      pending status path is always stored before the pending shell is launched. */
  lemma RefreshSettlesInRuns(states: seq<World>, steps: seq<Step>, i: nat, inventory: Option<set<ShellName>>, now: int)
    requires Run(states, steps) && i < |states| && states[i].row.Some?
    requires inventory.Some? ==> Authoritative(inventory.value, states[i])
    ensures var e := Env(states[i], inventory, now);
      Refresh(Refresh(states[i].row.value, e), e) == Refresh(states[i].row.value, e)
  {
    RunsAreGood(states, steps, i);
    var r := states[i].row.value;
    RefreshFixedPoint(r, Env(states[i], inventory, now));
    if r.status == Retrying && ShellLiveness(r.pending.shell, inventory) == Live {
      assert Top(r) in states[i].launched;
    }
  }

  /** With one controller, a commit always finds the row it staged: launched shells are only ever
      killed again because a transaction raised. */
  lemma CommitsFindTheirRow(states: seq<World>, steps: seq<Step>, i: nat)
    requires Run(states, steps) && i < |steps|
    ensures var w, s := states[i], steps[i];
      && (s.CommitStart? ==> w.row.Some? && StagedAs(w.row.value, Starting, w.op.token))
      && (s.CommitStop? ==> w.row.Some? && StagedAs(w.row.value, Stopping, w.op.token))
      && (s.CommitRetry? ==> w.row.Some? && StagedAs(w.row.value, Retrying, w.op.token))
  {
    RunsAreGood(states, steps, i);
  }

  // ----- other processes

  /** Anything another process may do to a row, with tokens of its own and any inventory, even a
      stale one. */
  datatype Foreign =
    | Refreshes(e: Environment)
    | StagesStop(e: Environment, token: nat)
    | StagesRetry(e: Environment, token: nat)
    | StoresPaths(token: nat, n: nat)
    | CommitsStart(token: nat, shell: ShellName, now: int)
    | RefusesStart(token: nat, now: int)
    | CommitsStop(token: nat, target: Option<ShellName>, gone: bool, now: int)
    | CommitsStopError(token: nat, target: Option<ShellName>, gone: bool, now: int)
    | CommitsRetry(token: nat, shell: ShellName, now: int)
    | RefusesRetry(token: nat, now: int)
    | FailsTail(shell: ShellName, inventory: set<ShellName>, now: int)
    | Prunes

  /** The foreign process does not hold our token. */
  predicate Without(f: Foreign, token: nat) {
    match f
    case Refreshes(e) => token !in e.tokens
    case StagesStop(e, t) => token !in e.tokens && t != token
    case StagesRetry(e, t) => token !in e.tokens && t != token
    case StoresPaths(t, _) => t != token
    case CommitsStart(t, _, _) => t != token
    case RefusesStart(t, _) => t != token
    case CommitsStop(t, _, _, _) => t != token
    case CommitsStopError(t, _, _, _) => t != token
    case CommitsRetry(t, _, _) => t != token
    case RefusesRetry(t, _) => t != token
    case _ => true
  }

  /** Pruning may drop a row it may drop; every other action keeps the row and may change it. */
  function Act(row: Option<JobRow>, f: Foreign): Option<JobRow> {
    if row.None? || (f.Prunes? && RetentionTerminal(row.value)) then None
    else Some(Change(row.value, f))
  }

  function Change(r: JobRow, f: Foreign): JobRow {
    match f
    case Refreshes(e) => Refresh(r, e)
    case StagesStop(e, t) => StopStaged(r, e, t).row
    case StagesRetry(e, t) => RetryStaged(r, e, t).row
    case StoresPaths(t, n) => RetryPathsStored(r, t, n).row
    case CommitsStart(t, shell, now) => StartCommitted(r, t, shell, now)
    case RefusesStart(t, now) => StartRefused(r, t, "start failed", now)
    case CommitsStop(t, shell, gone, now) => StopCommitted(r, t, shell, gone, "", now)
    case CommitsStopError(t, shell, gone, now) => StopErrorCommitted(r, t, shell, gone, "stop failed", now)
    case CommitsRetry(t, shell, now) => RetryCommitted(r, t, shell, now)
    case RefusesRetry(t, now) => RetryRefused(r, t, "retry failed", now)
    case FailsTail(shell, inventory, now) => TailFailed(r, shell, inventory, "capture failed", now)
    case Prunes => r
  }

  function ActAll(row: Option<JobRow>, fs: seq<Foreign>): Option<JobRow> {
    if fs == [] then row else Act(ActAll(row, fs[..|fs| - 1]), fs[|fs| - 1])
  }

  predicate Holds(row: Option<JobRow>, token: nat) {
    row.Some? && row.value.operation.Some? && row.value.operation.value.id == token
  }

  predicate Staged(row: Option<JobRow>, token: nat) {
    && Holds(row, token)
    && row.value.kind == Shell && row.value.status in {Starting, Stopping, Retrying}
  }

  /** One foreign action on a staged row leaves it exactly as it is or takes the token away. */
  lemma StagedRowUnderOneAction(row: Option<JobRow>, f: Foreign, token: nat)
    requires Staged(row, token) && Without(f, token)
    ensures Act(row, f) == row || !Holds(Act(row, f), token)
  {
    var r := row.value;
    match f
    case Refreshes(e) => RefreshTakesTheTokenOrNothing(r, e);
    case StagesStop(e, t) =>
      RefreshTakesTheTokenOrNothing(r, e);
      StopStagedShape(r, e, t);
    case StagesRetry(e, t) =>
      RefreshTakesTheTokenOrNothing(r, e);
    case _ =>
  }

  /** A token once gone never comes back. */
  lemma TokenStaysGone(row: Option<JobRow>, f: Foreign, token: nat)
    requires !Holds(row, token) && Without(f, token)
    ensures !Holds(Act(row, f), token)
  {
    if row.Some? {
      var r := row.value;
      match f
      case Refreshes(e) => RefreshKeepsIdentity(r, e);
      case StagesStop(e, t) =>
        RefreshKeepsIdentity(r, e);
        StopStagedShape(r, e, t);
      case StagesRetry(e, t) => RefreshKeepsIdentity(r, e);
      case _ =>
    }
  }

  /** Whatever others do to a staged row, it is as it was or its token is gone for good. */
  lemma {:induction false} StagedRowUnderActions(row: Option<JobRow>, fs: seq<Foreign>, token: nat)
    requires Staged(row, token)
    requires forall f :: f in fs ==> Without(f, token)
    ensures ActAll(row, fs) == row || !Holds(ActAll(row, fs), token)
    decreases |fs|
  {
    if fs != [] {
      var n := |fs| - 1;
      StagedRowUnderActions(row, fs[..n], token);
      var mid := ActAll(row, fs[..n]);
      if mid == row {
        StagedRowUnderOneAction(row, fs[n], token);
      } else {
        TokenStaysGone(mid, fs[n], token);
      }
    }
  }

  /** No transaction body of the operation that holds a token does anything to a row without it. */
  predicate Untouched(met: JobRow, token: nat, n: nat, shell: ShellName, target: Option<ShellName>, gone: bool, text: string, now: int) {
    && StartCommitted(met, token, shell, now) == met
    && StartRefused(met, token, text, now) == met
    && StopCommitted(met, token, target, gone, text, now) == met
    && StopErrorCommitted(met, token, target, gone, text, now) == met
    && RetryPathsStored(met, token, n) == Staging(met, false)
    && RetryRefused(met, token, text, now) == met
    && RetryCommitted(met, token, shell, now) == met
  }

  /** Token-guarded commit: whatever other processes do between staging and commit, the row is gone, or
      it is exactly the one staged, or the commit and every error path change nothing. */
  lemma GuardedCommit(staged: JobRow, fs: seq<Foreign>, token: nat, n: nat, shell: ShellName, target: Option<ShellName>, gone: bool, text: string, now: int)
    requires Staged(Some(staged), token)
    requires forall f :: f in fs ==> Without(f, token)
    ensures var met := ActAll(Some(staged), fs);
      met.Some? && met.value != staged ==> Untouched(met.value, token, n, shell, target, gone, text, now)
  {
    StagedRowUnderActions(Some(staged), fs, token);
  }

  /** The number of the attempt an operation has launched and not yet committed. */
  function Uncommitted(op: Op): nat
    requires op.StartLaunched? || op.RetryLaunched?
  {
    if op.StartLaunched? then 1 else op.n
  }

  /** A commit on a row that is gone or changed leaves it, and leads to the undo step. */
  lemma ChangedCommitIsUndone(w: World, s: Step)
    requires Enabled(w, s) && (s.CommitStart? || s.CommitRetry?)
    requires !Holds(w.row, w.op.token)
    ensures var v := Take(w, s);
      && v.row == w.row && v.alive == w.alive && v.going == w.going
      && v.op == if s.CommitStart? then StartUndone(w.op.token) else RetryUndone(w.op.token, w.op.n)
  {
  }

  /** Interference after a launch: in any state of a run whose operation has launched its shell, other
      processes may change or drop the row at will. The commit then finds the row it staged and records
      the launched attempt as running; or it leaves the row as the others left it, and once the kill of
      the undo step succeeds the launched attempt is gone and the operation is over. */
  lemma InterferedLaunch(states: seq<World>, steps: seq<Step>, i: nat, fs: seq<Foreign>, commit: Step, unlinked: bool)
    requires Run(states, steps) && i < |states|
    requires states[i].op.StartLaunched? || states[i].op.RetryLaunched?
    requires forall f :: f in fs ==> Without(f, states[i].op.token)
    requires commit.CommitStart? || commit.CommitRetry?
    requires Enabled(states[i].(row := ActAll(states[i].row, fs)), commit)
    ensures var w := states[i].(row := ActAll(states[i].row, fs));
      var n, v := Uncommitted(w.op), Take(w, commit);
      if w.row == states[i].row then
        commit.saved ==> v.row.Some? && v.row.value.status == Running && v.row.value.current == AttemptOf(w.key.job, n)
      else
        && v.row == w.row
        && Enabled(v, UndoLaunch(true, unlinked))
        && var u := Take(v, UndoLaunch(true, unlinked));
           u.row == w.row && n !in u.alive && n !in u.going && u.op == Idle && u.tokens == {}
  {
    var w0 := states[i];
    RunsAreGood(states, steps, i);
    StagedRowUnderActions(w0.row, fs, w0.op.token);
    var w := w0.(row := ActAll(w0.row, fs));
    if w.row == w0.row {
      if commit.saved { CommitRecords(w0, commit); }
    } else {
      ChangedCommitIsUndone(w, commit);
    }
  }

  lemma CommitRecords(w: World, s: Step)
    requires Good(w) && Enabled(w, s) && (s.CommitStart? || s.CommitRetry?) && s.saved
    ensures var v := Take(w, s);
      v.row.Some? && v.row.value.status == Running && v.row.value.current == AttemptOf(w.key.job, Uncommitted(w.op))
  {
  }
}
