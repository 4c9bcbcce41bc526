/** What each shell-job operation makes of its row, from staging to commit. */
module ShellOutcomes {
  import opened Common
  import opened JobState
  import opened Reconciliation
  import opened Retention
  import opened ShellJobs
  import opened ShellRuns
  import opened ShellTheorems

  predicate Listed(shell: Option<ShellName>, inventory: Option<set<ShellName>>) {
    inventory.Some? && shell.Some? && shell.value in inventory.value
  }

  // ----- start

  /** A published start that cannot be launched has failed; one whose shell stands runs. */
  lemma StartOutcome(key: JobKey, token: nat, published: int, shell: ShellName, error: string, now: int)
    ensures var row, failed, runs := StartingRow(key, token, published), StartRefused(StartingRow(key, token, published), token, error, now),
                                     StartCommitted(StartingRow(key, token, published), token, shell, now);
      && row.key == key && row.status == Starting && row.createdAt == published && row.operation == Some(Operation(token, StartOp))
      && row.kind == Shell && row.pending == NO_ATTEMPT && row.updatedAt == published && row.lastStartedAt == None
      && row.completedAt == None && row.exitCode == None && row.error == None && !row.logTruncated && row.outputBytes == 0
      && row.progress == None && row.result == None && !row.absenceConfirmed && row.applied == []
      && row.current == Attempt(Some(1), Some(ShellName(key.job, 1)), Some(AttemptPath(key.job, 1, CommandPart)),
                                Some(AttemptPath(key.job, 1, LogPart)), Some(AttemptPath(key.job, 1, StatusPart)))
      && failed == row.(status := Failed, operation := None, updatedAt := now, completedAt := Some(now), error := Some(error))
      && runs == row.(status := Running, operation := None, updatedAt := now, lastStartedAt := Some(now),
                      current := row.current.(shell := Some(shell)))
  {
  }

  /** Whatever else a row shows, the commit of its start makes it run under the launched shell, without an error. */
  lemma AnyStartCommits(row: JobRow, token: nat, shell: ShellName, error: string, now: int)
    requires row.status == Starting && row.operation.Some? && row.operation.value.id == token
    ensures StartCommitted(row, token, shell, now)
      == row.(status := Running, operation := None, current := row.current.(shell := Some(shell)), updatedAt := now,
              lastStartedAt := Some(now), error := None)
    ensures StartRefused(row, token, error, now)
      == row.(status := Failed, operation := None, updatedAt := now, completedAt := Some(now), error := Some(error))
  {
  }

  // ----- stop

  /** A stop goes ahead exactly when no completion record is there and the shell may be alive: a running job's
      is not known to be gone, or that of a job lost or left over by a dead operation is listed. */
  lemma StopProceedsWhen(row: JobRow, e: Environment, token: nat)
    requires row.kind == Shell
    ensures StopStaged(row, e, token).proceeds <==>
      && !Working(row, e) && RecordOf(row, e).None?
      && if row.status == Running then e.inventory.None? || Listed(row.current.shell, e.inventory)
         else (row.status.Active() || row.status == Lost) && Listed(ShellOf(row), e.inventory)
  {
    StopStagedIs(row, e, token);
    if Working(row, e) {
      WorkingRefresh(row, e);
    } else if !(row.status.Active() || row.status == Lost) {
      NothingDecides(row, e);
    } else if RecordOf(row, e).Some? {
      RecordDecides(row, e);
    } else if e.inventory.None? {
      NothingDecides(row, e);
    } else if Listed(ShellOf(row), e.inventory) {
      PresenceDecides(row, e);
    } else {
      AbsenceDecides(row, e);
      if row.status != Retrying { RefreshKeepsShell(row, e); }
    }
  }

  lemma StopStagedIs(row: JobRow, e: Environment, token: nat)
    ensures var r := Refresh(row, e);
      StopStaged(row, e, token).proceeds <==> r.status == Running || (r.status == Lost && Listed(r.current.shell, e.inventory))
  {
  }

  lemma WorkingRefresh(row: JobRow, e: Environment)
    requires row.kind == Shell && Working(row, e)
    ensures Refresh(row, e).status == row.status && row.status in {Starting, Stopping, Retrying}
  {
  }

  lemma RefreshKeepsShell(row: JobRow, e: Environment)
    requires row.kind == Shell && row.status != Retrying
    ensures Refresh(row, e).current.shell == row.current.shell
  {
  }

  /** A running job is staged under the token and nothing else changes; when the kill or an inventory shows its
      shell gone it has stopped, and otherwise it runs on with the error shown. */
  lemma StopOutcome(row: JobRow, e: Environment, token: nat, gone: bool, text: string, now: int)
    requires row.kind == Shell && row.status == Running && RecordOf(row, e).None?
    requires e.inventory.None? || Listed(row.current.shell, e.inventory)
    ensures var staged := StopStaged(row, e, token).row;
      && StopStaged(row, e, token).proceeds
      && staged == row.(status := Stopping, updatedAt := e.now, operation := Some(Operation(token, StopOp)))
      && StopCommitted(staged, token, row.current.shell, gone, text, now) ==
         (if gone then row.(status := Stopped, operation := None, updatedAt := now, completedAt := Some(now), exitCode := None, error := None)
          else row.(status := Running, operation := None, updatedAt := now, completedAt := None, exitCode := None,
                    error := Some(if text == "" then "shell was not stopped" else text)))
      && StopErrorCommitted(staged, token, row.current.shell, gone, text, now) ==
         (if gone then row.(status := Stopped, operation := None, updatedAt := now, completedAt := Some(now), error := Some(text))
          else row.(status := Running, operation := None, updatedAt := now, completedAt := None, error := Some(text)))
  {
    RunningStays(row, e);
  }

  lemma RunningStays(row: JobRow, e: Environment)
    requires row.kind == Shell && row.status == Running && RecordOf(row, e).None?
    requires e.inventory.None? || Listed(row.current.shell, e.inventory)
    ensures Refresh(row, e) == row
  {
    if e.inventory.None? { NothingDecides(row, e); } else { PresenceDecides(row, e); }
  }

  /** Asked to stop a job whose shell an authoritative inventory does not list, without a record: a running or a
      lost job is stopped there and then, with no error and no exit code. */
  lemma StopOfAGoneShell(row: JobRow, e: Environment, token: nat)
    requires row.kind == Shell && row.status in {Running, Lost} && RecordOf(row, e).None?
    requires !Working(row, e) && e.inventory.Some? && !Listed(row.current.shell, e.inventory)
    ensures var s := StopStaged(row, e, token);
      && !s.proceeds && s.row.status == Stopped && s.row.completedAt == Some(e.now) && s.row.updatedAt == e.now
      && s.row.error == None && s.row.exitCode == None && s.row.current.shell == row.current.shell
  {
    AbsenceDecides(row, e);
    RefreshKeepsShell(row, e);
  }

  /** In runs: a kill that succeeds, or an inventory that then lacks the shell, makes the next commit show the
      job stopped with its attempt dead; a kill after which an inventory still lists it shows it running. */
  lemma StopsInRuns(states: seq<World>, steps: seq<Step>, i: nat)
    requires Run(states, steps) && i + 1 < |steps| && steps[i].KillShell? && steps[i + 1].CommitStop? && steps[i + 1].saved
    ensures states[i + 2].row.Some? && states[i + 2].op == Idle
    ensures var w, s, row := states[i], steps[i], states[i + 2].row.value;
      && (s.killed || (s.after.Some? && !Listed(w.op.target, s.after)) ==>
            row.status == Stopped && row.completedAt == Some(steps[i + 1].now) && Top(row) !in states[i + 2].alive)
      && (!s.killed && (s.after.None? || Listed(w.op.target, s.after)) ==> row.status == Running && row.completedAt == None)
  {
    RunsAreGood(states, steps, i);
    RunsAreGood(states, steps, i + 1);
    assert states[i + 1] == Take(states[i], steps[i]) && states[i + 2] == Take(states[i + 1], steps[i + 1]);
  }

  // ----- retry

  /** A retry of a job that is not active takes the next attempt number and its own name and files; the commit
      runs it as that attempt with nothing left of the earlier outcome. */
  lemma RetryOutcome(row: JobRow, e: Environment, token: nat, shell: ShellName, now: int)
    requires !Refresh(row, e).status.Active() && Refresh(row, e).pending == NO_ATTEMPT
    ensures var r, job := Refresh(row, e), row.key.job;
      var n: nat := match r.current.number case Some(k) => if k == 0 then 2 else k + 1 case None => 2;
      var s := RetryStaged(row, e, token);
      var p := RetryPathsStored(s.row, token, n);
      && s.proceeds && s.row.status == Retrying && s.row.current == r.current
      && s.row.pending.number == Some(n) && s.row.pending.shell == Some(ShellName(job, n)) && s.row.pending.status == None
      && p.proceeds
      && p.row.pending == Attempt(Some(n), Some(ShellName(job, n)), Some(AttemptPath(job, n, CommandPart)),
                                  Some(AttemptPath(job, n, LogPart)), Some(AttemptPath(job, n, StatusPart)))
      && RetryCommitted(p.row, token, shell, now) ==
         r.(current := p.row.pending.(shell := Some(shell)), pending := NO_ATTEMPT, operation := None, status := Running, updatedAt := now,
            lastStartedAt := Some(now), completedAt := None, exitCode := None, error := None,
            logTruncated := false, outputBytes := 0)
  {
    RefreshKeepsIdentity(row, e);
  }

  /** A retry that fails uses up its number and shows the failure; the attempt's name and files stay those of the
      last attempt that ran, and the next retry takes a further number. */
  lemma RefusedRetryOutcome(row: JobRow, e: Environment, token: nat, error: string, now: int, e': Environment, token': nat)
    requires !Refresh(row, e).status.Active() && Refresh(row, e).pending == NO_ATTEMPT
    ensures var r, s := Refresh(row, e), RetryStaged(row, e, token).row;
      var failed := RetryRefused(s, token, error, now);
      && s.pending.number.Some?
      && failed == r.(current := r.current.(number := s.pending.number), pending := NO_ATTEMPT, operation := None, status := Failed,
                      updatedAt := now, completedAt := Some(now), exitCode := None, error := Some(error))
      && RetryStaged(failed, e', token').row.pending.number == Some(s.pending.number.value + 1)
  {
    var failed := RetryRefused(RetryStaged(row, e, token).row, token, error, now);
    assert Refresh(failed, e') == failed;
  }

  // ----- tail

  /** A failed read of a running shell's output shows its error; only a shell the inventory lacks makes the job
      lost, and then its history may be pruned. */
  lemma TailOutcome(row: JobRow, shell: ShellName, inventory: set<ShellName>, error: string, now: int)
    requires row.status == Running && row.current.shell == Some(shell)
    ensures var r := TailFailed(row, shell, inventory, error, now);
      && (shell in inventory ==> r == row.(updatedAt := now, error := Some(error)))
      && (shell !in inventory ==>
            && r == row.(status := Lost, updatedAt := now, completedAt := Some(now), error := Some(error), absenceConfirmed := true)
            && RetentionTerminal(r))
  {
  }
}
