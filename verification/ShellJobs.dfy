/** Transaction bodies of the shell-job operations: what each one does to its row. */
module ShellJobs {
  import opened Common
  import opened JobState
  import opened Reconciliation

  /** Shell name and artifact paths are functions of job and attempt. */
  function AttemptOf(job: string, n: nat): Attempt {
    Attempt(Some(n), Some(ShellName(job, n)), Some(AttemptPath(job, n, CommandPart)),
            Some(AttemptPath(job, n, LogPart)), Some(AttemptPath(job, n, StatusPart)))
  }

  /** The row published before the first shell is launched. */
  function StartingRow(key: JobKey, token: nat, now: int): JobRow {
    JobRow(key, Shell, Starting, AttemptOf(key.job, 1), NO_ATTEMPT, Some(Operation(token, StartOp)),
           now, now, None, None, None, None, false, 0, None, None, false, [])
  }

  /** Whether a row is still as this operation staged it. */
  predicate StagedAs(row: JobRow, status: Status, token: nat) {
    row.status == status && row.operation.Some? && row.operation.value.id == token
  }

  function StartCommitted(row: JobRow, token: nat, shell: ShellName, now: int): JobRow {
    if !StagedAs(row, Starting, token) then row
    else row.(operation := None, status := Running, current := row.current.(shell := Some(shell)),
              updatedAt := now, lastStartedAt := Some(now), error := None)
  }

  function StartRefused(row: JobRow, token: nat, error: string, now: int): JobRow {
    if !StagedAs(row, Starting, token) then row
    else row.(operation := None, status := Failed, updatedAt := now, completedAt := Some(now), error := Some(error))
  }

  /** A staging body's row, and whether the operation goes on. */
  datatype Staging = Staging(row: JobRow, proceeds: bool)

  function StopStaged(row: JobRow, e: Environment, token: nat): Staging {
    var job := Refresh(row, e);
    if job.status == Lost && e.inventory.None? then Staging(job, false)
    else if job.status == Lost && ShellLiveness(job.current.shell, e.inventory) != Live then
      Staging(job.(status := Stopped, updatedAt := e.now, completedAt := Some(e.now), exitCode := None, error := None), false)
    else
      var alive := if job.status == Lost then job.(status := Running, updatedAt := e.now, completedAt := None) else job;
      if alive.status != Running then Staging(alive, false)
      else Staging(alive.(status := Stopping, updatedAt := e.now, operation := Some(Operation(token, StopOp))), true)
  }

  /** `gone`: the kill succeeded, or an authoritative inventory no longer lists the shell. */
  function StopCommitted(row: JobRow, token: nat, shell: Option<ShellName>, gone: bool, stderr: string, now: int): JobRow {
    if !(StagedAs(row, Stopping, token) && row.current.shell == shell) then row
    else row.(operation := None, status := if gone then Stopped else Running, updatedAt := now,
              completedAt := if gone then Some(now) else None, exitCode := None,
              error := if gone then None else Some(if stderr != "" then stderr else "shell was not stopped"))
  }

  /** The same commit after the kill raised: the exit code stays and the error is kept. */
  function StopErrorCommitted(row: JobRow, token: nat, shell: Option<ShellName>, gone: bool, error: string, now: int): JobRow {
    if !(StagedAs(row, Stopping, token) && row.current.shell == shell) then row
    else row.(operation := None, status := if gone then Stopped else Running, updatedAt := now,
              completedAt := if gone then Some(now) else None, error := Some(error))
  }

  function NextAttempt(row: JobRow): nat {
    (if row.current.number.Some? && row.current.number.value != 0 then row.current.number.value else 1) + 1
  }

  /** Does not proceed, and saves nothing, when the job is still active. */
  function RetryStaged(row: JobRow, e: Environment, token: nat): Staging {
    var job := Refresh(row, e);
    if job.status.Active() then Staging(row, false)
    else
      var n := NextAttempt(job);
      Staging(job.(status := Retrying, updatedAt := e.now,
                   pending := job.pending.(number := Some(n), shell := Some(ShellName(job.key.job, n))),
                   operation := Some(Operation(token, RetryOp))), true)
  }

  function RetryPathsStored(row: JobRow, token: nat, n: nat): Staging {
    if !StagedAs(row, Retrying, token) then Staging(row, false)
    else
      var a := AttemptOf(row.key.job, n);
      Staging(row.(pending := row.pending.(command := a.command, log := a.log, status := a.status)), true)
  }

  function RetryRefused(row: JobRow, token: nat, error: string, now: int): JobRow {
    if !StagedAs(row, Retrying, token) then row
    else row.(current := row.current.(number := Prefer(row.pending.number, row.current.number)),
              pending := NO_ATTEMPT, operation := None, status := Failed,
              updatedAt := now, completedAt := Some(now), exitCode := None, error := Some(error))
  }

  function RetryCommitted(row: JobRow, token: nat, shell: ShellName, now: int): JobRow {
    if !StagedAs(row, Retrying, token) then row
    else row.(current := AdoptPending(row).(shell := Some(shell)), pending := NO_ATTEMPT, operation := None,
              status := Running, updatedAt := now, lastStartedAt := Some(now), completedAt := None,
              exitCode := None, error := None, logTruncated := false, outputBytes := 0)
  }

  /** The tail operation's own step, after the shell's output could not be read. */
  function TailFailed(row: JobRow, shell: ShellName, inventory: set<ShellName>, error: string, now: int): JobRow {
    if !(row.status == Running && row.current.shell == Some(shell)) then row
    else if shell in inventory then row.(updatedAt := now, error := Some(error))
    else row.(status := Lost, updatedAt := now, completedAt := Some(now), error := Some(error), absenceConfirmed := true)
  }

  /** One job's row, changed in place by the transaction bodies. */
  class TrackedJob {
    var row: JobRow

    constructor Start(key: JobKey, token: nat, now: int)
      ensures row == StartingRow(key, token, now)
    {
      row := StartingRow(key, token, now);
    }

    method ClearOperation()
      modifies this
      ensures row == old(row).(operation := None)
    {
      row := row.(operation := None);
    }

    method Update(status: Status, now: int)
      modifies this
      ensures row == old(row).(status := status, updatedAt := now)
    {
      row := row.(status := status);
      row := row.(updatedAt := now);
    }

    /** `_adopt_pending_retry`. */
    method AdoptPendingRetry()
      modifies this
      ensures row == old(row).(current := AdoptPending(old(row)))
    {
      var p := row.pending;
      if p.number.Some? { row := row.(current := row.current.(number := p.number)); }
      if p.shell.Some? { row := row.(current := row.current.(shell := p.shell)); }
      if p.command.Some? { row := row.(current := row.current.(command := p.command)); }
      if p.log.Some? { row := row.(current := row.current.(log := p.log)); }
      if p.status.Some? { row := row.(current := row.current.(status := p.status)); }
    }

    /** `_clear_pending_retry`. */
    method ClearPendingRetry()
      modifies this
      ensures row == old(row).(pending := NO_ATTEMPT)
    {
      row := row.(pending := NO_ATTEMPT);
    }

    /** `_apply_job_transition`: drop the operation, remove keys, then write the updates. */
    method Transit(t: Transition)
      modifies this
      ensures row == ApplyTransition(old(row), t)
    {
      var u := t.updates;
      if t.clearOperation { ClearOperation(); }
      if t.removePending { row := row.(pending := NO_ATTEMPT); }
      if t.removeAbsence { row := row.(absenceConfirmed := false); }
      row := row.(current := Or(u.current, row.current), status := Or(u.status, row.status),
                  updatedAt := Or(u.updatedAt, row.updatedAt), completedAt := Or(u.completedAt, row.completedAt),
                  lastStartedAt := if u.lastStartedAt.Some? then u.lastStartedAt else row.lastStartedAt,
                  exitCode := Or(u.exitCode, row.exitCode), error := Or(u.error, row.error),
                  logTruncated := Or(u.logTruncated, row.logTruncated), outputBytes := Or(u.outputBytes, row.outputBytes),
                  absenceConfirmed := Or(u.absenceConfirmed, row.absenceConfirmed));
    }

    /** `_refresh_job_status`: observe only what the row's kind and status call for, decide, apply. */
    method RefreshStatus(e: Environment)
      modifies this
      ensures row == Refresh(old(row), e)
    {
      var lostShell := row.status == Lost && row.kind == Shell;
      if !lostShell && !row.status.Active() { return; }
      var o := Observation(e.now, Unknown, None, None, ActiveOperation(row, e.tokens), false, Unknown);
      if o.operation.Some? && (row.kind == Managed || o.operation == ExpectedOperation(row.status)) {
        Transit(ReconcileJob(row, o));
        return;
      }
      if row.kind == Managed {
        o := o.(localTask := e.localTask);
        if !o.localTask { o := o.(lease := e.lease); }
      } else if row.status == Retrying {
        o := o.(pendingStatus := ReadStatus(row.pending.status, e.records), shell := ShellLiveness(row.pending.shell, e.inventory));
      } else {
        o := o.(status := ReadStatus(row.current.status, e.records), shell := ShellLiveness(row.current.shell, e.inventory));
      }
      Transit(ReconcileJob(row, o));
    }

    method CommitStart(token: nat, shell: ShellName, now: int) returns (changed: bool)
      modifies this
      ensures row == StartCommitted(old(row), token, shell, now)
      ensures changed <==> !StagedAs(old(row), Starting, token)
    {
      changed := row.status != Starting || !(row.operation.Some? && row.operation.value.id == token);
      if !changed {
        ClearOperation();
        Update(Running, now);
        row := row.(current := row.current.(shell := Some(shell)), lastStartedAt := Some(now), error := None);
      }
    }

    method StageStop(e: Environment, token: nat) returns (proceeds: bool)
      modifies this
      ensures Staging(row, proceeds) == StopStaged(old(row), e, token)
    {
      RefreshStatus(e);
      if row.status == Lost {
        if e.inventory.None? { return false; }
        if !(row.current.shell.Some? && row.current.shell.value in e.inventory.value) {
          Update(Stopped, e.now);
          row := row.(completedAt := Some(e.now), exitCode := None, error := None);
          return false;
        }
        Update(Running, e.now);
        row := row.(completedAt := None);
      }
      if row.status != Running { return false; }
      Update(Stopping, e.now);
      row := row.(operation := Some(Operation(token, StopOp)));
      proceeds := true;
    }

    method CommitStop(token: nat, shell: Option<ShellName>, gone: bool, stderr: string, now: int)
      modifies this
      ensures row == StopCommitted(old(row), token, shell, gone, stderr, now)
    {
      if row.status == Stopping && row.current.shell == shell && row.operation.Some? && row.operation.value.id == token {
        Update(if gone then Stopped else Running, now);
        row := row.(completedAt := if gone then Some(now) else None, exitCode := None,
                    error := if gone then None else Some(if stderr != "" then stderr else "shell was not stopped"));
        ClearOperation();
      }
    }

    /** The same after the kill raised: the exit code stays and the error is kept. */
    method FailStop(token: nat, shell: Option<ShellName>, stillActive: bool, error: string, now: int)
      modifies this
      ensures row == StopErrorCommitted(old(row), token, shell, !stillActive, error, now)
    {
      if row.status == Stopping && row.current.shell == shell && row.operation.Some? && row.operation.value.id == token {
        Update(if stillActive then Running else Stopped, now);
        row := row.(error := Some(error), completedAt := if stillActive then None else Some(now));
        ClearOperation();
      }
    }

    /** The tail operation's step after the shell's output could not be read. */
    method FailTail(shell: ShellName, inventory: set<ShellName>, error: string, now: int)
      modifies this
      ensures row == TailFailed(old(row), shell, inventory, error, now)
    {
      if row.status == Running && row.current.shell == Some(shell) {
        row := row.(updatedAt := now, error := Some(error));
        if shell !in inventory {
          row := row.(status := Lost, completedAt := Some(now), absenceConfirmed := true);
        }
      }
    }

    /** The transaction raises, and saves nothing, when the job is still active. */
    method StageRetry(e: Environment, token: nat) returns (proceeds: bool)
      modifies this
      ensures Staging(row, proceeds) == RetryStaged(old(row), e, token)
    {
      var before := row;
      RefreshStatus(e);
      if row.status.Active() {
        row := before;
        return false;
      }
      var n := NextAttempt(row);
      Update(Retrying, e.now);
      row := row.(pending := row.pending.(number := Some(n), shell := Some(ShellName(row.key.job, n))));
      row := row.(operation := Some(Operation(token, RetryOp)));
      proceeds := true;
    }

    method RefuseRetry(token: nat, error: string, now: int)
      modifies this
      ensures row == RetryRefused(old(row), token, error, now)
    {
      if row.status == Retrying && row.operation.Some? && row.operation.value.id == token {
        if row.pending.number.Some? {
          row := row.(current := row.current.(number := row.pending.number));
        }
        ClearPendingRetry();
        ClearOperation();
        Update(Failed, now);
        row := row.(completedAt := Some(now), exitCode := None, error := Some(error));
      }
    }

    method CommitRetry(token: nat, shell: ShellName, now: int) returns (changed: bool)
      modifies this
      ensures row == RetryCommitted(old(row), token, shell, now)
      ensures changed <==> !StagedAs(old(row), Retrying, token)
    {
      changed := row.status != Retrying || !(row.operation.Some? && row.operation.value.id == token);
      if !changed {
        AdoptPendingRetry();
        ClearPendingRetry();
        ClearOperation();
        Update(Running, now);
        row := row.(current := row.current.(shell := Some(shell)), lastStartedAt := Some(now), completedAt := None,
                    exitCode := None, error := None, logTruncated := false, outputBytes := 0);
      }
    }
  }

  /** A start that nobody interferes with: the row published under the token is still as staged when the
      launched shell is recorded, and then the job runs as attempt one with no operation left on it. */
  method StartUndisturbed(key: JobKey, token: nat, published: int, started: int) returns (job: TrackedJob, changed: bool)
    ensures fresh(job) && !changed
    ensures job.row.key == key && job.row.status == Running && job.row.operation == None
    ensures job.row.current == AttemptOf(key.job, 1) && job.row.pending == NO_ATTEMPT
    ensures job.row.createdAt == published && job.row.lastStartedAt == Some(started)
  {
    job := new TrackedJob.Start(key, token, published);
    changed := job.CommitStart(token, ShellName(key.job, 1), started);
  }
}
