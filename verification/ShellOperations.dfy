/** Whole operations of the shell-job machine that nothing interrupts: which steps they take, and the world they
    leave. */
module ShellOperations {
  import opened Common
  import opened JobState
  import opened Reconciliation
  import opened Retention
  import opened ShellJobs
  import opened ShellRuns
  import opened ShellOutcomes

  /** These steps can be taken one after the other, and lead there. */
  ghost predicate Leads(w: World, steps: seq<Step>, w': World)
    decreases |steps|
  {
    if steps == [] then w' == w else Enabled(w, steps[0]) && Leads(Take(w, steps[0]), steps[1..], w')
  }

  lemma Nowhere(w: World)
    ensures Leads(w, [], w)
  {
  }

  lemma StepLeads(w: World, s: Step, rest: seq<Step>, w': World)
    requires Enabled(w, s) && Leads(Take(w, s), rest, w')
    ensures Leads(w, [s] + rest, w')
  {
    assert ([s] + rest)[1..] == rest;
  }

  lemma TwoLead(w: World, a: Step, b: Step)
    requires Enabled(w, a) && Enabled(Take(w, a), b)
    ensures Leads(w, [a, b], Take(Take(w, a), b))
  {
    var end := Take(Take(w, a), b);
    Nowhere(end);
    StepLeads(Take(w, a), b, [], end);
    StepLeads(w, a, [b] + [], end);
    assert [a] + ([b] + []) == [a, b];
  }

  lemma {:induction false} LeadsOn(w: World, first: seq<Step>, v: World, second: seq<Step>, w': World)
    requires Leads(w, first, v) && Leads(v, second, w')
    ensures Leads(w, first + second, w')
    decreases |first|
  {
    if first == [] {
      assert first + second == second;
    } else {
      LeadsOn(Take(w, first[0]), first[1..], v, second, w');
      assert (first + second)[1..] == first[1..] + second;
    }
  }

  // ----- start

  /** The row is published before the shell is launched. */
  lemma StartBegins(key: JobKey, token: nat, t: int, ok: bool)
    ensures var w := Start(key);
      var row := StartingRow(key, token, t);
      var v := w.(row := Some(row), tokens := {token}, used := {token});
      Leads(w, [PublishStart(token, t, false), LaunchStart(ok)],
            if ok then v.(alive := {1}, going := {1}, launched := {1}, op := StartLaunched(token)) else v.(op := StartRaised(token)))
  {
    var w := Start(key);
    TwoLead(w, PublishStart(token, t, false), LaunchStart(ok));
  }

  /** A start that goes well leaves attempt one running. */
  lemma WholeStart(key: JobKey, token: nat, t: int, started: int) returns (w': World)
    ensures Leads(Start(key), [PublishStart(token, t, false), LaunchStart(true)] + [CommitStart(true, false, started)], w')
    ensures w' == Start(key).(row := w'.row, alive := {1}, going := {1}, launched := {1}, used := {token})
    ensures w'.row == Some(StartingRow(key, token, t).(
      status := Running, operation := None, updatedAt := started, lastStartedAt := Some(started)))
  {
    StartBegins(key, token, t, true);
    var v := Start(key).(row := Some(StartingRow(key, token, t)), tokens := {token}, used := {token}, alive := {1}, going := {1},
                         launched := {1}, op := StartLaunched(token));
    StartOutcome(key, token, t, ShellName(key.job, 1), "", started);
    w' := Take(v, CommitStart(true, false, started));
    Nowhere(w');
    StepLeads(v, CommitStart(true, false, started), [], w');
    assert [CommitStart(true, false, started)] + [] == [CommitStart(true, false, started)];
    LeadsOn(Start(key), [PublishStart(token, t, false), LaunchStart(true)], v, [CommitStart(true, false, started)], w');
  }

  /** A start whose launch raises leaves a failed job without a shell. */
  lemma RefusedStart(key: JobKey, token: nat, t: int, failed: int) returns (w': World)
    ensures Leads(Start(key), [PublishStart(token, t, false), LaunchStart(false)] + [RefuseStart(true, failed)], w')
    ensures w' == Start(key).(row := w'.row, used := {token})
    ensures w'.row == Some(StartingRow(key, token, t).(
      status := Failed, operation := None, updatedAt := failed, completedAt := Some(failed), error := Some("start failed")))
  {
    StartBegins(key, token, t, false);
    var v := Start(key).(row := Some(StartingRow(key, token, t)), tokens := {token}, used := {token}, op := StartRaised(token));
    StartOutcome(key, token, t, ShellName(key.job, 1), "start failed", failed);
    w' := Take(v, RefuseStart(true, failed));
    assert v.records - {StatusPath(v, 1)} == v.records;
    Nowhere(w');
    StepLeads(v, RefuseStart(true, failed), [], w');
    assert [RefuseStart(true, failed)] + [] == [RefuseStart(true, failed)];
    LeadsOn(Start(key), [PublishStart(token, t, false), LaunchStart(false)], v, [RefuseStart(true, failed)], w');
  }

  /** A commit that raises is undone: the launched shell is killed and its record removed. */
  lemma UndoneStart(w: World, token: nat, saved: bool, t: int)
    requires w.op == StartLaunched(token) && w.row.Some?
    ensures var v := Take(w, CommitStart(saved, true, t));
      && Enabled(w, CommitStart(saved, true, t)) && v.op == StartUndone(token) && v.alive == w.alive && v.records == w.records
      && Enabled(v, UndoLaunch(true, true))
      && Take(v, UndoLaunch(true, true))
         == v.(alive := v.alive - {1}, going := v.going - {1}, records := v.records - {StatusPath(w, 1)}, op := Idle, tokens := {})
  {
  }

  // ----- stop

  /** A stop goes from the inventory to the published row. */
  lemma StopBegins(w: World, token: nat, t: int)
    requires w.op == Idle && w.row.Some? && token !in w.used
    requires var row := w.row.value; row.kind == Shell && row.status == Running && RecordOf(row, Env(w, None, t)).None?
    ensures var row := w.row.value;
      Leads(w, [TakeInventory(ForStop, None), PublishStop(token, true, false, t)],
            w.(row := Some(row.(status := Stopping, updatedAt := t, operation := Some(Operation(token, StopOp)))),
               tokens := {token}, used := w.used + {token}, op := StopPublished(token, row.current.shell)))
  {
    var row := w.row.value;
    StopOutcome(row, Env(w, None, t), token, true, "", t);
    TwoLead(w, TakeInventory(ForStop, None), PublishStop(token, true, false, t));
  }

  /** The kill and the commit. A shell that is gone ends the job; one that is not leaves it running. */
  lemma StopEnds(w: World, row: JobRow, token: nat, killed: bool, stderr: string, t: int)
    requires w.op == StopPublished(token, row.current.shell)
    requires w.row == Some(row) && row.status == Stopping && row.operation == Some(Operation(token, StopOp))
    ensures var n := AttemptNamed(w, row.current.shell);
      Leads(w, [KillShell(killed, false, None), CommitStop(true, stderr, t)],
            if killed then
              w.(alive := w.alive - n, going := w.going - n, op := Idle, tokens := {},
                 row := Some(row.(status := Stopped, operation := None, updatedAt := t, completedAt := Some(t), exitCode := None,
                                  error := None)))
            else
              w.(op := Idle, tokens := {},
                 row := Some(row.(status := Running, operation := None, updatedAt := t, completedAt := None, exitCode := None,
                                  error := Some(if stderr == "" then "shell was not stopped" else stderr)))))
  {
    TwoLead(w, KillShell(killed, false, None), CommitStop(true, stderr, t));
  }

  /** A whole stop of a running job: the shell is dead, the job stopped, and the token spent. */
  lemma WholeStop(w: World, token: nat, n: nat, t: int, ended: int)
    requires w.op == Idle && w.row.Some? && w.tokens == {} && token !in w.used
    requires var row := w.row.value;
      && row.kind == Shell && row.status == Running && RecordOf(row, Env(w, None, t)).None?
      && row.current.shell == Some(Name(w, n))
    ensures var row := w.row.value;
      Leads(w, [TakeInventory(ForStop, None), PublishStop(token, true, false, t)] + [KillShell(true, false, None), CommitStop(true, "", ended)],
            w.(alive := w.alive - {n}, going := w.going - {n}, used := w.used + {token},
               row := Some(row.(status := Stopped, operation := None, updatedAt := ended, completedAt := Some(ended), exitCode := None,
                                error := None))))
  {
    var row := w.row.value;
    StopBegins(w, token, t);
    var staged := row.(status := Stopping, updatedAt := t, operation := Some(Operation(token, StopOp)));
    var v := w.(row := Some(staged), tokens := {token}, used := w.used + {token}, op := StopPublished(token, row.current.shell));
    StopEnds(v, staged, token, true, "", ended);
    var w' := w.(alive := w.alive - {n}, going := w.going - {n}, used := w.used + {token},
                 row := Some(row.(status := Stopped, operation := None, updatedAt := ended, completedAt := Some(ended), exitCode := None,
                                  error := None)));
    assert AttemptNamed(v, staged.current.shell) == {n};
    LeadsOn(w, [TakeInventory(ForStop, None), PublishStop(token, true, false, t)], v,
            [KillShell(true, false, None), CommitStop(true, "", ended)], w');
  }

  // ----- retry

  /** A row as a retry finds it: ended, with nothing pending. */
  predicate Ended(row: JobRow, n: nat) {
    && row.kind == Shell && row.status in {Succeeded, Failed, Exited, Stopped}
    && row.pending == NO_ATTEMPT && n > 0 && row.current.number == Some(n)
  }

  function RetryingRow(row: JobRow, n: nat, token: nat, t: int): JobRow {
    row.(status := Retrying, updatedAt := t, operation := Some(Operation(token, RetryOp)),
         pending := NO_ATTEMPT.(number := Some(n + 1), shell := Some(ShellName(row.key.job, n + 1))))
  }

  /** The number and the name are stored first. */
  lemma RetryBegins(w: World, token: nat, n: nat, t: int)
    requires w.op == Idle && w.row.Some? && Ended(w.row.value, n) && token !in w.used
    ensures Leads(w, [TakeInventory(ForRetry, None), PublishRetry(token, true, false, t)],
                  w.(row := Some(RetryingRow(w.row.value, n, token, t)), tokens := {token}, used := w.used + {token},
                     op := RetryPublished(token, n + 1)))
  {
    assert Refresh(w.row.value, Env(w, None, t)) == w.row.value;
    TwoLead(w, TakeInventory(ForRetry, None), PublishRetry(token, true, false, t));
  }

  /** Then an old record of that number is removed and the paths are stored. */
  lemma RetryPrepares(w: World, row: JobRow, token: nat, n: nat)
    requires w.op == RetryPublished(token, n) && w.row == Some(row)
    requires row.status == Retrying && row.operation == Some(Operation(token, RetryOp))
    ensures Leads(w, [PrepareRetry(true), StorePaths(true, false)],
                  w.(records := w.records - {StatusPath(w, n)}, op := RetryReady(token, n),
                     row := Some(row.(pending := Attempt(
                       row.pending.number, row.pending.shell, Some(AttemptPath(row.key.job, n, CommandPart)),
                       Some(AttemptPath(row.key.job, n, LogPart)), Some(AttemptPath(row.key.job, n, StatusPart)))))))
  {
    TwoLead(w, PrepareRetry(true), StorePaths(true, false));
  }

  /** Then the shell is launched, and only after it the attempt is adopted; other attempts' records go. */
  lemma RetryEnds(w: World, row: JobRow, token: nat, n: nat, t: int)
    requires w.op == RetryReady(token, n) && w.row == Some(row) && row.key == w.key && row.pending == AttemptOf(row.key.job, n)
    requires row.status == Retrying && row.operation == Some(Operation(token, RetryOp))
    ensures Leads(w, [LaunchRetry(true), CommitRetry(true, false, t)],
                  w.(alive := w.alive + {n}, going := w.going + {n}, launched := w.launched + {n}, op := Idle, tokens := {},
                     records := map p | p in w.records && p == StatusPath(w, n) :: w.records[p],
                     row := Some(row.(current := row.pending, pending := NO_ATTEMPT, operation := None, status := Running,
                                      updatedAt := t, lastStartedAt := Some(t), completedAt := None, exitCode := None, error := None,
                                      logTruncated := false, outputBytes := 0))))
  {
    RetryLaunches(w, token, n);
    var v := w.(alive := w.alive + {n}, going := w.going + {n}, launched := w.launched + {n}, op := RetryLaunched(token, n));
    RetryCommits(v, row, token, n, t);
    TwoLead(w, LaunchRetry(true), CommitRetry(true, false, t));
  }

  lemma RetryLaunches(w: World, token: nat, n: nat)
    requires w.op == RetryReady(token, n)
    ensures Enabled(w, LaunchRetry(true))
    ensures Take(w, LaunchRetry(true))
      == w.(alive := w.alive + {n}, going := w.going + {n}, launched := w.launched + {n}, op := RetryLaunched(token, n))
  {
  }

  lemma RetryCommits(w: World, row: JobRow, token: nat, n: nat, t: int)
    requires w.op == RetryLaunched(token, n) && w.row == Some(row) && row.key == w.key && row.pending == AttemptOf(row.key.job, n)
    requires row.status == Retrying && row.operation == Some(Operation(token, RetryOp))
    ensures Enabled(w, CommitRetry(true, false, t))
    ensures Take(w, CommitRetry(true, false, t))
      == w.(op := Idle, tokens := {}, records := map p | p in w.records && p == StatusPath(w, n) :: w.records[p],
            row := Some(row.(current := row.pending, pending := NO_ATTEMPT, operation := None, status := Running,
                             updatedAt := t, lastStartedAt := Some(t), completedAt := None, exitCode := None, error := None,
                             logTruncated := false, outputBytes := 0)))
  {
  }

  /** With no record of its own yet, no record is left. */
  lemma RetryEndsClean(w: World, row: JobRow, token: nat, n: nat, t: int) returns (w': World)
    requires w.op == RetryReady(token, n) && w.row == Some(row) && row.key == w.key && row.pending == AttemptOf(row.key.job, n)
    requires row.status == Retrying && row.operation == Some(Operation(token, RetryOp)) && StatusPath(w, n) !in w.records
    ensures Leads(w, [LaunchRetry(true), CommitRetry(true, false, t)], w')
    ensures w' == w.(alive := w.alive + {n}, going := w.going + {n}, launched := w.launched + {n}, op := Idle, tokens := {},
                     records := map[], row := w'.row)
    ensures w'.row == Some(row.(current := row.pending, pending := NO_ATTEMPT, operation := None, status := Running,
                                updatedAt := t, lastStartedAt := Some(t), completedAt := None, exitCode := None, error := None,
                                logTruncated := false, outputBytes := 0))
  {
    RetryEnds(w, row, token, n, t);
    TwoLead(w, LaunchRetry(true), CommitRetry(true, false, t));
    w' := Take(Take(w, LaunchRetry(true)), CommitRetry(true, false, t));
    assert w'.records == map[];
  }

  /** A launch that raises gives the retry up; its number stays used. */
  lemma RetryGivesUp(w: World, row: JobRow, token: nat, n: nat, t: int)
    requires w.op == RetryReady(token, n) && w.row == Some(row) && row.pending.number == Some(n)
    requires row.status == Retrying && row.operation == Some(Operation(token, RetryOp))
    ensures Leads(w, [LaunchRetry(false), RefuseRetry(true, t)],
                  w.(op := Idle, tokens := {}, records := w.records - {StatusPath(w, n)},
                     row := Some(row.(current := row.current.(number := Some(n)), pending := NO_ATTEMPT, operation := None,
                                      status := Failed, updatedAt := t, completedAt := Some(t), exitCode := None,
                                      error := Some("retry failed")))))
  {
    TwoLead(w, LaunchRetry(false), RefuseRetry(true, t));
  }

  /** And whatever is not stored before the launch leads there too. */
  lemma RetryStopsEarly(w: World, token: nat, n: nat, saved: bool, raises: bool)
    requires w.row.Some?
    ensures w.op == RetryPublished(token, n) ==>
      Enabled(w, PrepareRetry(false)) && Take(w, PrepareRetry(false)) == w.(op := RetryRaised(token, n))
    ensures w.op == RetryPrepared(token, n) && (!saved ==> raises) ==>
      && Enabled(w, StorePaths(saved, raises))
      && (!saved || raises || !StagedAs(w.row.value, Retrying, token) ==> Take(w, StorePaths(saved, raises)).op == RetryRaised(token, n))
      && (!saved ==> Take(w, StorePaths(saved, raises)).row == w.row)
      && (saved ==> Take(w, StorePaths(saved, raises)).row == Some(RetryPathsStored(w.row.value, token, n).row))
  {
  }

  /** A whole retry of an ended job: attempt n + 1 runs, launched once, and nothing of attempt n is left. */
  lemma WholeRetry(w: World, token: nat, n: nat, t: int, started: int) returns (w': World)
    requires w.op == Idle && w.tokens == {} && w.row.Some? && w.row.value.key == w.key && Ended(w.row.value, n) && token !in w.used
    ensures Leads(w, [TakeInventory(ForRetry, None), PublishRetry(token, true, false, t)]
                     + ([PrepareRetry(true), StorePaths(true, false)] + [LaunchRetry(true), CommitRetry(true, false, started)]), w')
    ensures w' == w.(alive := w.alive + {n + 1}, going := w.going + {n + 1}, launched := w.launched + {n + 1}, used := w.used + {token},
                     records := map[], row := w'.row)
    ensures w'.row == Some(w.row.value.(
      current := AttemptOf(w.key.job, n + 1), status := Running, operation := None, updatedAt := started, lastStartedAt := Some(started),
      completedAt := None, exitCode := None, error := None, logTruncated := false, outputBytes := 0))
  {
    var row := RetryingRow(w.row.value, n, token, t);
    RetryBegins(w, token, n, t);
    var a := w.(row := Some(row), tokens := {token}, used := w.used + {token}, op := RetryPublished(token, n + 1));
    RetryPrepares(a, row, token, n + 1);
    var stored := row.(pending := AttemptOf(w.key.job, n + 1));
    var b := a.(records := a.records - {StatusPath(a, n + 1)}, op := RetryReady(token, n + 1), row := Some(stored));
    w' := RetryEndsClean(b, stored, token, n + 1, started);
    LeadsOn(a, [PrepareRetry(true), StorePaths(true, false)], b, [LaunchRetry(true), CommitRetry(true, false, started)], w');
    LeadsOn(w, [TakeInventory(ForRetry, None), PublishRetry(token, true, false, t)], a,
            [PrepareRetry(true), StorePaths(true, false)] + [LaunchRetry(true), CommitRetry(true, false, started)], w');
  }

  // ----- refresh and tail

  /** A refresh in the machine is the refresh of the row; a tail that cannot read goes on with what it listed. */
  lemma WholeRefresh(w: World, inventory: Option<set<ShellName>>, now: int)
    requires w.op == Idle && w.tokens == {} && w.row.Some? && (inventory.Some? ==> Authoritative(inventory.value, w))
    ensures Leads(w, [TakeInventory(ForRefresh, inventory), RefreshRow(true, false, now)],
                  w.(row := Some(Refresh(w.row.value, Env(w, inventory, now)))))
  {
    TwoLead(w, TakeInventory(ForRefresh, inventory), RefreshRow(true, false, now));
  }

  lemma UnreadTail(w: World, listed: set<ShellName>, shell: ShellName, now: int, later: int)
    requires w.op == Seen(ForTail, Some(listed)) && w.tokens == {} && w.row.Some?
    requires Refresh(w.row.value, Env(w, Some(listed), now)).current.shell == Some(shell)
    ensures var r := Refresh(w.row.value, Env(w, Some(listed), now));
      Leads(w, [RefreshRow(true, true, now), FailTail(true, later)],
            w.(op := Idle, row := Some(TailFailed(r, shell, listed, "capture failed", later))))
  {
    TwoLead(w, RefreshRow(true, true, now), FailTail(true, later));
  }

  // ----- the runner's end, and the rest

  /** A run that ends is shown by the next refresh: the runner writes its record at the attempt's own status path, and
      the row succeeds exactly with exit code zero. */
  lemma EndedRunIsShown(w: World, n: nat, c: Completion, inventory: Option<set<ShellName>>, now: int) returns (w': World)
    requires w.op == Idle && w.tokens == {} && w.row.Some? && n in w.going
    requires var row := w.row.value; row.kind == Shell && row.status == Running && row.current == AttemptOf(w.key.job, n)
    requires inventory.Some? ==> Authoritative(inventory.value, w)
    ensures Leads(w, [RunnerEnds(n, c)] + [TakeInventory(ForRefresh, inventory), RefreshRow(true, false, now)], w')
    ensures w' == w.(going := w.going - {n}, records := w.records[AttemptPath(w.key.job, n, StatusPart) := c], row := w'.row)
    ensures w'.row.Some? && w'.row.value.status == (if c.exitCode == Some(0) then Succeeded else Failed)
      && w'.row.value.exitCode == c.exitCode && w'.row.value.current == w.row.value.current
  {
    var v := Take(w, RunnerEnds(n, c));
    Nowhere(v);
    StepLeads(w, RunnerEnds(n, c), [], v);
    assert [RunnerEnds(n, c)] + [] == [RunnerEnds(n, c)];
    WholeRefresh(v, inventory, now);
    RecordDecides(w.row.value, Env(v, inventory, now));
    w' := v.(row := Some(Refresh(v.row.value, Env(v, inventory, now))));
    LeadsOn(w, [RunnerEnds(n, c)], v, [TakeInventory(ForRefresh, inventory), RefreshRow(true, false, now)], w');
  }

  /** What the other steps leave: pruning drops the row and its records, a refused start its record, and a publication
      that is not saved nothing but the used token. */
  lemma OtherSteps(w: World, token: nat, t: int)
    ensures Enabled(w, Prune) ==> Take(w, Prune) == w.(row := None, records := map[])
    ensures Enabled(w, RefuseStart(false, t)) ==>
      Take(w, RefuseStart(false, t)) == w.(records := w.records - {AttemptPath(w.key.job, 1, StatusPart)}, op := Idle, tokens := {})
    ensures Enabled(w, PublishStop(token, false, true, t)) ==>
      Take(w, PublishStop(token, false, true, t)) == w.(used := w.used + {token}, op := Idle, tokens := {})
    ensures Enabled(w, PublishRetry(token, false, true, t)) ==>
      Take(w, PublishRetry(token, false, true, t)) == w.(used := w.used + {token}, op := Idle, tokens := {})
  {
  }
}
