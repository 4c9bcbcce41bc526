/** Reconciling one durable row with what can be observed of its shell or managed task. */
module Reconciliation {
  import opened Common
  import opened JobState

  datatype Liveness = Live | Gone | Unknown

  /** Terminal metadata the attempt runner writes to its status file. */
  datatype Completion = Completion(
    exitCode: Option<int>, completedAt: int, error: Option<string>, logTruncated: bool, outputBytes: int)

  datatype Observation = Observation(
    now: int, shell: Liveness, status: Option<Completion>, pendingStatus: Option<Completion>,
    operation: Option<OperationKind>, localTask: bool, lease: Liveness)

  /** Fields to write; `None` leaves a field alone. */
  datatype Updates = Updates(
    current: Option<Attempt>, status: Option<Status>, updatedAt: Option<int>, lastStartedAt: Option<int>,
    completedAt: Option<Option<int>>, exitCode: Option<Option<int>>, error: Option<Option<string>>,
    logTruncated: Option<bool>, outputBytes: Option<int>, absenceConfirmed: Option<bool>)

  const NO_UPDATES := Updates(None, None, None, None, None, None, None, None, None, None)

  datatype Transition = Transition(updates: Updates, removePending: bool, removeAbsence: bool, clearOperation: bool)

  const KEEP := Transition(NO_UPDATES, false, false, false)

  function Or<T>(o: Option<T>, d: T): T { if o.Some? then o.value else d }

  function Prefer<T>(a: Option<T>, b: Option<T>): Option<T> { if a.Some? then a else b }

  /** The running attempt after adopting whatever pending fields are set. */
  function AdoptPending(job: JobRow): Attempt {
    Attempt(Prefer(job.pending.number, job.current.number), Prefer(job.pending.shell, job.current.shell),
            Prefer(job.pending.command, job.current.command), Prefer(job.pending.log, job.current.log),
            Prefer(job.pending.status, job.current.status))
  }

  function CompletionTransition(c: Completion, now: int, adopted: Option<Attempt>): Transition {
    var completedAt := if c.completedAt != 0 then c.completedAt else now;
    Transition(
      Updates(adopted, Some(if c.exitCode == Some(0) then Succeeded else Failed), Some(completedAt), None,
              Some(Some(completedAt)), Some(c.exitCode), Some(c.error), Some(c.logTruncated), Some(c.outputBytes), None),
      adopted.Some?, true, true)
  }

  /** Enter `status` now, as finished or as still going. */
  function Enter(status: Status, now: int, error: Option<string>, finished: bool): Updates {
    NO_UPDATES.(status := Some(status), updatedAt := Some(now),
                completedAt := Some(if finished then Some(now) else None), exitCode := Some(None), error := Some(error))
  }

  function ExpectedOperation(s: Status): Option<OperationKind> {
    match s
    case Starting => Some(StartOp)
    case Stopping => Some(StopOp)
    case Retrying => Some(RetryOp)
    case _ => None
  }

  /** The decision, without I/O or mutation. */
  function ReconcileJob(job: JobRow, o: Observation): Transition {
    if job.status == Lost && job.kind == Shell then
      if o.status.Some? then CompletionTransition(o.status.value, o.now, None)
      else match o.shell
        case Unknown => KEEP
        case Live => Transition(Enter(Running, o.now, Some("recovered a lost job"), false), false, true, false)
        case Gone => KEEP.(updates := NO_UPDATES.(absenceConfirmed := Some(true)))
    else if !job.status.Active() then KEEP
    else if job.kind == Managed then
      if o.operation.Some? || o.localTask || !o.lease.Gone? then KEEP
      else
        var stopped := job.status == Stopping;
        KEEP.(updates := Enter(if stopped then Stopped else Lost, o.now,
                               if stopped then None else Some("managed job is no longer running"), true),
              clearOperation := true)
    else if ExpectedOperation(job.status).Some? && o.operation == ExpectedOperation(job.status) then KEEP
    else if job.status == Starting then
      if o.status.Some? then CompletionTransition(o.status.value, o.now, None)
      else match o.shell
        case Unknown => KEEP
        case Live =>
          KEEP.(updates := Enter(Running, o.now, Some("recovered job start"), false)
                             .(lastStartedAt := Some(StartedAt(job, o.now))),
                clearOperation := true)
        case Gone =>
          KEEP.(updates := Enter(Failed, o.now, Some("job start was interrupted"), true), clearOperation := true)
    else if job.status == Retrying then
      var adopted := Some(AdoptPending(job));
      if o.pendingStatus.Some? then CompletionTransition(o.pendingStatus.value, o.now, adopted)
      else match o.shell
        case Unknown => KEEP
        case Live =>
          Transition(Enter(Running, o.now, Some("recovered retry"), false)
                       .(current := adopted, lastStartedAt := Some(o.now)), true, false, true)
        case Gone =>
          Transition(Enter(Failed, o.now, Some("retry was interrupted"), true).(current := adopted), true, false, true)
    else if o.status.Some? then CompletionTransition(o.status.value, o.now, None)
    else if o.shell.Unknown? then KEEP
    else if job.status == Stopping then
      if o.shell.Live? then
        KEEP.(updates := NO_UPDATES.(status := Some(Running), updatedAt := Some(o.now),
                                     error := Some(Some("recovered an interrupted stop request"))),
              clearOperation := true)
      else KEEP.(updates := Enter(Stopped, o.now, None, true), clearOperation := true)
    else if o.shell.Live? then KEEP
    else
      KEEP.(updates := Enter(Lost, o.now, Some("job shell exited without a durable completion record"), true)
                         .(absenceConfirmed := Some(true)))
  }

  /** `job.get("last_started_at") or now`: a zero time counts as missing. */
  function StartedAt(job: JobRow, now: int): int {
    if job.lastStartedAt.Some? && job.lastStartedAt.value != 0 then job.lastStartedAt.value else now
  }

  /** Apply one decision to a row: drop the operation, remove keys, then write the updates. */
  function ApplyTransition(job: JobRow, t: Transition): JobRow {
    var u := t.updates;
    job.(operation := if t.clearOperation then None else job.operation,
         pending := if t.removePending then NO_ATTEMPT else job.pending,
         absenceConfirmed := Or(u.absenceConfirmed, if t.removeAbsence then false else job.absenceConfirmed),
         current := Or(u.current, job.current),
         status := Or(u.status, job.status),
         updatedAt := Or(u.updatedAt, job.updatedAt),
         lastStartedAt := if u.lastStartedAt.Some? then u.lastStartedAt else job.lastStartedAt,
         completedAt := Or(u.completedAt, job.completedAt),
         exitCode := Or(u.exitCode, job.exitCode),
         error := Or(u.error, job.error),
         logTruncated := Or(u.logTruncated, job.logTruncated),
         outputBytes := Or(u.outputBytes, job.outputBytes))
  }

  /** Everything one refresh reads: an authoritative inventory of live shells or nothing, the status
      files, this process's operation tokens, the managed probes and the clock. */
  datatype Environment = Environment(
    inventory: Option<set<ShellName>>, records: map<AttemptPath, Completion>, tokens: set<nat>,
    localTask: bool, lease: Liveness, now: int)

  function ShellLiveness(shell: Option<ShellName>, inventory: Option<set<ShellName>>): Liveness {
    if inventory.None? then Unknown
    else if shell.Some? && shell.value in inventory.value then Live
    else Gone
  }

  function ReadStatus(path: Option<AttemptPath>, records: map<AttemptPath, Completion>): Option<Completion> {
    if path.Some? && path.value in records then Some(records[path.value]) else None
  }

  function ActiveOperation(job: JobRow, tokens: set<nat>): Option<OperationKind> {
    if job.operation.Some? && job.operation.value.id in tokens then Some(job.operation.value.kind) else None
  }

  function Observe(job: JobRow, e: Environment): Observation {
    var operation := ActiveOperation(job, e.tokens);
    var blind := Observation(e.now, Unknown, None, None, operation, false, Unknown);
    if operation.Some? && (job.kind == Managed || operation == ExpectedOperation(job.status)) then blind
    else if job.kind == Managed then blind.(localTask := e.localTask, lease := if e.localTask then Unknown else e.lease)
    else if job.status == Retrying then
      blind.(pendingStatus := ReadStatus(job.pending.status, e.records),
             shell := ShellLiveness(job.pending.shell, e.inventory))
    else
      blind.(status := ReadStatus(job.current.status, e.records),
             shell := ShellLiveness(job.current.shell, e.inventory))
  }

  /** `_refresh_job_status`: observe, decide, apply. */
  function Refresh(job: JobRow, e: Environment): JobRow {
    if !(job.status == Lost && job.kind == Shell) && !job.status.Active() then job
    else ApplyTransition(job, ReconcileJob(job, Observe(job, e)))
  }

  // ----- results

  /** The one observation after which a second refresh may decide differently: a retry whose pending
      shell is live although its pending status path was never stored, while the previous attempt
      left a completion record. */
  predicate AdoptsShellWithoutPath(job: JobRow, e: Environment) {
    && job.kind == Shell && job.status == Retrying
    && ActiveOperation(job, e.tokens) != Some(RetryOp)
    && ShellLiveness(job.pending.shell, e.inventory) == Live
    && job.pending.status.None?
    && ReadStatus(job.current.status, e.records).Some?
  }

  /** Rows that a refresh in this environment leaves alone. */
  predicate Settled(job: JobRow, e: Environment) {
    || (!job.status.Active() && job.status != Lost)
    || (&& job.kind == Shell && job.status == Running && ReadStatus(job.current.status, e.records).None?
        && ShellLiveness(job.current.shell, e.inventory) == Live)
    || (&& job.kind == Shell && job.status == Lost && ReadStatus(job.current.status, e.records).None?
        && ShellLiveness(job.current.shell, e.inventory) == Gone && job.absenceConfirmed)
    || (job.kind == Managed && job.status == Lost)
  }

  lemma SettledStays(job: JobRow, e: Environment)
    requires Settled(job, e)
    ensures Refresh(job, e) == job
  {
  }

  lemma SettlesStarting(job: JobRow, e: Environment)
    requires job.kind == Shell && job.status == Starting
    ensures Refresh(job, e) == job || Settled(Refresh(job, e), e)
  {
  }

  lemma SettlesRetrying(job: JobRow, e: Environment)
    requires job.kind == Shell && job.status == Retrying
    ensures Refresh(job, e) == job || Settled(Refresh(job, e), e) || AdoptsShellWithoutPath(job, e)
  {
  }

  lemma SettlesOther(job: JobRow, e: Environment)
    requires job.kind == Managed || job.status !in {Starting, Retrying}
    ensures Refresh(job, e) == job || Settled(Refresh(job, e), e)
  {
    if job.kind == Managed { SettlesManaged(job, e); } else { SettlesShell(job, e); }
  }

  lemma SettlesManaged(job: JobRow, e: Environment)
    requires job.kind == Managed
    ensures Refresh(job, e) == job || Settled(Refresh(job, e), e)
  {
  }

  lemma SettlesShell(job: JobRow, e: Environment)
    requires job.kind == Shell && job.status !in {Starting, Retrying}
    ensures Refresh(job, e) == job || Settled(Refresh(job, e), e)
  {
    if job.status == Lost { SettlesLost(job, e); }
    else if job.status == Stopping { SettlesStopping(job, e); }
    else if job.status == Running { SettlesRunning(job, e); }
    else { assert !job.status.Active(); }
  }

  lemma SettlesRunning(job: JobRow, e: Environment)
    requires job.kind == Shell && job.status == Running
    ensures Refresh(job, e) == job || Settled(Refresh(job, e), e)
  {
  }

  lemma SettlesLost(job: JobRow, e: Environment)
    requires job.kind == Shell && job.status == Lost
    ensures Refresh(job, e) == job || Settled(Refresh(job, e), e)
  {
  }

  lemma SettlesStopping(job: JobRow, e: Environment)
    requires job.kind == Shell && job.status == Stopping
    ensures Refresh(job, e) == job || Settled(Refresh(job, e), e)
  {
  }

  lemma AdoptionIsUnsettled(job: JobRow, e: Environment)
    requires AdoptsShellWithoutPath(job, e)
    ensures Refresh(Refresh(job, e), e) != Refresh(job, e)
  {
    var once := Refresh(job, e);
    assert once.status == Running && once.current.status == job.current.status;
    assert Refresh(once, e).status != Running;
  }

  /** In a fixed environment one refresh reaches a fixed point, for every row, unless it makes that
      one adoption; and then it never does. */
  lemma RefreshFixedPoint(job: JobRow, e: Environment)
    ensures Refresh(Refresh(job, e), e) == Refresh(job, e) <==> !AdoptsShellWithoutPath(job, e)
  {
    if AdoptsShellWithoutPath(job, e) {
      AdoptionIsUnsettled(job, e);
    } else {
      if job.kind == Shell && job.status == Starting {
        SettlesStarting(job, e);
      } else if job.kind == Shell && job.status == Retrying {
        SettlesRetrying(job, e);
      } else {
        SettlesOther(job, e);
      }
      if Refresh(job, e) != job {
        SettledStays(Refresh(job, e), e);
      }
    }
  }

  /** With no authoritative inventory and no completion record, a shell row does not change. */
  lemma UnknownChangesNothing(job: JobRow, e: Environment)
    requires job.kind == Shell && e.inventory.None?
    requires ReadStatus(if job.status == Retrying then job.pending.status else job.current.status, e.records).None?
    ensures Refresh(job, e) == job
  {
  }

  /** A refresh by another process either leaves a staged row alone or takes its token away, and it
      never revives a token: so a commit that still finds its token finds the row it staged. */
  lemma RefreshTakesTheTokenOrNothing(job: JobRow, e: Environment)
    requires job.status in {Starting, Stopping, Retrying}
    ensures Refresh(job, e) == job || Refresh(job, e).operation.None?
  {
  }

  lemma DecisionNeverStages(job: JobRow, o: Observation)
    ensures ReconcileJob(job, o).updates.status !in {Some(Starting), Some(Stopping), Some(Retrying)}
  {
  }

  /** A refresh never invents an operation, and keeps key, kind, creation time and journal bookkeeping. */
  lemma RefreshKeepsIdentity(job: JobRow, e: Environment)
    ensures var r := Refresh(job, e);
      && r.key == job.key && r.kind == job.kind && r.createdAt == job.createdAt && r.applied == job.applied
      && (r.operation == job.operation || r.operation.None?)
      && (r.status == job.status || r.status !in {Starting, Stopping, Retrying})
  {
    DecisionNeverStages(job, Observe(job, e));
    var t := ReconcileJob(job, Observe(job, e));
    var r := ApplyTransition(job, t);
    assert r.status == Or(t.updates.status, job.status);
  }

  predicate OwnOperation(job: JobRow, tokens: set<nat>) {
    ActiveOperation(job, tokens).Some? && ActiveOperation(job, tokens) == ExpectedOperation(job.status)
  }

  /** A refresh never evicts a live job. It ends an active shell row exactly when this process has no
      operation on it and there is a completion record, or an authoritative inventory without its shell;
      and an active managed row exactly when no operation and no local task of this process has it and
      its lease is known to be gone. */
  lemma RefreshEndsExactlyOnEvidence(job: JobRow, e: Environment)
    requires job.status.Active()
    ensures var a := if job.status == Retrying then job.pending else job.current;
      Refresh(job, e).status.Terminal() <==>
        if job.kind == Managed then ActiveOperation(job, e.tokens).None? && !e.localTask && e.lease.Gone?
        else
          && !OwnOperation(job, e.tokens)
          && (ReadStatus(a.status, e.records).Some?
              || (e.inventory.Some? && (a.shell.None? || a.shell.value !in e.inventory.value)))
  {
  }

  // ----- what a refresh makes of a row, case by case

  /** The completion record of the attempt the row's status speaks of, if it was read. */
  function RecordOf(job: JobRow, e: Environment): Option<Completion> {
    var path := if job.status == Retrying then job.pending.status else job.current.status;
    if path.Some? && path.value in e.records then Some(e.records[path.value]) else None
  }

  function ShellOf(job: JobRow): Option<ShellName> {
    if job.status == Retrying then job.pending.shell else job.current.shell
  }

  /** This process is working on the row. */
  predicate Working(job: JobRow, e: Environment) {
    && job.operation.Some? && job.operation.value.id in e.tokens
    && match job.operation.value.kind
       case StartOp => job.status == Starting
       case StopOp => job.status == Stopping
       case RetryOp => job.status == Retrying
  }

  /** No success without evidence: a refresh shows success only where a record with exit code zero stands at
      the attempt's own status path, and then the row shows that record. */
  lemma NoSuccessWithoutEvidence(job: JobRow, e: Environment)
    requires Refresh(job, e).status == Succeeded && job.status != Succeeded
    ensures job.kind == Shell && RecordOf(job, e).Some? && RecordOf(job, e).value.exitCode == Some(0)
    ensures Refresh(job, e).exitCode == Some(0)
  {
  }

  /** The attempt a retry stands for: each pending field where it is set, and the current one elsewhere. */
  function Adopted(job: JobRow): Attempt {
    Attempt(if job.pending.number == None then job.current.number else job.pending.number,
            if job.pending.shell == None then job.current.shell else job.pending.shell,
            if job.pending.command == None then job.current.command else job.pending.command,
            if job.pending.log == None then job.current.log else job.pending.log,
            if job.pending.status == None then job.current.status else job.pending.status)
  }

  /** The row with its retry adopted, if it has one under way. */
  function Settling(job: JobRow): JobRow {
    if job.status == Retrying then job.(current := Adopted(job), pending := NO_ATTEMPT) else job
  }

  /** A record decides: success exactly with exit code zero, failure otherwise; its fields are shown, the
      operation is over, a retry's attempt is adopted, and nothing else changes. */
  lemma RecordDecides(job: JobRow, e: Environment)
    requires job.kind == Shell && (job.status.Active() || job.status == Lost) && !Working(job, e) && RecordOf(job, e).Some?
    ensures var c := RecordOf(job, e).value;
      var ended := if c.completedAt != 0 then c.completedAt else e.now;
      Refresh(job, e) == Settling(job).(
        status := if c.exitCode == Some(0) then Succeeded else Failed, operation := None, updatedAt := ended, completedAt := Some(ended),
        exitCode := c.exitCode, error := c.error, logTruncated := c.logTruncated, outputBytes := c.outputBytes,
        absenceConfirmed := false)
  {
    var c, o := RecordOf(job, e).value, Observe(job, e);
    if job.status == Retrying { RetryRecord(job, o, c); } else { PlainRecord(job, o, c); }
  }

  lemma RetryRecord(job: JobRow, o: Observation, c: Completion)
    requires job.kind == Shell && job.status == Retrying && o.operation != Some(RetryOp) && o.pendingStatus == Some(c)
    ensures var ended := if c.completedAt != 0 then c.completedAt else o.now;
      ApplyTransition(job, ReconcileJob(job, o)) == job.(
        current := Adopted(job), pending := NO_ATTEMPT,
        status := if c.exitCode == Some(0) then Succeeded else Failed, operation := None, updatedAt := ended, completedAt := Some(ended),
        exitCode := c.exitCode, error := c.error, logTruncated := c.logTruncated, outputBytes := c.outputBytes,
        absenceConfirmed := false)
  {
  }

  lemma PlainRecord(job: JobRow, o: Observation, c: Completion)
    requires job.kind == Shell && job.status in {Starting, Running, Stopping, Lost} && o.status == Some(c)
    requires job.status == Lost || o.operation.None? || o.operation != ExpectedOperation(job.status)
    ensures var ended := if c.completedAt != 0 then c.completedAt else o.now;
      ApplyTransition(job, ReconcileJob(job, o)) == job.(
        status := if c.exitCode == Some(0) then Succeeded else Failed, operation := None, updatedAt := ended, completedAt := Some(ended),
        exitCode := c.exitCode, error := c.error, logTruncated := c.logTruncated, outputBytes := c.outputBytes,
        absenceConfirmed := false)
  {
  }

  /** The shell is authoritatively absent, and there is no record. */
  predicate Vanished(job: JobRow, e: Environment) {
    && job.kind == Shell && !Working(job, e) && RecordOf(job, e).None?
    && e.inventory.Some? && (ShellOf(job).None? || ShellOf(job).value !in e.inventory.value)
  }

  lemma LaunchVanished(job: JobRow, e: Environment)
    requires Vanished(job, e) && job.status in {Starting, Retrying}
    ensures var r := Refresh(job, e);
      && r.error.Some?
      && r == Settling(job).(status := Failed, operation := None, updatedAt := e.now, completedAt := Some(e.now), exitCode := None,
                             error := r.error)
  {
    var o := Observe(job, e);
    assert o.shell.Gone? && o.now == e.now && (if job.status == Starting then o.status.None? else o.pendingStatus.None?);
    LaunchDecision(job, o);
  }

  lemma LaunchDecision(job: JobRow, o: Observation)
    requires job.kind == Shell && job.status in {Starting, Retrying} && o.operation != ExpectedOperation(job.status)
    requires o.shell.Gone? && if job.status == Starting then o.status.None? else o.pendingStatus.None?
    ensures var r := ApplyTransition(job, ReconcileJob(job, o));
      && r.error.Some?
      && r == Settling(job).(status := Failed, operation := None, updatedAt := o.now, completedAt := Some(o.now), exitCode := None,
                             error := r.error)
  {
  }

  lemma StopVanished(job: JobRow, e: Environment)
    requires Vanished(job, e) && job.status == Stopping
    ensures Refresh(job, e)
      == job.(status := Stopped, operation := None, updatedAt := e.now, completedAt := Some(e.now), exitCode := None, error := None)
  {
  }

  lemma RunningVanished(job: JobRow, e: Environment)
    requires Vanished(job, e) && job.status == Running
    ensures var r := Refresh(job, e);
      && r.error.Some?
      && r == job.(status := Lost, absenceConfirmed := true, updatedAt := e.now, completedAt := Some(e.now), exitCode := None,
                   error := r.error)
  {
    var o := Observe(job, e);
    assert o.status.None? && o.shell.Gone?;
    RunningDecision(job, o);
  }

  lemma RunningDecision(job: JobRow, o: Observation)
    requires job.kind == Shell && job.status == Running && o.status.None? && o.shell.Gone?
    ensures var r := ApplyTransition(job, ReconcileJob(job, o));
      && r.error.Some?
      && r == job.(status := Lost, absenceConfirmed := true, updatedAt := o.now, completedAt := Some(o.now), exitCode := None,
                   error := r.error)
  {
  }

  lemma LostVanished(job: JobRow, e: Environment)
    requires Vanished(job, e) && job.status == Lost
    ensures Refresh(job, e) == job.(absenceConfirmed := true)
  {
  }

  /** An authoritative inventory without the shell, and no record: an interrupted start or retry failed, a
      stop succeeded, a running job is lost with its absence confirmed, and nothing else changes. */
  lemma AbsenceDecides(job: JobRow, e: Environment)
    requires job.kind == Shell && (job.status.Active() || job.status == Lost) && !Working(job, e) && RecordOf(job, e).None?
    requires e.inventory.Some? && (ShellOf(job).None? || ShellOf(job).value !in e.inventory.value)
    ensures var r := Refresh(job, e);
      var ended := Settling(job).(updatedAt := e.now, completedAt := Some(e.now), exitCode := None, error := r.error);
      && (job.status in {Starting, Retrying} ==> r == ended.(status := Failed, operation := None) && r.error.Some?)
      && (job.status == Stopping ==> r == ended.(status := Stopped, operation := None) && r.error == None)
      && (job.status == Running ==> r == ended.(status := Lost, absenceConfirmed := true) && r.error.Some?)
      && (job.status == Lost ==> r == job.(absenceConfirmed := true))
  {
    if job.status in {Starting, Retrying} {
      LaunchVanished(job, e);
    } else if job.status == Lost {
      LostVanished(job, e);
    } else if job.status == Stopping {
      StopVanished(job, e);
    } else {
      RunningVanished(job, e);
    }
  }

  /** The shell is listed, and there is no record. */
  predicate Present(job: JobRow, e: Environment) {
    && job.kind == Shell && !Working(job, e) && RecordOf(job, e).None?
    && e.inventory.Some? && ShellOf(job).Some? && ShellOf(job).value in e.inventory.value
  }

  lemma LaunchPresent(job: JobRow, e: Environment)
    requires Present(job, e) && job.status in {Starting, Retrying}
    ensures var r := Refresh(job, e);
      && r.error.Some?
      && r == Settling(job).(
           status := Running, operation := None, updatedAt := e.now, completedAt := None, exitCode := None, error := r.error,
           lastStartedAt := if job.status == Starting && job.lastStartedAt.Some? && job.lastStartedAt.value != 0 then job.lastStartedAt
                            else Some(e.now))
  {
  }

  lemma OthersPresent(job: JobRow, e: Environment)
    requires Present(job, e) && job.status in {Running, Stopping, Lost}
    ensures var r := Refresh(job, e);
      && (job.status == Running ==> r == job)
      && (job.status == Stopping ==>
            r.error.Some? && r == job.(status := Running, operation := None, updatedAt := e.now, error := r.error))
      && (job.status == Lost ==>
            r.error.Some? && r == job.(status := Running, absenceConfirmed := false, updatedAt := e.now, completedAt := None,
                                       exitCode := None, error := r.error))
  {
  }

  /** An inventory with the shell, and no record: a start, a retry and a lost job run again, a stop that was
      interrupted is taken back, a running job stays as it is, and nothing else changes. */
  lemma PresenceDecides(job: JobRow, e: Environment)
    requires job.kind == Shell && (job.status.Active() || job.status == Lost) && !Working(job, e) && RecordOf(job, e).None?
    requires e.inventory.Some? && ShellOf(job).Some? && ShellOf(job).value in e.inventory.value
    ensures var r := Refresh(job, e);
      && (job.status == Running ==> r == job)
      && (job.status != Running ==> r.error.Some?)
      && (job.status in {Starting, Retrying} ==>
            r == Settling(job).(
              status := Running, operation := None, updatedAt := e.now, completedAt := None, exitCode := None, error := r.error,
              lastStartedAt := if job.status == Starting && job.lastStartedAt.Some? && job.lastStartedAt.value != 0 then job.lastStartedAt
                               else Some(e.now)))
      && (job.status == Stopping ==> r == job.(status := Running, operation := None, updatedAt := e.now, error := r.error))
      && (job.status == Lost ==>
            r == job.(status := Running, absenceConfirmed := false, updatedAt := e.now, completedAt := None, exitCode := None,
                      error := r.error))
  {
    if job.status in {Starting, Retrying} { LaunchPresent(job, e); } else { OthersPresent(job, e); }
  }

  /** Nothing known, or this process at work: nothing changes. */
  lemma NothingDecides(job: JobRow, e: Environment)
    requires job.kind == Shell
    requires Working(job, e) || (RecordOf(job, e).None? && e.inventory.None?) || !(job.status.Active() || job.status == Lost)
    requires job.status == Lost ==> !Working(job, e)
    ensures Refresh(job, e) == job
  {
  }

  /** A managed row whose lease is dead and that nobody here works on: a stop is done, anything else lost, and
      nothing else changes. */
  lemma DeadLeaseDecides(job: JobRow, e: Environment)
    requires job.kind == Managed && job.status.Active()
    ensures var r := Refresh(job, e);
      if e.lease == Gone && !e.localTask && !(job.operation.Some? && job.operation.value.id in e.tokens) then
        && r.error.Some? == (job.status != Stopping)
        && r == job.(status := if job.status == Stopping then Stopped else Lost, operation := None, updatedAt := e.now,
                     completedAt := Some(e.now), exitCode := None, error := r.error)
      else r == job
  {
  }
}
