/** The tracked-job row and the managed updates that change it. */
module JobState {
  import opened Common

  datatype Status =
    | Starting | Running | Stopping | Retrying
    | Succeeded | Failed | Exited | Stopped | Lost
    | Unrecognized
  {
    predicate Active() { Starting? || Running? || Stopping? || Retrying? }
    predicate Terminal() { Succeeded? || Failed? || Exited? || Stopped? || Lost? }
  }

  datatype Kind = Shell | Managed

  datatype JobKey = JobKey(session: string, job: string)

  datatype OperationKind = StartOp | StopOp | RetryOp

  datatype Operation = Operation(id: nat, kind: OperationKind)

  datatype Part = CommandPart | LogPart | StatusPart

  /** Attempt artifacts are named by job, attempt number and part. */
  datatype AttemptPath = AttemptPath(job: string, attempt: nat, part: Part)

  datatype ShellName = ShellName(job: string, attempt: nat)

  /** One attempt as a row describes it; the pending group uses the same five keys. */
  datatype Attempt = Attempt(
    number: Option<nat>,
    shell: Option<ShellName>,
    command: Option<AttemptPath>,
    log: Option<AttemptPath>,
    status: Option<AttemptPath>)

  const NO_ATTEMPT := Attempt(None, None, None, None, None)

  /** A journal file name: zero-padded sequence, zero-padded clock, random suffix. */
  datatype UpdateId = UpdateId(sequence: nat, stamp: nat, nonce: string)

  /** One durable row. Time stamps are whole ticks and 0 stands for a missing stamp. */
  datatype JobRow = JobRow(
    key: JobKey,
    kind: Kind,
    status: Status,
    current: Attempt,
    pending: Attempt,
    operation: Option<Operation>,
    createdAt: int,
    updatedAt: int,
    lastStartedAt: Option<int>,
    completedAt: Option<int>,
    exitCode: Option<int>,
    error: Option<string>,
    logTruncated: bool,
    outputBytes: int,
    progress: Option<string>,
    result: Option<string>,
    absenceConfirmed: bool,
    applied: seq<UpdateId>)

  const MANAGED_STATE_MAX_BYTES := 262_144

  /** A loosely typed numeric payload field. */
  datatype Field = Missing | Number(n: int) | Junk

  /** A payload object: its encoded text and size, or a value that is not an object. */
  datatype JsonValue = Object(text: string, size: nat) | NotObject
  {
    /** Whether normalising the value succeeds. */
    predicate Fits() { Object? && size <= MANAGED_STATE_MAX_BYTES }
  }

  datatype ManagedUpdate =
    | AppendLog(bytes: Field, truncated: bool, updatedAt: Field)
    | UpdateProgress(progress: JsonValue, updatedAt: Field)
    | Finish(status: Option<Status>, completedAt: Field, exitCode: Option<int>,
             error: Option<string>, result: Option<JsonValue>)

  /** The row after an update, and whether the update ran to its end without raising. */
  datatype Applied = Applied(row: JobRow, ok: bool)

  /** A field that defaults to `fallback` when missing or zero. */
  function NumberOr(f: Field, fallback: int): int
    requires !f.Junk?
  {
    if f.Number? && f.n != 0 then f.n else fallback
  }

  /** Apply one managed update. When a field cannot be converted the update raises, and the
      changes made before that point stay in the row. */
  function ApplyManagedUpdate(job: JobRow, update: ManagedUpdate, now: int): Applied {
    match update
    case AppendLog(bytes, truncated, updatedAt) =>
      if bytes.Junk? then Applied(job, false)
      else
        var counted := job.(outputBytes := job.outputBytes + Max(0, NumberOr(bytes, 0)),
                            logTruncated := job.logTruncated || truncated);
        if updatedAt.Junk? then Applied(counted, false)
        else Applied(counted.(updatedAt := NumberOr(updatedAt, now)), true)
    case UpdateProgress(progress, updatedAt) =>
      if !job.status.Active() then Applied(job, true)
      else if !progress.Fits() then Applied(job, false)
      else
        var shown := job.(progress := Some(progress.text));
        if updatedAt.Junk? then Applied(shown, false)
        else Applied(shown.(updatedAt := NumberOr(updatedAt, now)), true)
    case Finish(status, completedAt, exitCode, error, result) =>
      if !job.status.Active() then Applied(job, true)
      else if completedAt.Junk? then Applied(job, false)
      else
        var completed := NumberOr(completedAt, now);
        var done := job.(status := if status.Some? then status.value else Failed,
                         updatedAt := completed, completedAt := Some(completed),
                         exitCode := exitCode, error := error);
        if result.None? then Applied(done.(operation := None), true)
        else if !result.value.Fits() then Applied(done, false)
        else Applied(done.(result := Some(result.value.text), operation := None), true)
  }

  predicate ProperTime(f: Field) { f.Number? && f.n != 0 }

  /** The shape of every payload the managed runtime itself writes. */
  predicate WellFormed(u: ManagedUpdate) {
    match u
    case AppendLog(bytes, _, updatedAt) => bytes.Number? && bytes.n >= 0 && ProperTime(updatedAt)
    case UpdateProgress(progress, updatedAt) => progress.Fits() && ProperTime(updatedAt)
    case Finish(status, completedAt, _, _, result) =>
      && ProperTime(completedAt)
      && (status.Some? ==> status.value.Terminal())
      && (result.Some? ==> result.value.Fits())
  }

  /** What a well-formed update does to a row; the clock is not consulted. */
  function Effect(job: JobRow, u: ManagedUpdate): JobRow {
    ApplyManagedUpdate(job, u, 0).row
  }

  /** A well-formed update never raises, does not depend on the time of replay, and neither
      reads nor writes the list of replayed journal ids. */
  lemma WellFormedUpdatesAreDeterministic(job: JobRow, u: ManagedUpdate, now: int, ids: seq<UpdateId>)
    requires WellFormed(u)
    ensures ApplyManagedUpdate(job, u, now) == Applied(Effect(job, u), true)
    ensures Effect(job.(applied := ids), u) == Effect(job, u).(applied := ids)
    ensures Effect(job, u).key == job.key && Effect(job, u).applied == job.applied
  {
  }

  /** The row with its journal bookkeeping removed. */
  function Content(r: JobRow): JobRow { r.(applied := []) }

  /** The first row of one session's job; `|rows|` when there is none. */
  function FindSessionJob(rows: seq<JobRow>, key: JobKey): (i: nat)
    ensures i <= |rows|
    ensures i < |rows| ==> rows[i].key == key
    ensures forall j :: 0 <= j < i ==> rows[j].key != key
  {
    if rows == [] then 0
    else if rows[0].key == key then 0
    else 1 + FindSessionJob(rows[1..], key)
  }

  ghost predicate DistinctKeys(rows: seq<JobRow>) {
    forall i, j :: 0 <= i < j < |rows| ==> rows[i].key != rows[j].key
  }
}
