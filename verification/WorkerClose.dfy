/** The close handshake of one worker: a close request is never lost. */
module WorkerClose {
  datatype Phase = New | Starting | Running | Retiring | Closed

  function Rank(p: Phase): nat {
    match p
    case New => 0
    case Starting => 1
    case Running => 2
    case Retiring => 3
    case Closed => 4
  }

  /** Where the worker thread stands. `Booted`: the loop is published, the flag not yet read.
      `Opening`: inside start-up, at an await. `Opened`: initialize has returned, the flag not yet read.
      `Serving`: awaiting the stop event. `Leaving`: past it, tearing down;
      `Cleared`: the session and the operation lock are gone. */
  datatype Pc = NotStarted | Launched | Booted | Opening | Opened | Serving | Leaving | Cleared | Dead

  /** Who waits for the operation lock, first come first served; the head holds it. */
  datatype Waiter = Operation | Stop

  /** `asked`: `request_close` calls that have set the flag and not yet read the loop; `sending`: those
      that saw it running; `returned`: some `request_close` has returned. `callbacks`: close callbacks the
      loop has not run; `stops`: stop tasks created and not yet waiting for the lock; `hasLock`: the lock
      exists. */
  datatype Worker = Worker(
    pc: Pc, phase: Phase, flag: bool, cancelled: bool, stopEvent: bool,
    asked: nat, sending: nat, returned: bool, callbacks: nat, stops: nat, hasLock: bool, queue: seq<Waiter>)

  const START := Worker(NotStarted, New, false, false, false, 0, 0, false, 0, 0, false, [])

  datatype Step =
    // the worker thread
    | Launch | Boot | ReadFlagEarly | OpenFails | OpenReturns | ReadFlagLate | Wake | Break | Clear | Finish
    // its loop, at an await
    | RunCallback | RunStop | Enqueue | LockToStop | OperationDone
    // requesting threads
    | Request | ReadLoop | Send

  predicate LoopRunning(w: Worker) {
    w.pc.Booted? || w.pc.Opening? || w.pc.Opened? || w.pc.Serving? || w.pc.Leaving? || w.pc.Cleared?
  }

  /** The loop runs other tasks only while the main task awaits. */
  predicate Awaiting(w: Worker) { w.pc.Opening? || w.pc.Serving? || w.pc.Leaving? || w.pc.Cleared? }

  predicate Enabled(w: Worker, s: Step) {
    match s
    case Launch => w.pc.NotStarted?
    case Boot => w.pc.Launched?
    case ReadFlagEarly => w.pc.Booted?
    case OpenFails => w.pc.Opening?
    case OpenReturns => w.pc.Opening?
    case ReadFlagLate => w.pc.Opened?
    case Wake => w.pc.Serving? && w.stopEvent
    case Break => w.pc.Serving?
    case Clear => w.pc.Leaving?
    case Finish => w.pc.Cleared?
    case RunCallback => Awaiting(w) && w.callbacks > 0
    case RunStop => Awaiting(w) && w.stops > 0
    case Enqueue => Awaiting(w) && w.hasLock
    case LockToStop => Awaiting(w) && w.queue != [] && w.queue[0].Stop?
    case OperationDone => Awaiting(w) && w.queue != [] && w.queue[0].Operation?
    case Request => true
    case ReadLoop => w.asked > 0
    case Send => w.sending > 0
  }

  /** Phase changes in the source assign unconditionally; so does this. */
  function Take(w: Worker, s: Step): Worker
    requires Enabled(w, s)
  {
    match s
    case Launch => w.(pc := Launched)
    case Boot => w.(pc := Booted)
    case ReadFlagEarly => if w.flag then w.(pc := Leaving, phase := Retiring) else w.(pc := Opening, phase := Starting)
    case OpenFails => w.(pc := Leaving, phase := Retiring)
    case OpenReturns => w.(pc := Opened)
    case ReadFlagLate => if w.flag then w.(pc := Leaving, phase := Retiring) else w.(pc := Serving, phase := Running, hasLock := true)
    case Wake => w.(pc := Leaving, phase := Retiring)
    case Break => w.(pc := Leaving, phase := Retiring)
    case Clear => w.(pc := Cleared, hasLock := false)
    case Finish => w.(pc := Dead, phase := Closed)
    case RunCallback =>
      if w.phase.Starting? then w.(callbacks := w.callbacks - 1, phase := Retiring, cancelled := true)
      else if w.phase.Running? then w.(callbacks := w.callbacks - 1, stops := w.stops + 1)
      else w.(callbacks := w.callbacks - 1)
    case RunStop =>
      if !w.hasLock then w.(stops := w.stops - 1, stopEvent := true)
      else w.(stops := w.stops - 1, queue := w.queue + [Stop])
    case Enqueue => w.(queue := w.queue + [Operation])
    case LockToStop => w.(queue := w.queue[1..], stopEvent := true)
    case OperationDone => w.(queue := w.queue[1..])
    case Request => w.(flag := true, asked := w.asked + 1)
    case ReadLoop =>
      if LoopRunning(w) then w.(asked := w.asked - 1, sending := w.sending + 1)
      else w.(asked := w.asked - 1, returned := true)
    case Send =>
      if LoopRunning(w) then w.(sending := w.sending - 1, callbacks := w.callbacks + 1, returned := true)
      else w.(sending := w.sending - 1, returned := true)
  }

  predicate Possible(w: Worker, steps: seq<Step>)
    decreases |steps|
  {
    steps != [] ==> Enabled(w, steps[0]) && Possible(Take(w, steps[0]), steps[1..])
  }

  function Run(w: Worker, steps: seq<Step>): Worker
    requires Possible(w, steps)
    decreases |steps|
  {
    if steps == [] then w else Run(Take(w, steps[0]), steps[1..])
  }

  // ----- the invariant

  predicate PhaseFits(w: Worker) {
    match w.pc
    case NotStarted => w.phase.New?
    case Launched => w.phase.New?
    case Booted => w.phase.New?
    case Opening => if w.cancelled then w.phase.Retiring? else w.phase.Starting?
    case Opened => if w.cancelled then w.phase.Retiring? else w.phase.Starting?
    case Serving => w.phase.Running?
    case Leaving => w.phase.Retiring?
    case Cleared => w.phase.Retiring?
    case Dead => w.phase.Closed?
  }

  /** The stop is under way: a callback, a stop task, a place in the lock's queue, or the event itself. */
  predicate StopOnItsWay(w: Worker) {
    w.callbacks > 0 || w.stops > 0 || Stop in w.queue || w.stopEvent
  }

  predicate Good(w: Worker) {
    && PhaseFits(w)
    && (w.returned || w.asked > 0 || w.sending > 0 || w.cancelled || StopOnItsWay(w) ==> w.flag)
    && (w.pc.Serving? ==> w.hasLock)
    && (w.pc.Opening? && w.returned ==> w.callbacks > 0 || w.cancelled)
    && (w.pc.Serving? && w.returned ==> StopOnItsWay(w))
  }

  predicate OfThread(s: Step) {
    s in {Launch, Boot, ReadFlagEarly, OpenFails, OpenReturns, ReadFlagLate, Wake, Break, Clear, Finish}
  }

  lemma GoodThreadStep(w: Worker, s: Step)
    requires Good(w) && Enabled(w, s) && OfThread(s)
    ensures Good(Take(w, s))
  {
  }

  lemma GoodLoopStep(w: Worker, s: Step)
    requires Good(w) && Enabled(w, s) && s in {RunCallback, RunStop, Enqueue, LockToStop, OperationDone}
    ensures Good(Take(w, s))
  {
    if w.queue != [] {
      assert w.queue == [w.queue[0]] + w.queue[1..];
    }
  }

  lemma GoodRequestStep(w: Worker, s: Step)
    requires Good(w) && Enabled(w, s) && s in {Request, ReadLoop, Send}
    ensures Good(Take(w, s))
  {
  }

  /** Phases move forward only, and neither the flag nor a returned request is taken back. */
  lemma StepsForward(w: Worker, s: Step)
    requires Good(w) && Enabled(w, s)
    ensures Rank(w.phase) <= Rank(Take(w, s).phase)
    ensures w.flag ==> Take(w, s).flag
    ensures w.returned ==> Take(w, s).returned
  {
  }

  lemma GoodStep(w: Worker, s: Step)
    requires Good(w) && Enabled(w, s)
    ensures Good(Take(w, s))
    ensures Rank(w.phase) <= Rank(Take(w, s).phase)
    ensures w.flag ==> Take(w, s).flag
    ensures w.returned ==> Take(w, s).returned
  {
    StepsForward(w, s);
    if OfThread(s) {
      GoodThreadStep(w, s);
    } else if s in {Request, ReadLoop, Send} {
      GoodRequestStep(w, s);
    } else {
      GoodLoopStep(w, s);
    }
  }

  lemma {:induction false} RunsStayGood(w: Worker, steps: seq<Step>)
    requires Good(w) && Possible(w, steps)
    ensures Good(Run(w, steps))
    ensures Rank(w.phase) <= Rank(Run(w, steps).phase)
    decreases |steps|
  {
    if steps != [] {
      GoodStep(w, steps[0]);
      RunsStayGood(Take(w, steps[0]), steps[1..]);
    }
  }

  // ----- progress

  /** How far the worker still is from ending, once a close request has returned. */
  function Level(w: Worker): nat {
    match w.pc
    case Dead => 0
    case Cleared => 1
    case Leaving => 2
    case Serving => if w.stopEvent then 3 else if Stop in w.queue then 4 else if w.stops > 0 then 5 else 6
    case Opened => 7
    case Opening => if w.cancelled then 8 else 9
    case Booted => 10
    case Launched => 11
    case NotStarted => 12
  }

  /** The operations ahead of the first stop task. */
  function Ahead(queue: seq<Waiter>): nat {
    if queue == [] || queue[0].Stop? then 0 else 1 + Ahead(queue[1..])
  }

  function Left(w: Worker): (nat, nat) {
    (Level(w), if w.pc.Serving? && Level(w) == 4 then Ahead(w.queue) else 0)
  }

  predicate Less(a: (nat, nat), b: (nat, nat)) { a.0 < b.0 || (a.0 == b.0 && a.1 < b.1) }

  /** The step of the worker, its loop, or the operation holding the lock that brings the end nearer. */
  function NextStep(w: Worker): Step {
    match w.pc
    case NotStarted => Launch
    case Launched => Boot
    case Booted => ReadFlagEarly
    case Opening => if w.cancelled then OpenFails else RunCallback
    case Opened => ReadFlagLate
    case Serving =>
      if w.stopEvent then Wake
      else if Stop in w.queue then (if w.queue[0].Stop? then LockToStop else OperationDone)
      else if w.stops > 0 then RunStop
      else RunCallback
    case Leaving => Clear
    case Cleared => Finish
    case Dead => Request
  }

  lemma {:induction false} AheadAppend(queue: seq<Waiter>, x: Waiter)
    requires Stop in queue
    ensures Ahead(queue + [x]) == Ahead(queue)
    decreases |queue|
  {
    if !queue[0].Stop? {
      assert (queue + [x])[1..] == queue[1..] + [x];
      AheadAppend(queue[1..], x);
    }
  }

  /** Once a close request has returned, a started worker that has not ended can always take a step towards
      its end, without any new request. */
  lemma CloseProgresses(w: Worker)
    requires Good(w) && w.returned && !w.pc.Dead?
    ensures Enabled(w, NextStep(w)) && Less(Left(Take(w, NextStep(w))), Left(w))
    ensures NextStep(w) !in {Request, ReadLoop, Send, Enqueue}
  {
    if w.pc.Serving? && w.queue != [] {
      assert w.queue == [w.queue[0]] + w.queue[1..];
    }
  }

  /** And no step of anyone takes it back: not new operations, not further requests. */
  lemma CloseNeverRegresses(w: Worker, s: Step)
    requires Good(w) && w.returned && Enabled(w, s)
    ensures Left(Take(w, s)) == Left(w) || Less(Left(Take(w, s)), Left(w))
  {
    if w.pc.Serving? && w.queue != [] {
      assert w.queue == [w.queue[0]] + w.queue[1..];
      if Stop in w.queue {
        AheadAppend(w.queue, Operation);
        AheadAppend(w.queue, Stop);
      }
    }
  }

  /** So from any such state of any run, the worker's own steps lead to its end. */
  lemma {:induction false} CloseReachesTheEnd(w: Worker) returns (steps: seq<Step>)
    requires Good(w) && w.returned
    ensures Possible(w, steps) && Run(w, steps).pc.Dead?
    ensures forall k :: 0 <= k < |steps| ==> steps[k] !in {Request, ReadLoop, Send, Enqueue}
    decreases Left(w).0, Left(w).1
  {
    if w.pc.Dead? {
      steps := [];
    } else {
      CloseProgresses(w);
      GoodStep(w, NextStep(w));
      var rest := CloseReachesTheEnd(Take(w, NextStep(w)));
      steps := [NextStep(w)] + rest;
      assert steps[1..] == rest;
    }
  }

  // ----- what a request leads to

  /** A request made before the worker serves keeps it from ever serving. */
  lemma {:induction false} RequestBeforeServingPreventsIt(w: Worker, steps: seq<Step>)
    requires Good(w) && w.flag && !w.pc.Serving? && Possible(w, steps)
    ensures !Run(w, steps).pc.Serving?
    decreases |steps|
  {
    if steps != [] {
      GoodStep(w, steps[0]);
      RequestBeforeServingPreventsIt(Take(w, steps[0]), steps[1..]);
    }
  }

  /** A serving worker is told to stop only when no operation holds the lock, and only because somebody
      asked. */
  lemma StopWaitsForTheOperation(steps: seq<Step>, s: Step)
    requires Possible(START, steps) && Enabled(Run(START, steps), s)
    requires var w := Run(START, steps); w.pc.Serving? && !w.stopEvent && Take(w, s).stopEvent
    ensures var w := Run(START, steps); w.flag && w.queue != [] && w.queue[0].Stop?
  {
    RunsStayGood(START, steps);
  }

  /** In every run, a returned close request is under way wherever the worker is: it will be read by a flag
      check, is cancelling start-up, or is on its way to the stop event. */
  lemma CloseRequestIsNeverLost(steps: seq<Step>)
    requires Possible(START, steps) && Run(START, steps).returned
    ensures var w := Run(START, steps);
      match w.pc
      case NotStarted => w.flag
      case Launched => w.flag
      case Booted => w.flag
      case Opening => w.callbacks > 0 || w.cancelled
      case Opened => w.flag
      case Serving => StopOnItsWay(w)
      case Leaving => w.phase.Retiring?
      case Cleared => w.phase.Retiring?
      case Dead => w.phase.Closed?
  {
    RunsStayGood(START, steps);
  }
}
