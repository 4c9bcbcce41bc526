/** One close request from its call to the worker's end, step by step. */
module CloseHandshake {
  import opened WorkerClose

  /** A worker nobody asks to close starts and serves. */
  lemma StartUpServes(w: Worker)
    requires w == START
    ensures Possible(w, [Launch, Boot, ReadFlagEarly, OpenReturns, ReadFlagLate])
    ensures Run(w, [Launch, Boot, ReadFlagEarly, OpenReturns, ReadFlagLate]) == w.(pc := Serving, phase := Running, hasLock := true)
  {
    FirstSteps(w);
    var v := w.(pc := Opening, phase := Starting);
    TwoSteps(v, OpenReturns, ReadFlagLate);
    StepsFollow(w, [Launch, Boot, ReadFlagEarly], [OpenReturns, ReadFlagLate]);
    assert [Launch, Boot, ReadFlagEarly] + [OpenReturns, ReadFlagLate] == [Launch, Boot, ReadFlagEarly, OpenReturns, ReadFlagLate];
  }

  lemma FirstSteps(w: Worker)
    requires w == START
    ensures Possible(w, [Launch, Boot, ReadFlagEarly]) && Run(w, [Launch, Boot, ReadFlagEarly]) == w.(pc := Opening, phase := Starting)
  {
    ThreeSteps(w, Launch, Boot, ReadFlagEarly);
  }

  lemma OneStep(w: Worker, s: Step)
    requires Enabled(w, s)
    ensures Possible(w, [s]) && Run(w, [s]) == Take(w, s)
  {
    assert [s][1..] == [];
  }

  lemma {:induction false} StepsFollow(w: Worker, a: seq<Step>, b: seq<Step>)
    requires Possible(w, a) && Possible(Run(w, a), b)
    ensures Possible(w, a + b) && Run(w, a + b) == Run(Run(w, a), b)
    decreases |a|
  {
    if a == [] {
      assert a + b == b;
    } else {
      assert (a + b)[1..] == a[1..] + b;
      StepsFollow(Take(w, a[0]), a[1..], b);
    }
  }

  lemma TwoSteps(w: Worker, a: Step, b: Step)
    requires Enabled(w, a) && Enabled(Take(w, a), b)
    ensures Possible(w, [a, b]) && Run(w, [a, b]) == Take(Take(w, a), b)
  {
    OneStep(w, a);
    OneStep(Take(w, a), b);
    StepsFollow(w, [a], [b]);
    assert [a] + [b] == [a, b];
  }

  lemma ThreeSteps(w: Worker, a: Step, b: Step, c: Step)
    requires Enabled(w, a) && Enabled(Take(w, a), b) && Enabled(Take(Take(w, a), b), c)
    ensures Possible(w, [a, b, c]) && Run(w, [a, b, c]) == Take(Take(Take(w, a), b), c)
  {
    TwoSteps(w, a, b);
    OneStep(Take(Take(w, a), b), c);
    StepsFollow(w, [a, b], [c]);
    assert [a, b] + [c] == [a, b, c];
  }

  lemma RequestStates(w: Worker)
    requires LoopRunning(w)
    ensures Take(w, Request) == w.(flag := true, asked := w.asked + 1) && Enabled(Take(w, Request), ReadLoop)
    ensures var v := w.(flag := true, sending := w.sending + 1);
      && Take(Take(w, Request), ReadLoop) == v && Enabled(v, Send)
      && Take(v, Send) == w.(flag := true, returned := true, callbacks := w.callbacks + 1)
  {
  }

  /** A request on a running loop sets the flag, leaves exactly one callback there and returns. */
  lemma RequestOnALoop(w: Worker)
    requires LoopRunning(w)
    ensures Possible(w, [Request, ReadLoop, Send])
    ensures Run(w, [Request, ReadLoop, Send]) == w.(flag := true, returned := true, callbacks := w.callbacks + 1)
  {
    RequestStates(w);
    ThreeSteps(w, Request, ReadLoop, Send);
  }

  /** Without a loop it sets the flag and returns. */
  lemma RequestWithoutALoop(w: Worker)
    requires !LoopRunning(w)
    ensures Possible(w, [Request, ReadLoop])
    ensures Run(w, [Request, ReadLoop]) == w.(flag := true, returned := true)
  {
    TwoSteps(w, Request, ReadLoop);
  }

  /** And when the loop ends in between. */
  lemma RequestOnALoopThatEnds(w: Worker)
    requires w.sending > 0 && !LoopRunning(w)
    ensures Enabled(w, Send) && Take(w, Send) == w.(sending := w.sending - 1, returned := true)
  {
  }

  /** During start-up the callback cancels it, once; the worker then tears down and ends. */
  lemma CallbackCancelsStartUp(w: Worker)
    requires w.pc == Opening && w.phase == Starting && w.callbacks > 0
    ensures Enabled(w, RunCallback)
    ensures Take(w, RunCallback) == w.(callbacks := w.callbacks - 1, phase := Retiring, cancelled := true)
    ensures var v := Take(w, RunCallback);
      && Possible(v, [OpenFails, Clear, Finish])
      && Run(v, [OpenFails, Clear, Finish]) == v.(pc := Dead, phase := Closed, hasLock := false)
  {
    var v := Take(w, RunCallback);
    ThreeSteps(v, OpenFails, Clear, Finish);
  }

  /** While serving, the callback makes one stop task, which queues for the operation lock behind whoever is
      there. */
  lemma CallbackQueuesAStop(w: Worker)
    requires w.pc == Serving && w.phase == Running && w.hasLock && w.callbacks > 0
    ensures Possible(w, [RunCallback, RunStop])
    ensures Run(w, [RunCallback, RunStop]) == w.(callbacks := w.callbacks - 1, queue := w.queue + [Stop])
  {
    TwoSteps(w, RunCallback, RunStop);
    assert Take(Take(w, RunCallback), RunStop).stops == w.stops;
  }

  /** Past serving a callback does nothing more, and a stop task left over finds no lock. */
  lemma CallbackComesLate(w: Worker)
    requires w.pc == Cleared && w.phase == Retiring && !w.hasLock && w.callbacks > 0
    ensures Enabled(w, RunCallback) && Take(w, RunCallback) == w.(callbacks := w.callbacks - 1)
    ensures w.stops > 0 ==> Enabled(w, RunStop) && Take(w, RunStop) == w.(stops := w.stops - 1, stopEvent := true)
  {
  }

  /** Operations run one after another, in the order they came. */
  lemma OperationsTakeTurns(w: Worker)
    requires w.pc == Serving && w.hasLock
    ensures Enabled(w, Enqueue) && Take(w, Enqueue) == w.(queue := w.queue + [Operation])
    ensures w.queue != [] && w.queue[0] == Operation ==>
      Enabled(w, OperationDone) && !Enabled(w, LockToStop) && Take(w, OperationDone) == w.(queue := w.queue[1..])
    ensures w.queue != [] && w.queue[0] == Stop ==>
      Enabled(w, LockToStop) && !Enabled(w, OperationDone) && Take(w, LockToStop) == w.(queue := w.queue[1..], stopEvent := true)
  {
  }

  predicate AllOperations(queue: seq<Waiter>) { forall k :: 0 <= k < |queue| ==> queue[k] == Operation }

  /** The operations ahead of a stop task finish one by one, and then it sets the event. */
  lemma {:induction false} OperationsFinishFirst(w: Worker, ahead: seq<Waiter>, behind: seq<Waiter>) returns (steps: seq<Step>)
    requires w.pc == Serving && AllOperations(ahead) && w.queue == ahead + [Stop] + behind
    ensures |steps| == |ahead| + 1 && Possible(w, steps) && Run(w, steps) == w.(queue := behind, stopEvent := true)
    decreases |ahead|
  {
    if ahead == [] {
      assert w.queue == [Stop] + behind && w.queue[1..] == behind;
      OneStep(w, LockToStop);
      steps := [LockToStop];
    } else {
      assert w.queue[0] == ahead[0] && w.queue[1..] == ahead[1..] + [Stop] + behind;
      var v := Take(w, OperationDone);
      var rest := OperationsFinishFirst(v, ahead[1..], behind);
      steps := [OperationDone] + rest;
      assert steps[1..] == rest;
    }
  }

  /** With the event set the worker wakes, tears down and ends, whatever still waits for the lock. */
  lemma EventEndsIt(w: Worker)
    requires w.pc == Serving && w.stopEvent
    ensures Possible(w, [Wake, Clear, Finish])
    ensures Run(w, [Wake, Clear, Finish]) == w.(pc := Dead, phase := Closed, hasLock := false)
  {
    ThreeSteps(w, Wake, Clear, Finish);
  }

  /** A whole close of a serving worker: the request, the callback, the stop task behind the operations there, their
      turns, and the end. */
  lemma AWholeClose(w: Worker) returns (steps: seq<Step>)
    requires w.pc == Serving && w.phase == Running && w.hasLock && AllOperations(w.queue)
    ensures |steps| == |w.queue| + 9 && Possible(w, steps)
    ensures Run(w, steps) == w.(pc := Dead, phase := Closed, flag := true, returned := true, stopEvent := true, hasLock := false, queue := [])
  {
    RequestOnALoop(w);
    var asked := w.(flag := true, returned := true, callbacks := w.callbacks + 1);
    CallbackQueuesAStop(asked);
    StepsFollow(w, [Request, ReadLoop, Send], [RunCallback, RunStop]);
    var queued := w.(flag := true, returned := true, queue := w.queue + [Stop]);
    assert w.queue + [Stop] + [] == w.queue + [Stop];
    var turns := OperationsFinishFirst(queued, w.queue, []);
    StepsFollow(w, [Request, ReadLoop, Send] + [RunCallback, RunStop], turns);
    var told := queued.(queue := [], stopEvent := true);
    EventEndsIt(told);
    StepsFollow(w, [Request, ReadLoop, Send] + [RunCallback, RunStop] + turns, [Wake, Clear, Finish]);
    steps := [Request, ReadLoop, Send] + [RunCallback, RunStop] + turns + [Wake, Clear, Finish];
  }
}
