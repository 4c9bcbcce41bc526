/** No call of the manager is ever stuck: in every interleaving the holder of a lock can finish, and so can
    whoever waits for it. */
module WorkerProgress {
  import opened Common
  import opened WorkerRegistry
  import opened WorkerCalls

  predicate IsGet(pc: Pc) {
    pc.GetWaiting? || pc.GetHeld? || pc.GetClosing? || pc.GetJoined? || pc.GetCleared? || pc.GetStarted?
  }

  /** The same call, further on. */
  predicate SameCall(a: Pc, b: Pc) {
    && !a.Idle? && !b.Idle? && (IsGet(a) <==> IsGet(b)) && a.name == b.name
    && (if IsGet(a) then a.config == b.config else a.worker == b.worker)
  }

  /** What a call is for: a worker of that name and configuration is registered, or the given one is not. */
  predicate Reached(w: World, pc: Pc) {
    && !pc.Idle?
    && if IsGet(pc) then
         && pc.name in w.registry && w.registry[pc.name] < |w.workers|
         && w.workers[w.registry[pc.name]].name == pc.name && w.workers[w.registry[pc.name]].config == pc.config
       else !(pc.name in w.registry && w.registry[pc.name] == pc.worker)
  }

  /** The next thing that happens when the call succeeds: the worker it waits for ends, or it moves on. */
  function Onward(w: World, t: Tid): Step {
    match At(w, t)
    case GetClosing(_, _, k) => if k < |w.workers| && w.workers[k].alive then WorkerEnds(k) else JoinDone(t)
    case RetireClosing(_, k) => if k < |w.workers| && w.workers[k].alive then WorkerEnds(k) else JoinDone(t)
    case GetJoined(_, _, _) => Forget(t)
    case RetireJoined(_, _) => Forget(t)
    case GetCleared(_, _) => StartWorker(t)
    case GetStarted(_, _, _) => Register(t)
    case GetWaiting(_, _) => Acquire(t)
    case RetireWaiting(_, _) => Acquire(t)
    case _ => Look(t)
  }

  function StepsLeft(w: World, t: Tid): nat {
    match At(w, t)
    case GetClosing(_, _, k) => if k < |w.workers| && w.workers[k].alive then 6 else 5
    case RetireClosing(_, k) => if k < |w.workers| && w.workers[k].alive then 6 else 5
    case GetJoined(_, _, _) => 4
    case RetireJoined(_, _) => 4
    case GetCleared(_, _) => 3
    case GetStarted(_, _, _) => 2
    case _ => 7
  }

  lemma OnwardGet(w: World, t: Tid)
    requires Good(w) && Holding(At(w, t)) && IsGet(At(w, t))
    ensures Enabled(w, Onward(w, t))
    ensures var w', pc := Take(w, Onward(w, t)), At(w, t);
      || (At(w', t) == Idle && pc.name !in w'.lock && Reached(w', pc))
      || (Holding(At(w', t)) && SameCall(pc, At(w', t)) && StepsLeft(w', t) < StepsLeft(w, t))
  {
    assert HolderOk(w, w.pcs[t]);
  }

  lemma OnwardRetire(w: World, t: Tid)
    requires Good(w) && Holding(At(w, t)) && !IsGet(At(w, t))
    ensures Enabled(w, Onward(w, t))
    ensures var w', pc := Take(w, Onward(w, t)), At(w, t);
      || (At(w', t) == Idle && pc.name !in w'.lock && Reached(w', pc))
      || (Holding(At(w', t)) && SameCall(pc, At(w', t)) && StepsLeft(w', t) < StepsLeft(w, t))
  {
    assert HolderOk(w, w.pcs[t]);
  }

  lemma OnwardStep(w: World, t: Tid)
    requires Good(w) && Holding(At(w, t))
    ensures Enabled(w, Onward(w, t)) && Good(Take(w, Onward(w, t)))
    ensures var w', pc := Take(w, Onward(w, t)), At(w, t);
      && (forall u: Tid :: u != t ==> At(w', u) == At(w, u))
      && (|| (At(w', t) == Idle && pc.name !in w'.lock && Reached(w', pc))
          || (Holding(At(w', t)) && SameCall(pc, At(w', t)) && StepsLeft(w', t) < StepsLeft(w, t)))
  {
    if IsGet(At(w, t)) { OnwardGet(w, t); } else { OnwardRetire(w, t); }
    GoodStep(w, Onward(w, t));
    forall u: Tid | u != t ensures At(Take(w, Onward(w, t)), u) == At(w, u) { OthersLeaveTheThread(w, Onward(w, t), u); }
  }

  lemma StepThen(w: World, s: Step, rest: seq<Step>)
    requires Enabled(w, s) && Possible(Take(w, s), rest)
    ensures Possible(w, [s] + rest) && Run(w, [s] + rest) == Run(Take(w, s), rest)
  {
    assert ([s] + rest)[1..] == rest;
  }

  lemma SameReached(w: World, a: Pc, b: Pc)
    requires SameCall(a, b) && Reached(w, b)
    ensures Reached(w, a) && a.name == b.name
  {
  }

  /** Whoever holds a lock can finish without any other call moving: the lock is free again and the call has what
      it was made for. */
  lemma {:induction false} HolderCanFinish(w: World, t: Tid) returns (steps: seq<Step>)
    requires Good(w) && Holding(At(w, t))
    ensures Possible(w, steps) && Good(Run(w, steps)) && At(Run(w, steps), t).Idle?
    ensures At(w, t).name !in Run(w, steps).lock && Reached(Run(w, steps), At(w, t))
    ensures forall u: Tid :: u != t ==> At(Run(w, steps), u) == At(w, u)
    decreases StepsLeft(w, t)
  {
    var s, v := Onward(w, t), Take(w, Onward(w, t));
    OnwardStep(w, t);
    if At(v, t).Idle? {
      StepThen(w, s, []);
      steps := [s] + [];
    } else {
      var rest := HolderCanFinish(v, t);
      StepThen(w, s, rest);
      SameReached(Run(v, rest), At(w, t), At(v, t));
      steps := [s] + rest;
    }
  }

  lemma {:induction false} StepsJoin(w: World, a: seq<Step>, b: seq<Step>)
    requires Possible(w, a) && Possible(Run(w, a), b)
    ensures Possible(w, a + b) && Run(w, a + b) == Run(Run(w, a), b)
    decreases |a|
  {
    if a == [] {
      assert a + b == b;
    } else {
      assert (a + b)[1..] == a[1..] + b;
      StepsJoin(Take(w, a[0]), a[1..], b);
    }
  }

  /** A call that waits for a free lock takes it and can finish. */
  lemma WaiterCanFinish(w: World, t: Tid) returns (steps: seq<Step>)
    requires Good(w) && (At(w, t).GetWaiting? || At(w, t).RetireWaiting?) && At(w, t).name !in w.lock
    ensures Possible(w, steps) && Good(Run(w, steps)) && At(Run(w, steps), t).Idle? && Reached(Run(w, steps), At(w, t))
  {
    var v := Take(w, Acquire(t));
    GoodStep(w, Acquire(t));
    assert SameCall(At(w, t), At(v, t));
    var rest := HolderCanFinish(v, t);
    steps := [Acquire(t)] + rest;
    assert steps[1..] == rest;
  }

  /** Nobody is stuck: whatever all threads are doing, any call under way can come back with what it was made for,
      once the holder of its lock is done. */
  lemma EveryCallCanFinish(w: World, t: Tid) returns (steps: seq<Step>)
    requires Good(w) && !At(w, t).Idle?
    ensures Possible(w, steps) && Good(Run(w, steps)) && At(Run(w, steps), t).Idle? && Reached(Run(w, steps), At(w, t))
  {
    if Holding(At(w, t)) {
      steps := HolderCanFinish(w, t);
    } else if At(w, t).name !in w.lock {
      steps := WaiterCanFinish(w, t);
    } else {
      var name := At(w, t).name;
      assert Owns(w, w.lock[name], name);
      var first := HolderCanFinish(w, w.lock[name]);
      var rest := WaiterCanFinish(Run(w, first), t);
      StepsJoin(w, first, rest);
      steps := first + rest;
    }
  }

  /** In every run from the empty manager. */
  lemma NoCallIsStuck(before: seq<Step>, t: Tid) returns (steps: seq<Step>)
    requires Possible(START, before) && !At(Run(START, before), t).Idle?
    ensures var w := Run(START, before);
      Possible(w, steps) && At(Run(w, steps), t).Idle? && Reached(Run(w, steps), At(w, t))
  {
    RunsStayGood(START, before);
    steps := EveryCallCanFinish(Run(START, before), t);
  }
}
