/** What a get and a retirement do for their caller: whole calls, whatever other threads do in between. */
module WorkerCalls {
  import opened Common
  import opened WorkerRegistry

  // ----- other threads

  /** The thread a step belongs to; a worker that ends belongs to none. */
  function Mover(s: Step): Option<Tid> {
    match s
    case WorkerEnds(_) => None
    case _ => Some(s.t)
  }

  /** No step of another thread moves this one, and workers never revive, change their name or take a close
      request back. */
  lemma OthersLeaveTheThread(w: World, s: Step, t: Tid)
    requires Enabled(w, s) && Mover(s) != Some(t)
    ensures At(Take(w, s), t) == At(w, t)
  {
  }

  /** What workers keep. */
  predicate Aged(w: World, w': World) {
    && |w.workers| <= |w'.workers|
    && forall j :: 0 <= j < |w.workers| ==>
         && w'.workers[j].name == w.workers[j].name && w'.workers[j].config == w.workers[j].config
         && (w.workers[j].closing ==> w'.workers[j].closing) && (!w.workers[j].alive ==> !w'.workers[j].alive)
  }

  lemma WorkersAge(w: World, s: Step)
    requires Good(w) && Enabled(w, s)
    ensures Aged(w, Take(w, s))
  {
  }

  /** A call waits for its name's lock and then looks, for the name, configuration or worker it was made with. */
  lemma CallsReachTheirLook(w: World, t: Tid, name: Name, config: Config, k: nat)
    requires At(w, t) == Idle && name !in w.lock && k < |w.workers|
    ensures Enabled(w, BeginGet(t, name, config)) && Enabled(Take(w, BeginGet(t, name, config)), Acquire(t))
    ensures Enabled(w, BeginRetire(t, name, k)) && Enabled(Take(w, BeginRetire(t, name, k)), Acquire(t))
    ensures var got := Take(Take(w, BeginGet(t, name, config)), Acquire(t));
      got == w.(pcs := w.pcs[t := GetHeld(name, config)], lock := w.lock[name := t])
    ensures var retired := Take(Take(w, BeginRetire(t, name, k)), Acquire(t));
      retired == w.(pcs := w.pcs[t := RetireHeld(name, k)], lock := w.lock[name := t])
  {
    assert w.pcs[t := GetWaiting(name, config)][t := GetHeld(name, config)] == w.pcs[t := GetHeld(name, config)];
    assert w.pcs[t := RetireWaiting(name, k)][t := RetireHeld(name, k)] == w.pcs[t := RetireHeld(name, k)];
  }

  // ----- a get

  /** A get that finds a live worker of its configuration that nobody asked to close returns it: nothing
      about workers or registrations changes, and the lock is free. */
  lemma GetReusesAWorker(w: World, t: Tid, name: Name, config: Config, k: nat)
    requires At(w, t) == GetHeld(name, config) && name in w.registry && w.registry[name] == k && k < |w.workers|
    requires w.workers[k].alive && !w.workers[k].closing && w.workers[k].config == config
    ensures var w' := Take(w, Look(t));
      && At(w', t) == Idle && w'.workers == w.workers && w'.registry == w.registry && name !in w'.lock
  {
  }

  /** Any other registered worker is asked to close, and the get waits for it with the lock held. */
  lemma GetAsksTheOldWorker(w: World, t: Tid, name: Name, config: Config, k: nat)
    requires At(w, t) == GetHeld(name, config) && name in w.registry && w.registry[name] == k && k < |w.workers|
    requires !w.workers[k].alive || w.workers[k].closing || w.workers[k].config != config
    ensures var w' := Take(w, Look(t));
      && At(w', t) == GetClosing(name, config, k) && w'.workers[k].closing && w'.registry == w.registry && w'.lock == w.lock
      && w'.workers == w.workers[k := w.workers[k].(closing := true)]
  {
  }

  /** With nobody registered it goes on to start a worker. */
  lemma GetFindsNobody(w: World, t: Tid, name: Name, config: Config)
    requires At(w, t) == GetHeld(name, config) && name !in w.registry
    ensures Take(w, Look(t)) == w.(pcs := w.pcs[t := GetCleared(name, config)])
  {
  }

  /** Where a get that did not return at once can be, until it returns. */
  predicate Getting(pc: Pc, name: Name, config: Config) {
    match pc
    case GetClosing(n, c, _) => n == name && c == config
    case GetJoined(n, c, _) => n == name && c == config
    case GetCleared(n, c) => n == name && c == config
    case GetStarted(n, c, _) => n == name && c == config
    case _ => false
  }

  /** A new worker's get: started alive and unasked, under its own number, registered when the call returns. */
  lemma NewWorkerIsRegistered(w: World, t: Tid, name: Name, config: Config)
    requires Good(w) && At(w, t) == GetCleared(name, config)
    ensures var k, v := |w.workers|, Take(w, StartWorker(t));
      && v.workers == w.workers + [Worker(name, config, true, false)] && At(v, t) == GetStarted(name, config, k)
      && v.registry == w.registry
      && var u := Take(v, Register(t));
         At(u, t) == Idle && u.registry == v.registry[name := k] && u.workers == v.workers && name !in u.lock
  {
  }

  /** One step of a get under way: it stays under way, or it returns; and it returns without an error only
      with a worker of its name and configuration registered. */
  lemma GetStep(w: World, s: Step, t: Tid, name: Name, config: Config)
    requires Good(w) && Enabled(w, s) && Getting(At(w, t), name, config)
    ensures var w' := Take(w, s);
      || Getting(At(w', t), name, config)
      || (At(w', t) == Idle && s in {JoinTimesOut(t), StartFails(t)})
      || (At(w', t) == Idle && s == Register(t) && name in w'.registry && w'.registry[name] < |w'.workers|
          && w'.workers[w'.registry[name]].name == name && w'.workers[w'.registry[name]].config == config)
  {
    if Mover(s) != Some(t) {
      OthersLeaveTheThread(w, s, t);
    } else {
      assert HolderOk(w, w.pcs[t]);
    }
  }

  /** Until its last step the thread is not back. */
  predicate BackOnlyAtTheEnd(w: World, steps: seq<Step>, t: Tid)
    decreases |steps|
  {
    steps != [] ==>
      !At(w, t).Idle? && BackOnlyAtTheEnd(Take(w, steps[0]), steps[1..], t)
  }

  lemma LastOfRest(steps: seq<Step>)
    requires |steps| > 1
    ensures steps[1..][|steps| - 2] == steps[|steps| - 1]
  {
  }

  /** A whole get that did not return at once: when the call comes back, it failed in a join or a start, or a
      worker of its name and configuration is registered, whatever others did meanwhile. */
  lemma {:induction false} GetComesBack(w: World, steps: seq<Step>, t: Tid, name: Name, config: Config)
    requires Good(w) && Possible(w, steps) && Getting(At(w, t), name, config)
    requires BackOnlyAtTheEnd(w, steps, t) && At(Run(w, steps), t).Idle?
    ensures steps != []
    ensures var w', last := Run(w, steps), steps[|steps| - 1];
      || last in {JoinTimesOut(t), StartFails(t)}
      || (last == Register(t) && name in w'.registry && w'.registry[name] < |w'.workers|
          && w'.workers[w'.registry[name]].name == name && w'.workers[w'.registry[name]].config == config)
    decreases |steps|
  {
    var v := Take(w, steps[0]);
    GoodStep(w, steps[0]);
    GetStep(w, steps[0], t, name, config);
    if |steps| > 1 {
      assert !At(v, t).Idle?;
      LastOfRest(steps);
      GetComesBack(v, steps[1..], t, name, config);
    } else {
      assert steps[1..] == [];
    }
  }

  // ----- a retirement

  /** A retirement whose worker is registered asks it to close, keeps it registered and the lock held, and
      waits for it. */
  lemma RetirementAsks(w: World, t: Tid, name: Name, k: nat)
    requires At(w, t) == RetireHeld(name, k) && name in w.registry && w.registry[name] == k && k < |w.workers|
    ensures var w' := Take(w, Look(t));
      && At(w', t) == RetireClosing(name, k) && w'.workers[k].closing && w'.registry == w.registry && w'.lock == w.lock
      && w'.workers == w.workers[k := w.workers[k].(closing := true)]
  {
  }

  /** One whose worker is not registered any more returns, and changes nothing else. */
  lemma RetirementOfAStranger(w: World, t: Tid, name: Name, k: nat)
    requires At(w, t) == RetireHeld(name, k) && !(name in w.registry && w.registry[name] == k)
    ensures Take(w, Look(t)) == w.(pcs := w.pcs[t := Idle], lock := w.lock - {name})
  {
  }

  /** The retirement of `k` is under way, and `k` is closing. */
  predicate Retiring(w: World, t: Tid, name: Name, k: nat) {
    && At(w, t) in {RetireClosing(name, k), RetireJoined(name, k)}
    && k < |w.workers| && w.workers[k].closing
  }

  /** The worker is gone: dead, and registered under no name. */
  predicate Gone(w: World, k: nat) {
    k < |w.workers| && !w.workers[k].alive && forall m :: m in w.registry ==> w.registry[m] != k
  }

  lemma RetirementStep(w: World, s: Step, t: Tid, name: Name, k: nat)
    requires Good(w) && Enabled(w, s) && Retiring(w, t, name, k)
    ensures var w' := Take(w, s);
      || Retiring(w', t, name, k)
      || (At(w', t) == Idle && s == JoinTimesOut(t) && k < |w'.workers| && w'.workers[k].closing)
      || (At(w', t) == Idle && s == Forget(t) && Gone(w', k))
  {
    WorkersAge(w, s);
    if Mover(s) != Some(t) {
      OthersLeaveTheThread(w, s, t);
    } else {
      assert HolderOk(w, w.pcs[t]);
      if s == Forget(t) { ForgottenIsGone(w, t, name, k); }
    }
  }

  lemma ForgottenIsGone(w: World, t: Tid, name: Name, k: nat)
    requires Good(w) && At(w, t) == RetireJoined(name, k) && k < |w.workers|
    ensures Gone(Take(w, Forget(t)), k)
  {
    assert HolderOk(w, w.pcs[t]);
    assert OnlyLive(w, name, None) && w.registry[name] == k && w.workers[k].name == name;
    var w' := Take(w, Forget(t));
    forall m | m in w'.registry ensures w'.registry[m] != k {
      assert m in w.registry && w.workers[w.registry[m]].name == m;
    }
  }

  /** A whole retirement of a registered worker, whatever others do meanwhile: when the call comes back the
      worker has been asked to close; and unless its join timed out it is dead and registered nowhere. */
  lemma RetirementComesBack(w: World, steps: seq<Step>, t: Tid, name: Name, k: nat)
    requires Good(w) && At(w, t) == RetireHeld(name, k) && name in w.registry && w.registry[name] == k
    requires Possible(Take(w, Look(t)), steps)
    requires BackOnlyAtTheEnd(Take(w, Look(t)), steps, t) && At(Run(Take(w, Look(t)), steps), t).Idle?
    ensures steps != []
    ensures var w', last := Run(Take(w, Look(t)), steps), steps[|steps| - 1];
      && k < |w'.workers| && w'.workers[k].closing
      && (last != JoinTimesOut(t) ==>
            last == Forget(t) && !w'.workers[k].alive && forall m :: m in w'.registry ==> w'.registry[m] != k)
  {
    GoodStep(w, Look(t));
    RetirementAsks(w, t, name, k);
    RetirementEnds(Take(w, Look(t)), steps, t, name, k);
  }

  lemma {:induction false} RetirementEnds(w: World, steps: seq<Step>, t: Tid, name: Name, k: nat)
    requires Good(w) && Possible(w, steps) && Retiring(w, t, name, k)
    requires BackOnlyAtTheEnd(w, steps, t) && At(Run(w, steps), t).Idle?
    ensures steps != []
    ensures var w', last := Run(w, steps), steps[|steps| - 1];
      && k < |w'.workers| && w'.workers[k].closing
      && (last != JoinTimesOut(t) ==> last == Forget(t) && Gone(w', k))
    decreases |steps|
  {
    var v := Take(w, steps[0]);
    GoodStep(w, steps[0]);
    WorkersAge(w, steps[0]);
    RetirementStep(w, steps[0], t, name, k);
    if |steps| > 1 {
      assert !At(v, t).Idle?;
      LastOfRest(steps);
      RetirementEnds(v, steps[1..], t, name, k);
    } else {
      assert steps[1..] == [];
    }
  }

  /** In every run from the empty manager. */
  lemma RetirementsInRuns(before: seq<Step>, steps: seq<Step>, t: Tid, name: Name, k: nat)
    requires Possible(START, before)
    requires var w := Run(START, before);
      && At(w, t) == RetireHeld(name, k) && name in w.registry && w.registry[name] == k
      && Possible(Take(w, Look(t)), steps)
      && BackOnlyAtTheEnd(Take(w, Look(t)), steps, t) && At(Run(Take(w, Look(t)), steps), t).Idle?
    ensures var w' := Run(Take(Run(START, before), Look(t)), steps);
      && steps != [] && k < |w'.workers| && w'.workers[k].closing
      && (steps[|steps| - 1] != JoinTimesOut(t) ==>
            !w'.workers[k].alive && forall m :: m in w'.registry ==> w'.registry[m] != k)
  {
    RunsStayGood(START, before);
    RetirementComesBack(Run(START, before), steps, t, name, k);
  }
}
