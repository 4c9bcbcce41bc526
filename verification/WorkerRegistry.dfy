/** One live worker per server name, whatever the interleaving of get, discard, retain and close. */
module WorkerRegistry {
  import opened Common

  type Name = string
  type Config = string
  type Tid = nat

  /** A worker thread; workers are numbered in the order they are made. */
  datatype Worker = Worker(name: Name, config: Config, alive: bool, closing: bool)

  /** Where a manager call stands. The lifecycle lock of `name` is held from `GetHeld` and `RetireHeld` on. */
  datatype Pc =
    | Idle
    | GetWaiting(name: Name, config: Config)
    | GetHeld(name: Name, config: Config)
    | GetClosing(name: Name, config: Config, current: nat)
    | GetJoined(name: Name, config: Config, current: nat)
    | GetCleared(name: Name, config: Config)
    | GetStarted(name: Name, config: Config, made: nat)
    | RetireWaiting(name: Name, worker: nat)
    | RetireHeld(name: Name, worker: nat)
    | RetireClosing(name: Name, worker: nat)
    | RetireJoined(name: Name, worker: nat)

  datatype World = World(workers: seq<Worker>, registry: map<Name, nat>, lock: map<Name, Tid>, pcs: map<Tid, Pc>)

  const START := World([], map[], map[], map[])

  /** One step: a thread begins a call, moves on in it, or a worker thread ends. `retain` and `close` are
      retirements of registered pairs seen earlier, so any name and worker may be asked for. */
  datatype Step =
    | BeginGet(t: Tid, name: Name, config: Config)
    | BeginRetire(t: Tid, name: Name, worker: nat)
    | Acquire(t: Tid)
    | Look(t: Tid)
    | JoinDone(t: Tid)
    | JoinTimesOut(t: Tid)
    | Forget(t: Tid)
    | StartWorker(t: Tid)
    | StartFails(t: Tid)
    | Register(t: Tid)
    | WorkerEnds(worker: nat)

  function At(w: World, t: Tid): Pc { if t in w.pcs then w.pcs[t] else Idle }

  predicate Holding(pc: Pc) { !pc.Idle? && !pc.GetWaiting? && !pc.RetireWaiting? }

  predicate Usable(w: World, k: nat) { k < |w.workers| && w.workers[k].alive && !w.workers[k].closing }

  predicate Enabled(w: World, s: Step) {
    match s
    case BeginGet(t, _, _) => At(w, t).Idle?
    case BeginRetire(t, _, worker) => At(w, t).Idle? && worker < |w.workers|
    case Acquire(t) =>
      var pc := At(w, t);
      (pc.GetWaiting? || pc.RetireWaiting?) && pc.name !in w.lock
    case Look(t) => At(w, t).GetHeld? || At(w, t).RetireHeld?
    case JoinDone(t) =>
      var pc := At(w, t);
      || (pc.GetClosing? && pc.current < |w.workers| && !w.workers[pc.current].alive)
      || (pc.RetireClosing? && pc.worker < |w.workers| && !w.workers[pc.worker].alive)
    case JoinTimesOut(t) =>
      var pc := At(w, t);
      || (pc.GetClosing? && pc.current < |w.workers| && w.workers[pc.current].alive)
      || (pc.RetireClosing? && pc.worker < |w.workers| && w.workers[pc.worker].alive)
    case Forget(t) => At(w, t).GetJoined? || At(w, t).RetireJoined?
    case StartWorker(t) => At(w, t).GetCleared?
    case StartFails(t) => At(w, t).GetCleared?
    case Register(t) => At(w, t).GetStarted?
    case WorkerEnds(k) => k < |w.workers| && w.workers[k].alive
  }

  function Go(w: World, t: Tid, pc: Pc): World { w.(pcs := w.pcs[t := pc]) }

  /** The call returns or raises, and its lock is free again. */
  function Leave(w: World, t: Tid, name: Name): World { w.(pcs := w.pcs[t := Idle], lock := w.lock - {name}) }

  function Ask(w: World, k: nat): World {
    if k < |w.workers| then w.(workers := w.workers[k := w.workers[k].(closing := true)]) else w
  }

  function LookGet(w: World, t: Tid, name: Name, config: Config): World {
    if name !in w.registry then Go(w, t, GetCleared(name, config))
    else
      var k := w.registry[name];
      if Usable(w, k) && w.workers[k].config == config then Leave(w, t, name)
      else Go(Ask(w, k), t, GetClosing(name, config, k))
  }

  function LookRetire(w: World, t: Tid, name: Name, worker: nat): World {
    if name in w.registry && w.registry[name] == worker then Go(Ask(w, worker), t, RetireClosing(name, worker))
    else Leave(w, t, name)
  }

  function Drop(w: World, name: Name, k: nat): World {
    if name in w.registry && w.registry[name] == k then w.(registry := w.registry - {name}) else w
  }

  function Take(w: World, s: Step): World {
    match s
    case BeginGet(t, name, config) => Go(w, t, GetWaiting(name, config))
    case BeginRetire(t, name, worker) => Go(w, t, RetireWaiting(name, worker))
    case Acquire(t) =>
      var pc := At(w, t);
      if pc.GetWaiting? then Go(w.(lock := w.lock[pc.name := t]), t, GetHeld(pc.name, pc.config))
      else if pc.RetireWaiting? then Go(w.(lock := w.lock[pc.name := t]), t, RetireHeld(pc.name, pc.worker))
      else w
    case Look(t) =>
      var pc := At(w, t);
      if pc.GetHeld? then LookGet(w, t, pc.name, pc.config)
      else if pc.RetireHeld? then LookRetire(w, t, pc.name, pc.worker)
      else w
    case JoinDone(t) =>
      var pc := At(w, t);
      if pc.GetClosing? then Go(w, t, GetJoined(pc.name, pc.config, pc.current))
      else if pc.RetireClosing? then Go(w, t, RetireJoined(pc.name, pc.worker))
      else w
    case JoinTimesOut(t) => (
      var pc := At(w, t);
      if pc.Idle? then w else Leave(w, t, pc.name))
    case Forget(t) =>
      var pc := At(w, t);
      if pc.GetJoined? then Go(Drop(w, pc.name, pc.current), t, GetCleared(pc.name, pc.config))
      else if pc.RetireJoined? then Leave(Drop(w, pc.name, pc.worker), t, pc.name)
      else w
    case StartWorker(t) =>
      var pc := At(w, t);
      if pc.GetCleared? then
        Go(w.(workers := w.workers + [Worker(pc.name, pc.config, true, false)]), t, GetStarted(pc.name, pc.config, |w.workers|))
      else w
    case StartFails(t) => (
      var pc := At(w, t);
      if pc.Idle? then w else Leave(w, t, pc.name))
    case Register(t) =>
      var pc := At(w, t);
      if pc.GetStarted? then Leave(w.(registry := w.registry[pc.name := pc.made]), t, pc.name) else w
    case WorkerEnds(k) =>
      if k < |w.workers| then w.(workers := w.workers[k := w.workers[k].(alive := false)]) else w
  }

  function Run(w: World, steps: seq<Step>): World
    decreases |steps|
  {
    if steps == [] then w else Run(Take(w, steps[0]), steps[1..])
  }

  predicate Possible(w: World, steps: seq<Step>)
    decreases |steps|
  {
    steps != [] ==> Enabled(w, steps[0]) && Possible(Take(w, steps[0]), steps[1..])
  }

  // ----- the invariant

  /** Only `k` (or nobody, when `None`) is alive under this name. */
  predicate OnlyLive(w: World, name: Name, k: Option<nat>) {
    forall j :: 0 <= j < |w.workers| && w.workers[j].alive && w.workers[j].name == name ==> k == Some(j)
  }

  function Registered(w: World, name: Name): Option<nat> {
    if name in w.registry then Some(w.registry[name]) else None
  }

  /** What the holder of a name's lock may rely on. */
  predicate HolderOk(w: World, pc: Pc) {
    match pc
    case Idle => true
    case GetWaiting(_, _) => true
    case RetireWaiting(_, _) => true
    case GetHeld(name, _) => OnlyLive(w, name, Registered(w, name))
    case RetireHeld(name, _) => OnlyLive(w, name, Registered(w, name))
    case GetClosing(name, _, k) => Registered(w, name) == Some(k) && k < |w.workers| && w.workers[k].closing && OnlyLive(w, name, Some(k))
    case RetireClosing(name, k) => Registered(w, name) == Some(k) && k < |w.workers| && w.workers[k].closing && OnlyLive(w, name, Some(k))
    case GetJoined(name, _, k) => Registered(w, name) == Some(k) && OnlyLive(w, name, None)
    case RetireJoined(name, k) => Registered(w, name) == Some(k) && OnlyLive(w, name, None)
    case GetCleared(name, _) => Registered(w, name) == None && OnlyLive(w, name, None)
    case GetStarted(name, config, k) =>
      && Registered(w, name) == None && k < |w.workers|
      && w.workers[k].name == name && w.workers[k].config == config
      && OnlyLive(w, name, Some(k))
  }

  predicate RegistryOk(w: World) {
    forall name :: name in w.registry ==> w.registry[name] < |w.workers| && w.workers[w.registry[name]].name == name
  }

  predicate Owns(w: World, t: Tid, name: Name) {
    t in w.pcs && Holding(w.pcs[t]) && w.pcs[t].name == name
  }

  predicate LocksOk(w: World) {
    && (forall t :: t in w.pcs && Holding(w.pcs[t]) ==> w.pcs[t].name in w.lock && w.lock[w.pcs[t].name] == t)
    && (forall name :: name in w.lock ==> Owns(w, w.lock[name], name))
  }

  ghost predicate Good(w: World) {
    && RegistryOk(w)
    && LocksOk(w)
    && (forall t :: t in w.pcs ==> HolderOk(w, w.pcs[t]))
    && (forall name: Name :: name !in w.lock ==> OnlyLive(w, name, Registered(w, name)))
  }

  // ----- the steps keep it

  /** Nothing about other names changes, and no worker revives or takes back a close request. */
  ghost predicate Outside(w: World, w': World, name: Name) {
    && |w.workers| <= |w'.workers|
    && (forall j :: 0 <= j < |w.workers| ==>
          && w'.workers[j].name == w.workers[j].name && w'.workers[j].config == w.workers[j].config
          && (w'.workers[j].alive ==> w.workers[j].alive) && (w.workers[j].closing ==> w'.workers[j].closing))
    && (forall j :: |w.workers| <= j < |w'.workers| ==> w'.workers[j].name == name)
    && (forall m :: m != name ==> Registered(w', m) == Registered(w, m))
  }

  lemma OnlyLiveOutside(w: World, w': World, name: Name, m: Name, k: Option<nat>)
    requires Outside(w, w', name) && m != name && OnlyLive(w, m, k)
    ensures OnlyLive(w', m, k)
  {
  }

  lemma HolderOutside(w: World, w': World, name: Name, pc: Pc)
    requires Outside(w, w', name) && HolderOk(w, pc) && (Holding(pc) ==> pc.name != name)
    ensures HolderOk(w', pc)
  {
    if Holding(pc) {
      forall k | OnlyLive(w, pc.name, k) ensures OnlyLive(w', pc.name, k) {
        OnlyLiveOutside(w, w', name, pc.name, k);
      }
    }
  }

  /** A move of thread `t` inside (or into, or out of) the lock of `name`. */
  lemma Moved(w: World, w': World, t: Tid, name: Name, pc: Pc)
    requires Good(w) && Outside(w, w', name) && RegistryOk(w')
    requires Owns(w, t, name) || (name !in w.lock && !Holding(At(w, t)))
    requires w'.pcs == w.pcs[t := pc] && HolderOk(w', pc)
    requires if Holding(pc) then pc.name == name && w'.lock == w.lock[name := t]
             else w'.lock == w.lock - {name} && OnlyLive(w', name, Registered(w', name))
    ensures Good(w')
  {
    forall u | u in w'.pcs && Holding(w'.pcs[u]) ensures w'.pcs[u].name in w'.lock && w'.lock[w'.pcs[u].name] == u {
      if u != t { assert w'.pcs[u] == w.pcs[u]; }
    }
    forall m | m in w'.lock ensures Owns(w', w'.lock[m], m) {
      if m != name { assert Owns(w, w.lock[m], m); }
    }
    forall u | u in w'.pcs ensures HolderOk(w', w'.pcs[u]) {
      if u != t { HolderOutside(w, w', name, w.pcs[u]); }
    }
    forall m: Name | m !in w'.lock ensures OnlyLive(w', m, Registered(w', m)) {
      if m != name {
        assert m !in w.lock;
        OnlyLiveOutside(w, w', name, m, Registered(w, m));
      }
    }
  }

  lemma GoodBegin(w: World, t: Tid, pc: Pc)
    requires Good(w) && At(w, t).Idle? && (pc.GetWaiting? || pc.RetireWaiting?)
    ensures Good(Go(w, t, pc))
  {
    var w' := Go(w, t, pc);
    forall m | m in w'.lock ensures Owns(w', w'.lock[m], m) {
      assert Owns(w, w.lock[m], m);
    }
    forall u | u in w'.pcs ensures HolderOk(w', w'.pcs[u]) {
      if u != t { SameWorkers(w, w', w.pcs[u]); }
    }
    forall m: Name | m !in w'.lock ensures OnlyLive(w', m, Registered(w', m)) {
      assert OnlyLive(w, m, Registered(w, m));
    }
  }

  lemma SameWorkers(w: World, w': World, pc: Pc)
    requires w'.workers == w.workers && w'.registry == w.registry && HolderOk(w, pc)
    ensures HolderOk(w', pc)
  {
    forall m: Name, k | OnlyLive(w, m, k) ensures OnlyLive(w', m, k) { }
  }

  lemma GoodEnd(w: World, k: nat)
    requires Good(w) && k < |w.workers|
    ensures Good(Take(w, WorkerEnds(k)))
  {
    var w' := Take(w, WorkerEnds(k));
    forall m: Name, j | OnlyLive(w, m, j) ensures OnlyLive(w', m, j) { }
    forall m | m in w'.lock ensures Owns(w', w'.lock[m], m) {
      assert Owns(w, w.lock[m], m);
    }
    forall t | t in w'.pcs ensures HolderOk(w', w'.pcs[t]) {
      assert HolderOk(w, w.pcs[t]);
    }
  }

  lemma AskedIsOutside(w: World, name: Name, k: nat)
    requires k < |w.workers|
    ensures Outside(w, Ask(w, k), name) && Ask(w, k).registry == w.registry && Ask(w, k).lock == w.lock && Ask(w, k).pcs == w.pcs
    ensures forall m: Name, j :: OnlyLive(w, m, j) ==> OnlyLive(Ask(w, k), m, j)
    ensures Ask(w, k).workers[k].closing && (RegistryOk(w) ==> RegistryOk(Ask(w, k)))
  {
  }

  lemma GoodLookGet(w: World, t: Tid)
    requires Good(w) && At(w, t).GetHeld?
    ensures Good(Take(w, Look(t)))
  {
    var pc, w' := At(w, t), Take(w, Look(t));
    var name := pc.name;
    assert HolderOk(w, pc) && Owns(w, t, name);
    assert w.lock == w.lock[name := t];
    if name in w.registry {
      var k := w.registry[name];
      AskedIsOutside(w, name, k);
      assert OnlyLive(w, name, Some(k));
      assert OnlyLive(w', name, Some(k));
    } else {
      assert OnlyLive(w', name, None);
    }
    Moved(w, w', t, name, w'.pcs[t]);
  }

  lemma GoodLookRetire(w: World, t: Tid)
    requires Good(w) && At(w, t).RetireHeld?
    ensures Good(Take(w, Look(t)))
  {
    var pc, w' := At(w, t), Take(w, Look(t));
    var name, k := pc.name, pc.worker;
    assert HolderOk(w, pc) && Owns(w, t, name);
    assert w.lock == w.lock[name := t];
    if name in w.registry && w.registry[name] == k {
      AskedIsOutside(w, name, k);
      assert OnlyLive(w, name, Some(k));
      assert OnlyLive(w', name, Some(k));
    } else {
      assert OnlyLive(w', name, Registered(w', name));
    }
    Moved(w, w', t, name, w'.pcs[t]);
  }

  lemma GoodForget(w: World, t: Tid)
    requires Good(w) && Enabled(w, Forget(t))
    ensures Good(Take(w, Forget(t)))
  {
    var pc, w' := At(w, t), Take(w, Forget(t));
    var name := pc.name;
    assert HolderOk(w, pc) && Owns(w, t, name);
    assert w.lock == w.lock[name := t];
    assert OnlyLive(w', name, None);
    Moved(w, w', t, name, w'.pcs[t]);
  }

  lemma GoodJoin(w: World, t: Tid, s: Step)
    requires Good(w) && Enabled(w, s) && (s == JoinDone(t) || s == JoinTimesOut(t))
    ensures Good(Take(w, s))
  {
    var pc, w' := At(w, t), Take(w, s);
    var name := pc.name;
    assert HolderOk(w, pc) && Owns(w, t, name);
    assert w.lock == w.lock[name := t];
    if s == JoinDone(t) {
      assert OnlyLive(w', name, None);
    } else {
      assert OnlyLive(w', name, Registered(w', name));
    }
    Moved(w, w', t, name, w'.pcs[t]);
  }

  lemma GoodMake(w: World, t: Tid, s: Step)
    requires Good(w) && Enabled(w, s) && (s == StartWorker(t) || s == StartFails(t))
    ensures Good(Take(w, s))
  {
    var pc, w' := At(w, t), Take(w, s);
    var name := pc.name;
    assert HolderOk(w, pc) && Owns(w, t, name);
    assert w.lock == w.lock[name := t];
    if s == StartWorker(t) {
      assert OnlyLive(w', name, Some(|w.workers|));
    } else {
      assert OnlyLive(w', name, None);
    }
    Moved(w, w', t, name, w'.pcs[t]);
  }

  lemma GoodRegister(w: World, t: Tid)
    requires Good(w) && Enabled(w, Register(t))
    ensures Good(Take(w, Register(t)))
  {
    var pc, w' := At(w, t), Take(w, Register(t));
    assert HolderOk(w, pc) && Owns(w, t, pc.name);
    assert OnlyLive(w', pc.name, Some(pc.made));
    Moved(w, w', t, pc.name, w'.pcs[t]);
  }

  lemma GoodAcquire(w: World, t: Tid)
    requires Good(w) && Enabled(w, Acquire(t))
    ensures Good(Take(w, Acquire(t)))
  {
    var name, w' := At(w, t).name, Take(w, Acquire(t));
    assert OnlyLive(w, name, Registered(w, name));
    assert OnlyLive(w', name, Registered(w', name));
    Moved(w, w', t, name, w'.pcs[t]);
  }

  lemma GoodStep(w: World, s: Step)
    requires Good(w) && Enabled(w, s)
    ensures Good(Take(w, s))
  {
    match s
    case BeginGet(t, name, config) => GoodBegin(w, t, GetWaiting(name, config));
    case BeginRetire(t, name, worker) => GoodBegin(w, t, RetireWaiting(name, worker));
    case Acquire(t) => GoodAcquire(w, t);
    case Look(t) =>
      if At(w, t).GetHeld? { GoodLookGet(w, t); } else { GoodLookRetire(w, t); }
    case JoinDone(t) => GoodJoin(w, t, s);
    case JoinTimesOut(t) => GoodJoin(w, t, s);
    case Forget(t) => GoodForget(w, t);
    case StartWorker(t) => GoodMake(w, t, s);
    case StartFails(t) => GoodMake(w, t, s);
    case Register(t) => GoodRegister(w, t);
    case WorkerEnds(k) => GoodEnd(w, k);
  }

  lemma {:induction false} RunsStayGood(w: World, steps: seq<Step>)
    requires Good(w) && Possible(w, steps)
    ensures Good(Run(w, steps))
    decreases |steps|
  {
    if steps != [] {
      GoodStep(w, steps[0]);
      RunsStayGood(Take(w, steps[0]), steps[1..]);
    }
  }

  // ----- the theorems

  /** In every run from the empty manager: at most one worker of each name is alive; whenever a name's
      lifecycle lock is free, that worker is the registered one. */
  lemma OneLiveWorkerPerName(steps: seq<Step>)
    requires Possible(START, steps)
    ensures var w := Run(START, steps);
      && (forall i, j :: 0 <= i < j < |w.workers| && w.workers[i].alive && w.workers[j].alive ==>
            w.workers[i].name != w.workers[j].name)
      && (forall i :: 0 <= i < |w.workers| && w.workers[i].alive && w.workers[i].name !in w.lock ==>
            w.workers[i].name in w.registry && w.registry[w.workers[i].name] == i)
  {
    var w := Run(START, steps);
    RunsStayGood(START, steps);
    forall i, j | 0 <= i < j < |w.workers| && w.workers[i].alive && w.workers[j].alive
      ensures w.workers[i].name != w.workers[j].name
    {
      var name := w.workers[i].name;
      if name in w.lock {
        assert Owns(w, w.lock[name], name);
        assert HolderOk(w, w.pcs[w.lock[name]]);
      } else {
        assert OnlyLive(w, name, Registered(w, name));
      }
    }
    forall i | 0 <= i < |w.workers| && w.workers[i].alive && w.workers[i].name !in w.lock
      ensures Registered(w, w.workers[i].name) == Some(i)
    {
      assert OnlyLive(w, w.workers[i].name, Registered(w, w.workers[i].name));
    }
  }

  /** A worker is only ever started when no other worker of its name is alive: its predecessor, if there
      was one, has been joined. */
  lemma ReplacementsWaitForTheJoin(steps: seq<Step>, t: Tid)
    requires Possible(START, steps) && Enabled(Run(START, steps), StartWorker(t))
    ensures var w := Run(START, steps);
      forall i :: 0 <= i < |w.workers| && w.workers[i].alive ==> w.workers[i].name != At(w, t).name
  {
    RunsStayGood(START, steps);
    var w := Run(START, steps);
    assert HolderOk(w, w.pcs[t]);
  }

  /** A join that times out leaves the old worker registered and asked to close, so no later call is handed
      it and none replaces it before it ends. */
  lemma TimedOutWorkerStaysRegistered(steps: seq<Step>, t: Tid)
    requires Possible(START, steps) && Enabled(Run(START, steps), JoinTimesOut(t))
    ensures var w := Run(START, steps); var name := At(w, t).name; var w' := Take(w, JoinTimesOut(t));
      && name in w'.registry && name !in w'.lock
      && w'.registry[name] < |w'.workers| && w'.workers[w'.registry[name]].alive
      && !Usable(w', w'.registry[name])
  {
    RunsStayGood(START, steps);
    var w := Run(START, steps);
    assert HolderOk(w, w.pcs[t]);
  }

  /** A get that returns at once returns a live worker of that name and configuration that nobody has asked
      to close; a get that makes one returns it registered. */
  lemma GetReturnsAFittingWorker(steps: seq<Step>, t: Tid, s: Step)
    requires Possible(START, steps) && Enabled(Run(START, steps), s) && (s == Look(t) || s == Register(t))
    requires At(Run(START, steps), t).GetHeld? || At(Run(START, steps), t).GetStarted?
    requires At(Take(Run(START, steps), s), t).Idle?
    ensures var w := Run(START, steps); var w' := Take(w, s); var pc := At(w, t);
      && pc.name in w'.registry && w'.registry[pc.name] < |w'.workers|
      && w'.workers[w'.registry[pc.name]].name == pc.name && w'.workers[w'.registry[pc.name]].config == pc.config
      && (s == Look(t) ==> Usable(w', w'.registry[pc.name]))
  {
    RunsStayGood(START, steps);
    var w := Run(START, steps);
    GoodStep(w, s);
    assert HolderOk(w, w.pcs[t]);
  }
}
