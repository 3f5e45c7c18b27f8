/** extension/src/background.ts: Open & Fill requests race with clear messages. */
module Background {
  import opened Options
  import opened InMemoryArming
  import opened DurableArming
  import opened ArmingRefinement
  import opened ArmingLifecycle

  /** An `openAndArm` that waits for its tab: it remembers the generation it started in. */
  datatype Opening = Opening(generation: nat, url: string, snapshot: Option<FillSnapshot>)

  /** An operation on the store's serial queue. A clear carries its watermark: the number of
      requests that had begun when the clear message arrived. */
  datatype Job =
    | ArmJob(request: nat, call: Call)
    | ClearJob(mark: nat, call: Call)
    | OtherJob(call: Call)

  /** What dies with the worker. */
  datatype Worker = Worker(generation: nat, opening: map<nat, Opening>, queue: seq<Job>)

  /** Requests are numbered in the order in which they begin; `origin` names the request behind each
      persisted arm, `received` and `cleared` are the latest watermark that arrived and that was completed. */
  datatype System = System(worker: Worker, world: World, begun: nat, received: nat, cleared: nat, origin: map<nat, nat>)

  datatype Event =
    | OpenAndFill(url: string, snapshot: Option<FillSnapshot>, openable: bool)
    | TabCreated(request: nat, tab: Option<nat>, now: int)
    | ClearState(now: int)
    | Message(call: Call)                      // consume, peek and the alarm's sweep
    | RunFront(cut: nat, returned: bool)       // the oldest queued operation runs, or is rejected part-way
    | Crash(cut: nat, now: int)                // the worker dies during it; another one starts and sweeps

  const INITIAL := System(Worker(0, map[], []), EMPTY, 0, 0, 0, map[])

  ghost predicate Enabled(env: Env, s: System, e: Event) {
    match e
    case OpenAndFill(_, _, _) => true
    case TabCreated(request, _, _) => request in s.worker.opening
    case ClearState(_) => true
    case Message(call) => call.Consume? || call.Peek? || call.Sweep?
    case RunFront(cut, returned) =>
      s.worker.queue != [] && Possible(env, s.world, Step(s.worker.queue[0].call, cut, returned))
    case Crash(cut, _) =>
      if s.worker.queue == [] then cut == 0 else Possible(env, s.world, Step(s.worker.queue[0].call, cut, false))
  }

  ghost predicate Persists(env: Env, w: World, job: Job, cut: nat, returned: bool) {
    job.ArmJob? && Took(env, w, Step(job.call, cut, returned)) && PlanOf(env, w, job.call).commit.Some?
  }

  ghost function RunJob(env: Env, s: System, job: Job, cut: nat, returned: bool): System
    requires Possible(env, s.world, Step(job.call, cut, returned))
    requires job.ArmJob? ==> job.call.Arm?
  {
    s.(world := After(env, s.world, Step(job.call, cut, returned)),
       origin := if Persists(env, s.world, job, cut, returned) then s.origin[job.call.tab := job.request] else s.origin,
       cleared := if job.ClearJob? && returned && s.cleared < job.mark then job.mark else s.cleared)
  }

  predicate JobIsWellFormed(job: Job) {
    match job
    case ArmJob(_, call) => call.Arm?
    case ClearJob(_, call) => call.ClearAll?
    case OtherJob(call) => call.Consume? || call.Peek? || call.Sweep?
  }

  ghost predicate JobsAreWellFormed(queue: seq<Job>) {
    forall i :: 0 <= i < |queue| ==> JobIsWellFormed(queue[i])
  }

  ghost function Next(env: Env, s: System, e: Event): System
    requires JobsAreWellFormed(s.worker.queue) && Enabled(env, s, e)
  {
    match e
    case OpenAndFill(url, snapshot, openable) =>
      if !openable then s.(begun := s.begun + 1)
      else s.(begun := s.begun + 1,
              worker := s.worker.(opening := s.worker.opening[s.begun := Opening(s.worker.generation, url, snapshot)]))
    case TabCreated(request, tab, now) =>
      var opening := s.worker.opening[request];
      var waiting := s.worker.opening - {request};
      if tab.None? || opening.generation != s.worker.generation then s.(worker := s.worker.(opening := waiting))
      else s.(worker := s.worker.(opening := waiting,
        queue := s.worker.queue + [ArmJob(request, Arm(opening.url, now, tab.value, opening.snapshot))]))
    case ClearState(now) =>
      s.(received := s.begun,
         worker := s.worker.(generation := s.worker.generation + 1,
                             queue := s.worker.queue + [ClearJob(s.begun, ClearAll(now))]))
    case Message(call) => s.(worker := s.worker.(queue := s.worker.queue + [OtherJob(call)]))
    case RunFront(cut, returned) =>
      var ran := RunJob(env, s, s.worker.queue[0], cut, returned);
      ran.(worker := s.worker.(queue := s.worker.queue[1..]))
    case Crash(cut, now) =>
      var ran := if s.worker.queue == [] then s else RunJob(env, s, s.worker.queue[0], cut, false);
      ran.(worker := Worker(0, map[], [OtherJob(Sweep(now))]))
  }

  // ---- the invariant ----

  ghost predicate Ordered(s: System) {
    && s.cleared <= s.received <= s.begun
    && (forall r :: r in s.worker.opening ==> r < s.begun && s.worker.opening[r].generation <= s.worker.generation)
    && (forall r :: r in s.worker.opening && s.worker.opening[r].generation == s.worker.generation ==> s.received <= r)
  }

  ghost predicate QueueOrdered(s: System) {
    var queue := s.worker.queue;
    && JobsAreWellFormed(queue)
    && (forall i :: 0 <= i < |queue| && queue[i].ArmJob? ==> s.cleared <= queue[i].request)
    && (forall i :: 0 <= i < |queue| && queue[i].ClearJob? ==> queue[i].mark <= s.received)
    && (forall i, j :: 0 <= i < j < |queue| && queue[i].ClearJob? && queue[j].ArmJob? ==> queue[i].mark <= queue[j].request)
  }

  /** Every persisted arm comes from a request that began after the last completed clear arrived. */
  ghost predicate StoreIsRecent(s: System) {
    forall tab :: tab in s.world.arms ==> tab in s.origin && s.cleared <= s.origin[tab]
  }

  ghost predicate Inv(s: System) {
    Ordered(s) && QueueOrdered(s) && StoreIsRecent(s)
  }

  lemma JobKeepsStoreRecent(env: Env, s: System, job: Job, cut: nat, returned: bool)
    requires StoreIsRecent(s) && JobIsWellFormed(job)
    requires Possible(env, s.world, Step(job.call, cut, returned))
    requires job.ArmJob? ==> s.cleared <= job.request
    ensures StoreIsRecent(RunJob(env, s, job, cut, returned))
  {
    var step := Step(job.call, cut, returned);
    StepArms(env, s.world, step);
    if job.ClearJob? && returned {
      CompletedClear(env, s, job, cut);
    }
  }

  lemma CompletedClear(env: Env, s: System, job: Job, cut: nat)
    requires job.ClearJob? && JobIsWellFormed(job) && Possible(env, s.world, Step(job.call, cut, true))
    ensures RunJob(env, s, job, cut, true).world.arms == map[]
  {
    var es := PlanOf(env, s.world, job.call).Effects();
    assert es[..|es|] == es;
    ClearAllEmpties(env, s.world, job.call.now);
  }

  lemma RunFrontKeepsInv(env: Env, s: System, cut: nat, returned: bool)
    requires Inv(s) && Enabled(env, s, RunFront(cut, returned))
    ensures Inv(Next(env, s, RunFront(cut, returned)))
  {
    var job, rest := s.worker.queue[0], s.worker.queue[1..];
    JobKeepsStoreRecent(env, s, job, cut, returned);
    assert forall i :: 0 <= i < |rest| ==> rest[i] == s.worker.queue[i + 1];
    var ran := RunJob(env, s, job, cut, returned);
    assert ran.cleared == s.cleared || ran.cleared == job.mark;
    assert forall i :: 0 <= i < |rest| && rest[i].ArmJob? ==> ran.cleared <= rest[i].request;
    assert QueueOrdered(Next(env, s, RunFront(cut, returned)));
  }

  lemma OpeningKeepsInv(env: Env, s: System, url: string, snapshot: Option<FillSnapshot>, openable: bool)
    requires Inv(s)
    ensures Inv(Next(env, s, OpenAndFill(url, snapshot, openable)))
  {
  }

  lemma TabKeepsInv(env: Env, s: System, request: nat, tab: Option<nat>, now: int)
    requires Inv(s) && request in s.worker.opening
    ensures Inv(Next(env, s, TabCreated(request, tab, now)))
  {
  }

  lemma ClearKeepsInv(env: Env, s: System, now: int)
    requires Inv(s)
    ensures Inv(Next(env, s, ClearState(now)))
  {
  }

  lemma CrashKeepsInv(env: Env, s: System, cut: nat, now: int)
    requires Inv(s) && Enabled(env, s, Crash(cut, now))
    ensures Inv(Next(env, s, Crash(cut, now)))
  {
    if s.worker.queue != [] {
      JobKeepsStoreRecent(env, s, s.worker.queue[0], cut, false);
    }
  }

  lemma ClearedGrows(env: Env, s: System, e: Event)
    requires Inv(s) && Enabled(env, s, e)
    ensures s.cleared <= Next(env, s, e).cleared
  {
  }

  lemma NextKeepsInv(env: Env, s: System, e: Event)
    requires Inv(s) && Enabled(env, s, e)
    ensures Inv(Next(env, s, e)) && s.cleared <= Next(env, s, e).cleared
  {
    ClearedGrows(env, s, e);
    match e
    case OpenAndFill(url, snapshot, openable) => OpeningKeepsInv(env, s, url, snapshot, openable);
    case TabCreated(request, tab, now) => TabKeepsInv(env, s, request, tab, now);
    case ClearState(now) => ClearKeepsInv(env, s, now);
    case Message(call) =>
    case RunFront(cut, returned) => RunFrontKeepsInv(env, s, cut, returned);
    case Crash(cut, now) => CrashKeepsInv(env, s, cut, now);
  }

  // ---- every interleaving ----

  ghost predicate Run(env: Env, s: System, events: seq<Event>)
    decreases |events|
  {
    events == [] ||
    (JobsAreWellFormed(s.worker.queue) && Enabled(env, s, events[0]) && Run(env, Next(env, s, events[0]), events[1..]))
  }

  ghost function Reached(env: Env, s: System, events: seq<Event>): System
    requires Run(env, s, events)
    decreases |events|
  {
    if events == [] then s else Reached(env, Next(env, s, events[0]), events[1..])
  }

  lemma {:induction false} RunKeepsInv(env: Env, s: System, events: seq<Event>)
    requires Inv(s) && Run(env, s, events)
    ensures Inv(Reached(env, s, events)) && s.cleared <= Reached(env, s, events).cleared
    decreases |events|
  {
    if events != [] {
      NextKeepsInv(env, s, events[0]);
      RunKeepsInv(env, Next(env, s, events[0]), events[1..]);
    }
  }

  /** In every interleaving, worker restarts included: a clear message is stamped with the requests
      begun so far, and once its clear has returned, at that moment and ever after, no arm in the
      store comes from one of them. */
  lemma NoArmOutlivesAClear(env: Env, before: seq<Event>, cut: nat, later: seq<Event>)
    requires Run(env, INITIAL, before)
    requires var s := Reached(env, INITIAL, before);
      s.worker.queue != [] && s.worker.queue[0].ClearJob? && JobsAreWellFormed(s.worker.queue) &&
      Enabled(env, s, RunFront(cut, true)) && Run(env, Next(env, s, RunFront(cut, true)), later)
    ensures var s := Reached(env, INITIAL, before);
      var done := Next(env, s, RunFront(cut, true));
      var end := Reached(env, done, later);
      && done.world.arms == map[]
      && forall tab :: tab in end.world.arms ==> tab in end.origin && s.worker.queue[0].mark <= end.origin[tab]
  {
    RunKeepsInv(env, INITIAL, before);
    var s := Reached(env, INITIAL, before);
    var job := s.worker.queue[0];
    NextKeepsInv(env, s, RunFront(cut, true));
    RunKeepsInv(env, Next(env, s, RunFront(cut, true)), later);
    CompletedClear(env, s, job, cut);
  }

  // ---- tidiness over a run ----

  /** A sweep is about to run, or the stores are tidy. */
  ghost predicate Settling(s: System) {
    Tidy(s.world) || (s.worker.queue != [] && s.worker.queue[0].OtherJob? && s.worker.queue[0].call.Sweep?)
  }

  /** The worker is not stopped and no write is rejected. */
  predicate Smooth(e: Event) {
    match e
    case RunFront(_, returned) => returned
    case Crash(_, _) => false
    case _ => true
  }

  lemma JobSettles(env: Env, s: System, cut: nat)
    requires JobsAreWellFormed(s.worker.queue) && Enabled(env, s, RunFront(cut, true)) && Settling(s)
    ensures Tidy(Next(env, s, RunFront(cut, true)).world)
  {
    var call := s.worker.queue[0].call;
    var es := PlanOf(env, s.world, call).Effects();
    assert es[..|es|] == es;
    if call.Sweep? {
      SweepTidiesAnything(env, s.world, call.now);
    } else {
      CompletedCallsKeepTidy(env, s.world, call);
    }
  }

  lemma SmoothStepSettles(env: Env, s: System, e: Event)
    requires JobsAreWellFormed(s.worker.queue) && Enabled(env, s, e) && Smooth(e) && Settling(s)
    ensures Settling(Next(env, s, e))
  {
    if e.RunFront? {
      JobSettles(env, s, e.cut);
    }
  }

  lemma {:induction false} SmoothRunSettles(env: Env, s: System, events: seq<Event>)
    requires Run(env, s, events) && Settling(s) && forall i :: 0 <= i < |events| ==> Smooth(events[i])
    ensures Settling(Reached(env, s, events))
    decreases |events|
  {
    if events != [] {
      SmoothStepSettles(env, s, events[0]);
      SmoothRunSettles(env, Next(env, s, events[0]), events[1..]);
    }
  }

  /** After any run and a restart: as long as no further stop or rejected write comes, the stores are tidy
      whenever the queue is empty, for then the sweep of the restart has completed. */
  lemma RestartTidies(env: Env, before: seq<Event>, cut: nat, now: int, later: seq<Event>)
    requires Run(env, INITIAL, before)
    requires var s := Reached(env, INITIAL, before);
      JobsAreWellFormed(s.worker.queue) && Enabled(env, s, Crash(cut, now)) && Run(env, Next(env, s, Crash(cut, now)), later)
    requires forall i :: 0 <= i < |later| ==> Smooth(later[i])
    ensures var restarted := Next(env, Reached(env, INITIAL, before), Crash(cut, now));
      var end := Reached(env, restarted, later);
      end.worker.queue == [] ==> Tidy(end.world)
  {
    SmoothRunSettles(env, Next(env, Reached(env, INITIAL, before), Crash(cut, now)), later);
  }

  // ---- the handlers ----

  /** The service worker's own state and handlers; `system` ties them to the steps above. */
  class ServiceWorker {
    var armGeneration: nat
    var opening: map<nat, Opening>
    ghost var queue: seq<Job>   // the store's promise chain
    ghost var system: System

    ghost predicate Valid()
      reads this
    {
      system.worker == Worker(armGeneration, opening, queue) && Inv(system)
    }

    /** A worker that starts takes the store as it is and queues its sweep. */
    constructor (ghost env: Env, ghost previous: System, ghost cut: nat, now: int)
      requires Inv(previous) && Enabled(env, previous, Crash(cut, now))
      ensures Valid() && system == Next(env, previous, Crash(cut, now))
    {
      armGeneration := 0;
      opening := map[];
      queue := [OtherJob(Sweep(now))];
      system := Next(env, previous, Crash(cut, now));
      NextKeepsInv(env, previous, Crash(cut, now));
    }

    method OnOpenAndFill(ghost env: Env, request: nat, url: string, snapshot: Option<FillSnapshot>, openable: bool)
      requires Valid() && request == system.begun
      modifies this
      ensures Valid() && system == Next(env, old(system), OpenAndFill(url, snapshot, openable))
    {
      NextKeepsInv(env, system, OpenAndFill(url, snapshot, openable));
      system := Next(env, system, OpenAndFill(url, snapshot, openable));
      if !openable {
        return;
      }
      var generation := armGeneration;
      opening := opening[request := Opening(generation, url, snapshot)];
    }

    /** Answers whether the request went on to arm. */
    method OnTabCreated(ghost env: Env, request: nat, tab: Option<nat>, now: int) returns (armed: bool)
      requires Valid() && request in opening
      modifies this
      ensures Valid() && system == Next(env, old(system), TabCreated(request, tab, now))
      ensures armed <==> tab.Some? && old(opening)[request].generation == old(armGeneration)
    {
      NextKeepsInv(env, system, TabCreated(request, tab, now));
      system := Next(env, system, TabCreated(request, tab, now));
      var pending := opening[request];
      opening := opening - {request};
      if tab.None? || pending.generation != armGeneration {
        return false;
      }
      queue := queue + [ArmJob(request, Arm(pending.url, now, tab.value, pending.snapshot))];
      return true;
    }

    method OnClearState(ghost env: Env, now: int)
      requires Valid()
      modifies this
      ensures Valid() && system == Next(env, old(system), ClearState(now))
      ensures armGeneration == old(armGeneration) + 1
    {
      armGeneration := armGeneration + 1;
      queue := queue + [ClearJob(system.begun, ClearAll(now))];
      NextKeepsInv(env, system, ClearState(now));
      system := Next(env, system, ClearState(now));
    }
  }
}
