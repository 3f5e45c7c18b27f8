/** Whole runs of the background worker: what a clear forgets, and whose arm is stored. */
module BackgroundRuns {
  import opened Options
  import opened InMemoryArming
  import opened DurableArming
  import ArmingRefinement
  import opened ArmingLifecycle
  import opened Background

  // ---- what a clear message forgets ----

  /** Every request below `mark` is forgotten, or a queued clear will forget it. */
  ghost predicate Forgetting(s: System, mark: nat) {
    mark <= s.cleared ||
    exists i :: 0 <= i < |s.worker.queue| && s.worker.queue[i].ClearJob? && mark <= s.worker.queue[i].mark
  }

  lemma ClearStartsForgetting(env: Env, s: System, now: int)
    requires JobsAreWellFormed(s.worker.queue)
    ensures Forgetting(Next(env, s, ClearState(now)), s.begun)
  {
    var queue := Next(env, s, ClearState(now)).worker.queue;
    assert queue[|queue| - 1] == ClearJob(s.begun, ClearAll(now));
  }

  lemma FrontKeepsForgetting(env: Env, s: System, cut: nat, mark: nat)
    requires Inv(s) && Enabled(env, s, RunFront(cut, true)) && Forgetting(s, mark)
    ensures Forgetting(Next(env, s, RunFront(cut, true)), mark)
  {
    var queue, next := s.worker.queue, Next(env, s, RunFront(cut, true));
    if mark > s.cleared {
      var i :| 0 <= i < |queue| && queue[i].ClearJob? && mark <= queue[i].mark;
      assert i > 0 ==> next.worker.queue[i - 1] == queue[i];
    }
  }

  lemma SmoothKeepsForgetting(env: Env, s: System, e: Event, mark: nat)
    requires Inv(s) && Enabled(env, s, e) && Smooth(e) && Forgetting(s, mark)
    ensures Forgetting(Next(env, s, e), mark)
  {
    if e.RunFront? {
      FrontKeepsForgetting(env, s, e.cut, mark);
    } else if mark > s.cleared {
      var i :| 0 <= i < |s.worker.queue| && s.worker.queue[i].ClearJob? && mark <= s.worker.queue[i].mark;
      assert Next(env, s, e).worker.queue[i] == s.worker.queue[i];
    }
  }

  lemma {:induction false} SmoothRunForgets(env: Env, s: System, events: seq<Event>, mark: nat)
    requires Inv(s) && Run(env, s, events) && Forgetting(s, mark)
    requires forall i :: 0 <= i < |events| ==> Smooth(events[i])
    ensures Inv(Reached(env, s, events)) && Forgetting(Reached(env, s, events), mark)
    decreases |events|
  {
    if events != [] {
      NextKeepsInv(env, s, events[0]);
      SmoothKeepsForgetting(env, s, events[0], mark);
      SmoothRunForgets(env, Next(env, s, events[0]), events[1..], mark);
    }
  }

  /** A clear message forgets for good what was asked for before it: once the worker has got through its queue
      without a stop or a rejected write, no arm in the store comes from a request that began before the
      message, then and ever after, whatever comes, stops included. */
  lemma ClearForgetsForGood(env: Env, before: seq<Event>, now: int, between: seq<Event>, later: seq<Event>)
    requires Run(env, INITIAL, before)
    requires var s := Reached(env, INITIAL, before);
      JobsAreWellFormed(s.worker.queue) && Run(env, Next(env, s, ClearState(now)), between)
    requires forall i :: 0 <= i < |between| ==> Smooth(between[i])
    requires var idle := Reached(env, Next(env, Reached(env, INITIAL, before), ClearState(now)), between);
      idle.worker.queue == [] && Run(env, idle, later)
    ensures var s := Reached(env, INITIAL, before);
      var end := Reached(env, Reached(env, Next(env, s, ClearState(now)), between), later);
      forall tab :: tab in end.world.arms ==> tab in end.origin && s.begun <= end.origin[tab]
  {
    RunKeepsInv(env, INITIAL, before);
    var s := Reached(env, INITIAL, before);
    NextKeepsInv(env, s, ClearState(now));
    ClearStartsForgetting(env, s, now);
    SmoothRunForgets(env, Next(env, s, ClearState(now)), between, s.begun);
    RunKeepsInv(env, Reached(env, Next(env, s, ClearState(now)), between), later);
  }

  /** The queue is run to its end, and nothing else happens. */
  predicate Drains(events: seq<Event>) {
    forall i :: 0 <= i < |events| ==> events[i].RunFront? && events[i].returned
  }

  /** The queued operations, carried out in order. */
  ghost function CarriedOut(env: Env, w: World, queue: seq<Job>): World
    decreases |queue|
  {
    if queue == [] then w else CarriedOut(env, Complete(env, w, queue[0].call), queue[1..])
  }

  lemma {:induction false} LastIsCarriedOut(env: Env, w: World, queue: seq<Job>, last: Job)
    ensures CarriedOut(env, w, queue + [last]) == Complete(env, CarriedOut(env, w, queue), last.call)
    decreases |queue|
  {
    if queue == [] {
      assert [last][1..] == [];
    } else {
      assert (queue + [last])[1..] == queue[1..] + [last];
      LastIsCarriedOut(env, Complete(env, w, queue[0].call), queue[1..], last);
    }
  }

  lemma FrontCompletes(env: Env, s: System, e: Event)
    requires JobsAreWellFormed(s.worker.queue) && Enabled(env, s, e) && e.RunFront? && e.returned
    ensures var next := Next(env, s, e);
      && CarriedOut(env, next.world, next.worker.queue) == CarriedOut(env, s.world, s.worker.queue)
      && JobsAreWellFormed(next.worker.queue)
  {
    var es := PlanOf(env, s.world, s.worker.queue[0].call).Effects();
    assert es[..|es|] == es;
  }

  /** A drained queue has been carried out in order. */
  lemma {:induction false} DrainedInOrder(env: Env, s: System, events: seq<Event>)
    requires JobsAreWellFormed(s.worker.queue) && Run(env, s, events) && Drains(events)
    requires Reached(env, s, events).worker.queue == []
    ensures Reached(env, s, events).world == CarriedOut(env, s.world, s.worker.queue)
    decreases |events|
  {
    if events != [] {
      var e, rest := events[0], events[1..];
      assert e.RunFront? && e.returned && Drains(rest);
      FrontCompletes(env, s, e);
      DrainedInOrder(env, Next(env, s, e), rest);
    }
  }

  lemma LastCompletes(env: Env, s: System, before: System, last: Job, events: seq<Event>)
    requires JobsAreWellFormed(s.worker.queue) && s.worker.queue == before.worker.queue + [last] && s.world == before.world
    requires Run(env, s, events) && Drains(events) && Reached(env, s, events).worker.queue == []
    ensures Reached(env, s, events).world == Complete(env, CarriedOut(env, before.world, before.worker.queue), last.call)
  {
    DrainedInOrder(env, s, events);
    LastIsCarriedOut(env, before.world, before.worker.queue, last);
  }

  /** A clear message that is followed by nothing else leaves nothing: no arm, no CV payload and no alarm. */
  lemma ClearThenIdleIsEmpty(env: Env, before: seq<Event>, now: int, drain: seq<Event>)
    requires Run(env, INITIAL, before)
    requires var s := Reached(env, INITIAL, before);
      JobsAreWellFormed(s.worker.queue) && Run(env, Next(env, s, ClearState(now)), drain)
    requires Drains(drain)
    requires Reached(env, Next(env, Reached(env, INITIAL, before), ClearState(now)), drain).worker.queue == []
    ensures Reached(env, Next(env, Reached(env, INITIAL, before), ClearState(now)), drain).world == ArmingRefinement.EMPTY
  {
    var s := Reached(env, INITIAL, before);
    RunKeepsInv(env, INITIAL, before);
    NextKeepsInv(env, s, ClearState(now));
    LastCompletes(env, Next(env, s, ClearState(now)), s, ClearJob(s.begun, ClearAll(now)), drain);
    ClearAllEmpties(env, CarriedOut(env, s.world, s.worker.queue), now);
  }

  /** A consume, a peek or a sweep is carried out after what was queued before it. */
  lemma MessageIsCarriedOut(env: Env, s: System, call: Call, drain: seq<Event>)
    requires Inv(s) && Enabled(env, s, Message(call))
    requires Run(env, Next(env, s, Message(call)), drain) && Drains(drain)
    requires Reached(env, Next(env, s, Message(call)), drain).worker.queue == []
    ensures Reached(env, Next(env, s, Message(call)), drain).world ==
            Complete(env, CarriedOut(env, s.world, s.worker.queue), call)
  {
    NextKeepsInv(env, s, Message(call));
    LastCompletes(env, Next(env, s, Message(call)), s, OtherJob(call), drain);
  }

  // ---- whose arm is stored ----

  /** The requests of a run, in the order in which they began. */
  function Requests(events: seq<Event>): seq<Event> {
    if events == [] then [] else
    var front, last := Requests(events[..|events| - 1]), events[|events| - 1];
    if last.OpenAndFill? then front + [last] else front
  }

  lemma RequestsExtend(past: seq<Event>, e: Event)
    ensures Requests(past + [e]) == if e.OpenAndFill? then Requests(past) + [e] else Requests(past)
  {
    assert (past + [e])[..|past|] == past;
  }

  /** Request `r` was for this page with this snapshot, and the page could be opened. */
  predicate Asked(past: seq<Event>, r: nat, url: string, snapshot: Option<FillSnapshot>) {
    r < |Requests(past)| && Requests(past)[r] == OpenAndFill(url, snapshot, true)
  }

  /** What the store keeps of a snapshot. */
  function Kept(env: Env, snapshot: Option<FillSnapshot>): Option<StoredSnapshot> {
    if snapshot.None? then None else StoredForm(env, snapshot.value)
  }

  /** The arm is for the page and with the snapshot of request `r`, in the tab that was opened for it, and expires
      one lifetime after that. */
  ghost predicate ArmIsOf(env: Env, past: seq<Event>, r: nat, tab: nat, arm: StoredEntry) {
    && TabCreated(r, Some(tab), arm.expiresAt - env.ttl) in past
    && arm.tabId == tab
    && exists url, snapshot ::
         Asked(past, r, url, snapshot) && arm.url == env.normalize(url) && arm.snapshot == Kept(env, snapshot)
  }

  ghost predicate JobIsOf(past: seq<Event>, job: Job) {
    job.ArmJob? ==>
      && job.call.Arm? && Asked(past, job.request, job.call.url, job.call.snapshot)
      && TabCreated(job.request, Some(job.call.tab), job.call.now) in past
  }

  ghost predicate OpeningsTold(past: seq<Event>, worker: Worker) {
    forall r :: r in worker.opening ==> Asked(past, r, worker.opening[r].url, worker.opening[r].snapshot)
  }

  ghost predicate QueueTold(past: seq<Event>, queue: seq<Job>) {
    forall i :: 0 <= i < |queue| ==> JobIsOf(past, queue[i])
  }

  ghost predicate ArmsTold(env: Env, past: seq<Event>, s: System) {
    forall tab :: tab in s.world.arms ==> tab in s.origin && ArmIsOf(env, past, s.origin[tab], tab, s.world.arms[tab])
  }

  ghost predicate Told(env: Env, past: seq<Event>, s: System) {
    && s.begun == |Requests(past)|
    && OpeningsTold(past, s.worker) && QueueTold(past, s.worker.queue) && ArmsTold(env, past, s)
  }

  lemma MoreIsAsked(past: seq<Event>, e: Event, r: nat, url: string, snapshot: Option<FillSnapshot>)
    requires Asked(past, r, url, snapshot)
    ensures Asked(past + [e], r, url, snapshot)
  {
    RequestsExtend(past, e);
  }

  lemma ArmStaysTold(env: Env, past: seq<Event>, e: Event, r: nat, tab: nat, arm: StoredEntry)
    requires ArmIsOf(env, past, r, tab, arm)
    ensures ArmIsOf(env, past + [e], r, tab, arm)
  {
    var url, snapshot :|
      Asked(past, r, url, snapshot) && arm.url == env.normalize(url) && arm.snapshot == Kept(env, snapshot);
    MoreIsAsked(past, e, r, url, snapshot);
  }

  lemma StaysTold(env: Env, past: seq<Event>, e: Event, s: System)
    requires Told(env, past, s)
    ensures OpeningsTold(past + [e], s.worker) && QueueTold(past + [e], s.worker.queue) && ArmsTold(env, past + [e], s)
  {
    forall r | r in s.worker.opening ensures Asked(past + [e], r, s.worker.opening[r].url, s.worker.opening[r].snapshot) {
      MoreIsAsked(past, e, r, s.worker.opening[r].url, s.worker.opening[r].snapshot);
    }
    forall i | 0 <= i < |s.worker.queue| ensures JobIsOf(past + [e], s.worker.queue[i]) {
      var job := s.worker.queue[i];
      assert JobIsOf(past, job);
      if job.ArmJob? {
        MoreIsAsked(past, e, job.request, job.call.url, job.call.snapshot);
      }
    }
    forall tab | tab in s.world.arms
      ensures tab in s.origin && ArmIsOf(env, past + [e], s.origin[tab], tab, s.world.arms[tab])
    {
      ArmStaysTold(env, past, e, s.origin[tab], tab, s.world.arms[tab]);
    }
  }

  /** An arm of a call that went in was there before, or is the one that the call was to write. */
  lemma CommittedArm(env: Env, w: World, call: Call, tab: nat)
    requires PlanOf(env, w, call).commit.Some? && tab in Apply(w, PlanOf(env, w, call).commit.value).arms
    ensures var arm := Apply(w, PlanOf(env, w, call).commit.value).arms[tab];
      if call.Arm? && call.tab == tab
      then arm == StoredEntry(env.normalize(call.url), call.now + env.ttl, tab, Kept(env, call.snapshot))
      else tab in w.arms && arm == w.arms[tab]
  {
  }

  lemma JobKeepsArmTold(env: Env, past: seq<Event>, s: System, job: Job, cut: nat, returned: bool, tab: nat)
    requires ArmsTold(env, past, s) && JobIsWellFormed(job) && JobIsOf(past, job)
    requires ArmingRefinement.Possible(env, s.world, ArmingRefinement.Step(job.call, cut, returned))
    requires tab in RunJob(env, s, job, cut, returned).world.arms
    ensures var next := RunJob(env, s, job, cut, returned);
      tab in next.origin && ArmIsOf(env, past, next.origin[tab], tab, next.world.arms[tab])
  {
    var step := ArmingRefinement.Step(job.call, cut, returned);
    StepArms(env, s.world, step);
    if PlanOf(env, s.world, job.call).commit.Some? && ArmingRefinement.Took(env, s.world, step) {
      CommittedArm(env, s.world, job.call, tab);
    }
  }

  lemma JobKeepsArmsTold(env: Env, past: seq<Event>, s: System, job: Job, cut: nat, returned: bool)
    requires ArmsTold(env, past, s) && JobIsWellFormed(job) && JobIsOf(past, job)
    requires ArmingRefinement.Possible(env, s.world, ArmingRefinement.Step(job.call, cut, returned))
    ensures ArmsTold(env, past, RunJob(env, s, job, cut, returned))
  {
    var next := RunJob(env, s, job, cut, returned);
    forall tab | tab in next.world.arms
      ensures tab in next.origin && ArmIsOf(env, past, next.origin[tab], tab, next.world.arms[tab])
    {
      JobKeepsArmTold(env, past, s, job, cut, returned, tab);
    }
  }

  lemma StepIsTold(env: Env, past: seq<Event>, s: System, e: Event)
    requires Told(env, past, s) && JobsAreWellFormed(s.worker.queue) && Enabled(env, s, e)
    ensures Told(env, past + [e], Next(env, s, e))
  {
    RequestsExtend(past, e);
    StaysTold(env, past, e, s);
    match e
    case RunFront(cut, returned) =>
      JobKeepsArmsTold(env, past + [e], s, s.worker.queue[0], cut, returned);
    case Crash(cut, _) =>
      if s.worker.queue != [] {
        JobKeepsArmsTold(env, past + [e], s, s.worker.queue[0], cut, false);
      }
    case _ =>
  }

  lemma Regrouped(past: seq<Event>, events: seq<Event>)
    requires events != []
    ensures past + [events[0]] + events[1..] == past + events
  {
  }

  lemma {:induction false} RunIsTold(env: Env, past: seq<Event>, s: System, events: seq<Event>)
    requires Told(env, past, s) && Run(env, s, events)
    ensures Told(env, past + events, Reached(env, s, events))
    decreases |events|
  {
    if events == [] {
      assert past + events == past;
    } else {
      var e, rest := events[0], events[1..];
      Regrouped(past, events);
      StepIsTold(env, past, s, e);
      RunIsTold(env, past + [e], Next(env, s, e), rest);
    }
  }

  /** In every interleaving each stored arm is what its request asked for: the request's own page, snapshot and
      tab. A page that cannot be opened is never armed. */
  lemma StoredArmIsRequested(env: Env, events: seq<Event>)
    requires Run(env, INITIAL, events)
    ensures var s := Reached(env, INITIAL, events);
      && s.begun == |Requests(events)|
      && forall tab :: tab in s.world.arms ==> tab in s.origin && ArmIsOf(env, events, s.origin[tab], tab, s.world.arms[tab])
  {
    RunIsTold(env, [], INITIAL, events);
    assert [] + events == events;
  }

  // ---- a request that is left alone is armed ----

  /** Neither a clear nor a stop, and not this request's tab. */
  predicate LeavesAlone(e: Event, r: nat) {
    !e.ClearState? && !e.Crash? && !(e.TabCreated? && e.request == r)
  }

  ghost predicate Waits(s: System, r: nat, url: string, snapshot: Option<FillSnapshot>) {
    r < s.begun && r in s.worker.opening && s.worker.opening[r] == Opening(s.worker.generation, url, snapshot)
  }

  lemma {:induction false} RequestWaits(env: Env, s: System, r: nat, url: string, snapshot: Option<FillSnapshot>,
                                        events: seq<Event>)
    requires Waits(s, r, url, snapshot) && Run(env, s, events)
    requires forall i :: 0 <= i < |events| ==> LeavesAlone(events[i], r)
    ensures Waits(Reached(env, s, events), r, url, snapshot)
    decreases |events|
  {
    if events != [] {
      assert LeavesAlone(events[0], r);
      RequestWaits(env, Next(env, s, events[0]), r, url, snapshot, events[1..]);
    }
  }

  lemma ArmCompletes(env: Env, w: World, url: string, now: int, tab: nat, snapshot: Option<FillSnapshot>)
    requires snapshot.Some? ==> StoredForm(env, snapshot.value).Some?
    ensures var arms := Complete(env, w, Arm(url, now, tab, snapshot)).arms;
      tab in arms && arms[tab] == StoredEntry(env.normalize(url), now + env.ttl, tab, Kept(env, snapshot))
  {
    var call := Arm(url, now, tab, snapshot);
    var es := PlanOf(env, w, call).Effects();
    assert es[..|es|] == es;
    StepArms(env, w, ArmingRefinement.Step(call, |es|, true));
    CommittedArm(env, w, call, tab);
  }

  lemma WaitingIsArmed(env: Env, s: System, r: nat, url: string, snapshot: Option<FillSnapshot>, tab: nat, now: int,
                       drain: seq<Event>)
    requires Inv(s) && Waits(s, r, url, snapshot) && (snapshot.Some? ==> StoredForm(env, snapshot.value).Some?)
    requires var armed := Next(env, s, TabCreated(r, Some(tab), now));
      Run(env, armed, drain) && Drains(drain) && Reached(env, armed, drain).worker.queue == []
    ensures var arms := Reached(env, Next(env, s, TabCreated(r, Some(tab), now)), drain).world.arms;
      tab in arms && arms[tab] == StoredEntry(env.normalize(url), now + env.ttl, tab, Kept(env, snapshot))
  {
    var armed := Next(env, s, TabCreated(r, Some(tab), now));
    TabKeepsInv(env, s, r, Some(tab), now);
    LastCompletes(env, armed, s, ArmJob(r, Arm(url, now, tab, snapshot)), drain);
    ArmCompletes(env, CarriedOut(env, s.world, s.worker.queue), url, now, tab, snapshot);
  }

  /** A request for a page that can be opened, with a snapshot that can be stored, is armed: if its tab opens before
      any clear message or stop, then its arm is stored once the worker has got through its queue. */
  lemma RequestIsArmed(env: Env, before: seq<Event>, url: string, snapshot: Option<FillSnapshot>, between: seq<Event>,
                       tab: nat, now: int, drain: seq<Event>)
    requires Run(env, INITIAL, before) && (snapshot.Some? ==> StoredForm(env, snapshot.value).Some?)
    requires var s := Reached(env, INITIAL, before);
      && JobsAreWellFormed(s.worker.queue) && Run(env, Next(env, s, OpenAndFill(url, snapshot, true)), between)
      && forall i :: 0 <= i < |between| ==> LeavesAlone(between[i], s.begun)
    requires var s := Reached(env, INITIAL, before);
      var ready := Reached(env, Next(env, s, OpenAndFill(url, snapshot, true)), between);
      && JobsAreWellFormed(ready.worker.queue) && Enabled(env, ready, TabCreated(s.begun, Some(tab), now))
      && Run(env, Next(env, ready, TabCreated(s.begun, Some(tab), now)), drain) && Drains(drain)
      && Reached(env, Next(env, ready, TabCreated(s.begun, Some(tab), now)), drain).worker.queue == []
    ensures var s := Reached(env, INITIAL, before);
      var ready := Reached(env, Next(env, s, OpenAndFill(url, snapshot, true)), between);
      var arms := Reached(env, Next(env, ready, TabCreated(s.begun, Some(tab), now)), drain).world.arms;
      tab in arms && arms[tab] == StoredEntry(env.normalize(url), now + env.ttl, tab, Kept(env, snapshot))
  {
    var s := Reached(env, INITIAL, before);
    var begun := Next(env, s, OpenAndFill(url, snapshot, true));
    RunKeepsInv(env, INITIAL, before);
    NextKeepsInv(env, s, OpenAndFill(url, snapshot, true));
    RequestWaits(env, begun, s.begun, url, snapshot, between);
    RunKeepsInv(env, begun, between);
    WaitingIsArmed(env, Reached(env, begun, between), s.begun, url, snapshot, tab, now, drain);
  }
}
