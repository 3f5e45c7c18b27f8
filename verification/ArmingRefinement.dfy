/** The durable store agrees with the in-memory one on every run, crashes included. */
module ArmingRefinement {
  import opened Options
  import opened InMemoryArming
  import opened DurableArming

  // ---- the in-memory store, driven by the same calls ----

  /** A snapshot as it comes back from bytes; None when its base64 text does not decode. */
  function Canonical(env: Env, snapshot: FillSnapshot): Option<FillSnapshot> {
    if !snapshot.cv.CvFile? then Some(snapshot) else
    var bytes := env.decode(snapshot.cv.base64);
    if bytes.None? then None
    else Some(snapshot.(cv := snapshot.cv.(base64 := env.encode(bytes.value))))
  }

  ghost function InMemoryStep(env: Env, armed: Armed, call: Call): (Armed, Answer) {
    match call
    case Arm(url, now, tab, snapshot) =>
      if snapshot.Some? && Canonical(env, snapshot.value).None? then (armed, Rejected) else
      var kept := if snapshot.None? then None else Canonical(env, snapshot.value);
      (armed[TabKey(tab) := NewEntry(env.normalize, env.ttl, url, now, Some(tab), kept)], Done)
    case Consume(url, now, tab) =>
      (WithoutMatch(armed, env.normalize, url, Some(tab)), Found(Lookup(armed, env.normalize, url, now, Some(tab))))
    case Peek(url, now, tab) =>
      var found := Lookup(armed, env.normalize, url, now, Some(tab));
      (if found.Some? then armed else WithoutMatch(armed, env.normalize, url, Some(tab)), Found(found))
    case Sweep(now) => (Unexpired(armed, now), Done)
    case ClearTab(tab) => (OutsideTab(armed, tab), Done)
    case ClearAll(now) => (map[], Done)
  }

  // ---- runs of the durable store ----

  /** One call that performs the first `cut` of its writes. It `returned` if it got to the end;
      otherwise a write was rejected, or the worker died and another took its place. */
  datatype Step = Step(call: Call, cut: nat, returned: bool)

  ghost predicate Possible(env: Env, w: World, s: Step) {
    var es := PlanOf(env, w, s.call).Effects();
    s.cut <= |es| && (s.returned ==> s.cut == |es|)
  }

  ghost function After(env: Env, w: World, s: Step): World
    requires Possible(env, w, s)
  {
    ApplyAll(w, PlanOf(env, w, s.call).Effects()[..s.cut])
  }

  /** The call took effect: it returned, or its write of the arms went through. */
  ghost predicate Took(env: Env, w: World, s: Step) {
    var plan := PlanOf(env, w, s.call);
    s.returned || (plan.commit.Some? && |plan.before| < s.cut)
  }

  /** Calls read the clock when they are made, except the clear of everything, whose reading is irrelevant. */
  function ClockAfter(clock: int, call: Call): int {
    match call
    case Arm(_, now, _, _) => now
    case Consume(_, now, _) => now
    case Peek(_, now, _) => now
    case Sweep(now) => now
    case ClearTab(_) => clock
    case ClearAll(_) => clock
  }

  ghost predicate PossibleRun(env: Env, w: World, clock: int, steps: seq<Step>)
    decreases |steps|
  {
    steps == [] ||
    (Possible(env, w, steps[0]) && clock <= ClockAfter(clock, steps[0].call) &&
     PossibleRun(env, After(env, w, steps[0]), ClockAfter(clock, steps[0].call), steps[1..]))
  }

  ghost function Final(env: Env, w: World, clock: int, steps: seq<Step>): World
    requires PossibleRun(env, w, clock, steps)
    decreases |steps|
  {
    if steps == [] then w
    else Final(env, After(env, w, steps[0]), ClockAfter(clock, steps[0].call), steps[1..])
  }

  function FinalClock(clock: int, steps: seq<Step>): int
    decreases |steps|
  {
    if steps == [] then clock else FinalClock(ClockAfter(clock, steps[0].call), steps[1..])
  }

  /** The answers that reach the callers; None for a call that did not return. */
  ghost function Answers(env: Env, w: World, clock: int, steps: seq<Step>): seq<Option<Answer>>
    requires PossibleRun(env, w, clock, steps)
    decreases |steps|
  {
    if steps == [] then [] else
    [if steps[0].returned then Some(PlanOf(env, w, steps[0].call).answer) else None] +
    Answers(env, After(env, w, steps[0]), ClockAfter(clock, steps[0].call), steps[1..])
  }

  /** A call as an observer sees it. */
  datatype Event = Event(call: Call, took: bool, returned: bool)

  ghost function Events(env: Env, w: World, clock: int, steps: seq<Step>): seq<Event>
    requires PossibleRun(env, w, clock, steps)
    decreases |steps|
  {
    if steps == [] then [] else
    [Event(steps[0].call, Took(env, w, steps[0]), steps[0].returned)] +
    Events(env, After(env, w, steps[0]), ClockAfter(clock, steps[0].call), steps[1..])
  }

  /** The in-memory store performs the calls that took effect and ignores the others. */
  ghost function InMemoryAnswers(env: Env, armed: Armed, events: seq<Event>): seq<Option<Answer>>
    decreases |events|
  {
    if events == [] then [] else
    var next := InMemoryStep(env, armed, events[0].call);
    [if events[0].returned then Some(next.1) else None] +
    InMemoryAnswers(env, if events[0].took then next.0 else armed, events[1..])
  }

  ghost function InMemoryFinal(env: Env, armed: Armed, events: seq<Event>): Armed
    decreases |events|
  {
    if events == [] then armed else
    InMemoryFinal(env, if events[0].took then InMemoryStep(env, armed, events[0].call).0 else armed, events[1..])
  }

  // ---- the relation ----

  /** The CV bytes of an entry are stored, and will not be swept before the entry expires. */
  ghost predicate Backed(w: World, entry: StoredEntry) {
    forall id :: id in EntryPayloadIds(entry) ==> id in w.payloads && entry.expiresAt <= w.payloads[id].expiresAt
  }

  ghost function LiveArm(env: Env, w: World, tab: nat, clock: int): Option<ArmedEntry> {
    if tab in w.arms && clock < w.arms[tab].expiresAt then Some(Materialize(env, w.payloads, w.arms[tab])) else None
  }

  ghost function LiveInMemory(armed: Armed, tab: nat, clock: int): Option<ArmedEntry> {
    if TabKey(tab) in armed && clock < armed[TabKey(tab)].expiresAt then Some(armed[TabKey(tab)]) else None
  }

  ghost predicate WellFormed(env: Env, w: World) {
    && (forall tab :: tab in w.arms ==> w.arms[tab].tabId == tab)
    && (forall id :: id in w.payloads ==> env.hash(w.payloads[id].bytes) == id)
    && (forall tab :: tab in w.arms ==> w.arms[tab].snapshot.Some? && w.arms[tab].snapshot.value.cv.FileReference? ==>
          w.arms[tab].snapshot.value.cv.payloadId != "")
  }

  /** Every persisted unexpired arm still has its payload. */
  ghost predicate Safe(w: World, clock: int) {
    forall tab :: tab in w.arms && clock < w.arms[tab].expiresAt ==> Backed(w, w.arms[tab])
  }

  ghost predicate Agrees(env: Env, w: World, armed: Armed, clock: int) {
    && WellFormed(env, w) && Safe(w, clock)
    && (forall tab: nat :: TabKey(tab) in armed ==> armed[TabKey(tab)].tabId == Some(tab))
    && (forall tab: nat :: LiveArm(env, w, tab, clock) == LiveInMemory(armed, tab, clock))
  }

  lemma LaterAgrees(env: Env, w: World, armed: Armed, clock: int, later: int)
    requires Agrees(env, w, armed, clock) && clock <= later
    ensures Agrees(env, w, armed, later)
  {
    forall tab: nat ensures LiveArm(env, w, tab, later) == LiveInMemory(armed, tab, later) {
      assert LiveArm(env, w, tab, clock) == LiveInMemory(armed, tab, clock);
    }
  }

  /** Writes other than the one to the arms: none of them removes a payload that is in use. */
  ghost predicate Harmless(env: Env, arms: Arms, clock: int, e: Effect) {
    match e
    case Put(id, bytes, _) => id == env.hash(bytes)
    case DeletePayload(id) => id !in PayloadIds(arms)
    case SweepPayloads(now, keep) => PayloadIds(arms) <= keep && (now <= clock || arms == map[])
    case ScheduleAlarm(_) => true
    case ClearAlarm => true
    case SetArms(_) => false
    case RemoveArms => false
  }

  lemma PayloadSurvives(env: Env, w: World, clock: int, e: Effect, id: string)
    requires Sound(env) && Harmless(env, w.arms, clock, e)
    requires id in PayloadIds(w.arms) && id in w.payloads && clock < w.payloads[id].expiresAt
    ensures var w' := Apply(w, e);
      && id in w'.payloads
      && w'.payloads[id].bytes == w.payloads[id].bytes
      && w.payloads[id].expiresAt <= w'.payloads[id].expiresAt
  {
  }

  lemma SameLiveArm(env: Env, w: World, w': World, clock: int, tab: nat)
    requires Safe(w, clock) && w'.arms == w.arms
    requires forall id :: id in PayloadIds(w.arms) && id in w.payloads && clock < w.payloads[id].expiresAt ==>
      id in w'.payloads && w'.payloads[id].bytes == w.payloads[id].bytes &&
      w.payloads[id].expiresAt <= w'.payloads[id].expiresAt
    requires tab in w.arms && clock < w.arms[tab].expiresAt
    requires w.arms[tab].snapshot.Some? && w.arms[tab].snapshot.value.cv.FileReference? ==>
      w.arms[tab].snapshot.value.cv.payloadId != ""
    ensures Backed(w', w.arms[tab])
    ensures Materialize(env, w'.payloads, w.arms[tab]) == Materialize(env, w.payloads, w.arms[tab])
  {
    var entry := w.arms[tab];
    assert Backed(w, entry);
    forall id | id in EntryPayloadIds(entry)
      ensures id in w.payloads && clock < w.payloads[id].expiresAt && id in PayloadIds(w.arms)
    {
    }
    if entry.snapshot.Some? && entry.snapshot.value.cv.FileReference? {
      assert entry.snapshot.value.cv.payloadId in EntryPayloadIds(entry);
    }
  }

  lemma HarmlessWrite(env: Env, w: World, armed: Armed, clock: int, e: Effect)
    requires Sound(env) && Agrees(env, w, armed, clock) && Harmless(env, w.arms, clock, e)
    ensures Agrees(env, Apply(w, e), armed, clock) && Apply(w, e).arms == w.arms
  {
    var w' := Apply(w, e);
    forall id | id in PayloadIds(w.arms) && id in w.payloads && clock < w.payloads[id].expiresAt
      ensures id in w'.payloads && w'.payloads[id].bytes == w.payloads[id].bytes
      ensures w.payloads[id].expiresAt <= w'.payloads[id].expiresAt
    {
      PayloadSurvives(env, w, clock, e, id);
    }
    forall tab | tab in w.arms && clock < w.arms[tab].expiresAt
      ensures Backed(w', w'.arms[tab])
      ensures Materialize(env, w'.payloads, w.arms[tab]) == Materialize(env, w.payloads, w.arms[tab])
    {
      SameLiveArm(env, w, w', clock, tab);
    }
    forall tab: nat ensures LiveArm(env, w', tab, clock) == LiveInMemory(armed, tab, clock) {
      assert LiveArm(env, w, tab, clock) == LiveInMemory(armed, tab, clock);
    }
  }

  lemma {:induction false} HarmlessWrites(env: Env, w: World, armed: Armed, clock: int, es: seq<Effect>)
    requires Sound(env) && Agrees(env, w, armed, clock)
    requires forall e :: e in es ==> Harmless(env, w.arms, clock, e)
    ensures Agrees(env, ApplyAll(w, es), armed, clock) && ApplyAll(w, es).arms == w.arms
    decreases |es|
  {
    if es != [] {
      HarmlessWrite(env, w, armed, clock, es[0]);
      HarmlessWrites(env, Apply(w, es[0]), armed, clock, es[1..]);
    }
  }

  lemma CleanupIsHarmless(env: Env, arms: Arms, candidates: seq<string>, now: int, clock: int, e: Effect)
    requires now <= clock && e in Cleanup(arms, candidates, now) + [AlarmEffect(arms)]
    ensures Harmless(env, arms, clock, e)
  {
    DeletesOnly(Distinct(candidates), PayloadIds(arms));
  }

  ghost predicate Commits(e: Effect) {
    e.SetArms? || e.RemoveArms?
  }

  /** What surrounds the write of the arms is harmless. */
  ghost predicate Shaped(env: Env, w: World, plan: Plan, clock: int) {
    && (plan.commit.Some? ==> Commits(plan.commit.value))
    && (plan.commit.None? ==> plan.before == [])
    && (forall e :: e in plan.before ==> Harmless(env, w.arms, clock, e))
    && (forall e :: e in plan.Rest() ==>
          Harmless(env, if plan.commit.Some? then Apply(w, plan.commit.value).arms else w.arms, clock, e))
  }

  lemma CleanupShape(env: Env, w: World, plan: Plan, candidates: seq<string>, now: int, clock: int)
    requires plan.commit.Some? && plan.commit.value.SetArms? && now <= clock
    requires forall e :: e in plan.before ==> Harmless(env, w.arms, clock, e)
    requires plan.tail == Tidying(plan.commit.value.arms, candidates, now)
    ensures Shaped(env, w, plan, clock)
  {
    forall e | e in plan.Rest() ensures Harmless(env, plan.commit.value.arms, clock, e) {
      CleanupIsHarmless(env, plan.commit.value.arms, candidates, now, clock, e);
    }
  }

  lemma ArmShape(env: Env, w: World, call: Call, clock: int)
    requires call.Arm? && call.now <= clock
    ensures Shaped(env, w, PlanOf(env, w, call), clock)
  {
    var plan := PlanOf(env, w, call);
    if plan.commit.Some? {
      CleanupShape(env, w, plan, plan.tail.candidates, call.now, clock);
    }
  }

  lemma RemovalShape(env: Env, w: World, tab: nat, now: int, answer: Answer, clock: int)
    requires tab in w.arms && now <= clock
    ensures Shaped(env, w, PlanRemoval(w, tab, now, answer), clock)
  {
    CleanupShape(env, w, PlanRemoval(w, tab, now, answer), EntryPayloadIds(w.arms[tab]), now, clock);
  }

  lemma DeletesAreHarmless(env: Env, arms: Arms, ids: seq<string>, clock: int, e: Effect)
    requires e in Deletes(ids, PayloadIds(arms)) + [AlarmEffect(arms)]
    ensures Harmless(env, arms, clock, e)
  {
    DeletesOnly(ids, PayloadIds(arms));
  }

  lemma ClearTabShape(env: Env, w: World, tab: nat, clock: int)
    ensures Shaped(env, w, PlanClearTab(w, tab), clock)
  {
    var arms, plan := w.arms - {tab}, PlanClearTab(w, tab);
    var ids := Distinct(if tab in w.arms then EntryPayloadIds(w.arms[tab]) else []);
    assert plan.Rest() == Deletes(ids, PayloadIds(arms)) + [AlarmEffect(arms)];
    forall e | e in plan.Rest() ensures Harmless(env, arms, clock, e) {
      DeletesAreHarmless(env, arms, ids, clock, e);
    }
  }

  lemma ClearingIsHarmless(env: Env, ids: seq<string>, now: int, clock: int, e: Effect)
    requires e in [SweepPayloads(now, {})] + Deletes(ids, {}) + [AlarmEffect(map[])]
    ensures Harmless(env, map[], clock, e)
  {
    DeletesOnly(ids, {});
  }

  lemma ClearAllShape(env: Env, w: World, now: int, clock: int)
    ensures Shaped(env, w, PlanClearAll(w, now), clock)
  {
    var plan, ids := PlanClearAll(w, now), Distinct(IdsOf(w.arms, Ascending(w.arms.Keys)));
    assert plan.Rest() == [SweepPayloads(now, {})] + Deletes(ids, {}) + [AlarmEffect(map[])];
    forall e | e in plan.Rest() ensures Harmless(env, map[], clock, e) {
      ClearingIsHarmless(env, ids, now, clock, e);
    }
  }

  lemma PlanShape(env: Env, w: World, call: Call, clock: int)
    requires clock == ClockAfter(clock, call)
    ensures Shaped(env, w, PlanOf(env, w, call), clock)
  {
    match call
    case Arm(_, _, _, _) => ArmShape(env, w, call, clock);
    case Consume(_, now, tab) =>
      if tab in w.arms { RemovalShape(env, w, tab, now, PlanOf(env, w, call).answer, clock); }
    case Peek(_, now, tab) =>
      if tab in w.arms { RemovalShape(env, w, tab, now, PlanOf(env, w, call).answer, clock); }
    case Sweep(now) => CleanupShape(env, w, PlanSweep(w, now), Released(w.arms, now), now, clock);
    case ClearTab(tab) => ClearTabShape(env, w, tab, clock);
    case ClearAll(now) => ClearAllShape(env, w, now, clock);
  }

  // ---- the one write that matters ----

  /** A persisted arm set that keeps some of the entries agrees with what the in-memory store kept of them. */
  lemma KeepingAgrees(env: Env, w: World, armed: Armed, clock: int, e: Effect, armed': Armed)
    requires Agrees(env, w, armed, clock)
    requires e.SetArms? || e.RemoveArms?
    requires forall tab :: tab in Apply(w, e).arms ==> tab in w.arms && Apply(w, e).arms[tab] == w.arms[tab]
    requires forall tab: nat :: TabKey(tab) in armed' ==> TabKey(tab) in armed && armed'[TabKey(tab)] == armed[TabKey(tab)]
    requires forall tab: nat :: LiveArm(env, w, tab, clock).Some? ==> (tab in Apply(w, e).arms <==> TabKey(tab) in armed')
    ensures Agrees(env, Apply(w, e), armed', clock)
  {
    var w' := Apply(w, e);
    forall tab: nat ensures LiveArm(env, w', tab, clock) == LiveInMemory(armed', tab, clock) {
      assert LiveArm(env, w, tab, clock) == LiveInMemory(armed, tab, clock);
    }
    forall tab | tab in w'.arms && clock < w'.arms[tab].expiresAt ensures Backed(w', w'.arms[tab]) {
      assert Backed(w, w.arms[tab]);
    }
  }

  lemma RemovalAgrees(env: Env, w: World, armed: Armed, call: Call)
    requires call.Consume? || call.Peek?
    requires Agrees(env, w, armed, call.now)
    requires call.tab in w.arms && w.arms[call.tab].url == env.normalize(call.url)
    requires call.Peek? ==> call.now >= w.arms[call.tab].expiresAt
    ensures Agrees(env, Apply(w, SetArms(w.arms - {call.tab})), InMemoryStep(env, armed, call).0, call.now)
  {
    var armed' := InMemoryStep(env, armed, call).0;
    assert LiveArm(env, w, call.tab, call.now) == LiveInMemory(armed, call.tab, call.now);
    KeepingAgrees(env, w, armed, call.now, SetArms(w.arms - {call.tab}), armed');
  }

  /** After the put, the bytes are stored under their hash, at least until the arm expires. */
  lemma PutIsStored(env: Env, w: World, bytes: Bytes, expiresAt: int)
    requires Sound(env) && WellFormed(env, w)
    ensures var w1 := Apply(w, Put(env.hash(bytes), bytes, expiresAt));
      && env.hash(bytes) in w1.payloads
      && w1.payloads[env.hash(bytes)].bytes == bytes
      && expiresAt <= w1.payloads[env.hash(bytes)].expiresAt
  {
  }

  /** The entry that an arm writes. */
  function EntryOf(env: Env, call: Call, stored: Option<StoredSnapshot>): StoredEntry
    requires call.Arm?
  {
    StoredEntry(env.normalize(call.url), call.now + env.ttl, call.tab, stored)
  }

  lemma OneEffect(w: World, e: Effect)
    ensures ApplyAll(w, [e]) == Apply(w, e)
  {
    assert [e][1..] == [];
  }

  /** With a file: its bytes are stored by the put that comes first. */
  lemma FileArmIsBacked(env: Env, w: World, call: Call, bytes: Bytes)
    requires Sound(env) && WellFormed(env, w) && call.Arm? && call.snapshot.Some? && call.snapshot.value.cv.CvFile?
    requires env.decode(call.snapshot.value.cv.base64) == Some(bytes)
    ensures var cv := call.snapshot.value.cv;
      var entry := EntryOf(env, call, StoredForm(env, call.snapshot.value));
      var w1 := Apply(w, Put(env.hash(bytes), bytes, call.now + env.ttl));
      && Backed(w1, entry)
      && Materialize(env, w1.payloads, entry) == ArmedEntry(entry.url, entry.expiresAt, Some(call.tab),
           Some(FillSnapshot(call.snapshot.value.profile, CvFile(cv.name, cv.kind, env.encode(bytes)))))
  {
    PutIsStored(env, w, bytes, call.now + env.ttl);
  }

  /** The new entry, once the writes before it have been made. */
  lemma EntryIsBacked(env: Env, w: World, call: Call)
    requires Sound(env) && WellFormed(env, w) && call.Arm?
    requires call.snapshot.Some? ==> StoredForm(env, call.snapshot.value).Some?
    ensures var w1 := ApplyAll(w, Puts(env, call.snapshot, call.now + env.ttl));
      var entry := EntryOf(env, call, if call.snapshot.None? then None else StoredForm(env, call.snapshot.value));
      && Backed(w1, entry)
      && Materialize(env, w1.payloads, entry) == InMemoryStep(env, map[], call).0[TabKey(call.tab)]
      && (entry.snapshot.Some? && entry.snapshot.value.cv.FileReference? ==> entry.snapshot.value.cv.payloadId != "")
  {
    if call.snapshot.Some? && call.snapshot.value.cv.CvFile? {
      var bytes := env.decode(call.snapshot.value.cv.base64).value;
      FileArmIsBacked(env, w, call, bytes);
      OneEffect(w, Put(env.hash(bytes), bytes, call.now + env.ttl));
    }
  }

  lemma NewArmIsBacked(env: Env, w: World, call: Call)
    requires Sound(env) && WellFormed(env, w) && call.Arm? && PlanOf(env, w, call).commit.Some?
    ensures var plan := PlanOf(env, w, call);
      var w1 := ApplyAll(w, plan.before);
      var entry := plan.commit.value.arms[call.tab];
      && Backed(w1, entry)
      && Materialize(env, w1.payloads, entry) == InMemoryStep(env, map[], call).0[TabKey(call.tab)]
      && (entry.snapshot.Some? && entry.snapshot.value.cv.FileReference? ==> entry.snapshot.value.cv.payloadId != "")
  {
    EntryIsBacked(env, w, call);
  }

  lemma ArmAgrees(env: Env, w: World, armed: Armed, call: Call)
    requires Sound(env) && call.Arm? && Agrees(env, w, armed, call.now)
    requires PlanOf(env, w, call).commit.Some?
    ensures var plan := PlanOf(env, w, call);
      Agrees(env, Apply(ApplyAll(w, plan.before), plan.commit.value), InMemoryStep(env, armed, call).0, call.now)
  {
    var plan := PlanOf(env, w, call);
    PlanShape(env, w, call, call.now);
    HarmlessWrites(env, w, armed, call.now, plan.before);
    NewArmIsBacked(env, w, call);
    var w1 := ApplyAll(w, plan.before);
    assert w1.arms == w.arms;
    AddingAgrees(env, w1, armed, call.now, call.tab, plan.commit.value.arms, InMemoryStep(env, armed, call).0);
  }

  lemma AddingAgrees(env: Env, w: World, armed: Armed, clock: int, tab: nat, arms: Arms, armed': Armed)
    requires Agrees(env, w, armed, clock)
    requires tab in arms && TabKey(tab) in armed'
    requires arms == RemoveExpired(w.arms, clock)[tab := arms[tab]]
    requires armed' == armed[TabKey(tab) := armed'[TabKey(tab)]]
    requires arms[tab].tabId == tab && Backed(w, arms[tab])
    requires arms[tab].snapshot.Some? && arms[tab].snapshot.value.cv.FileReference? ==>
      arms[tab].snapshot.value.cv.payloadId != ""
    requires Materialize(env, w.payloads, arms[tab]) == armed'[TabKey(tab)]
    ensures Agrees(env, w.(arms := arms), armed', clock)
  {
    var w' := w.(arms := arms);
    forall other | other in arms && clock < arms[other].expiresAt ensures Backed(w', arms[other]) {
      assert other != tab ==> Backed(w, w.arms[other]);
      assert other == tab ==> Backed(w, arms[other]);
    }
    forall other: nat ensures LiveArm(env, w', other, clock) == LiveInMemory(armed', other, clock) {
      assert LiveArm(env, w, other, clock) == LiveInMemory(armed, other, clock);
    }
  }

  lemma CommitAgrees(env: Env, w: World, armed: Armed, clock: int, call: Call)
    requires Sound(env) && Agrees(env, w, armed, clock) && clock == ClockAfter(clock, call)
    requires PlanOf(env, w, call).commit.Some?
    ensures var plan := PlanOf(env, w, call);
      Agrees(env, Apply(ApplyAll(w, plan.before), plan.commit.value), InMemoryStep(env, armed, call).0, clock)
  {
    var plan := PlanOf(env, w, call);
    match call
    case Arm(_, _, _, _) => ArmAgrees(env, w, armed, call);
    case Consume(_, _, _) => RemovalAgrees(env, w, armed, call);
    case Peek(_, _, _) => RemovalAgrees(env, w, armed, call);
    case Sweep(now) => KeepingAgrees(env, w, armed, clock, plan.commit.value, InMemoryStep(env, armed, call).0);
    case ClearTab(tab) => KeepingAgrees(env, w, armed, clock, plan.commit.value, InMemoryStep(env, armed, call).0);
    case ClearAll(_) => KeepingAgrees(env, w, armed, clock, plan.commit.value, InMemoryStep(env, armed, call).0);
  }

  /** The answer is computed before anything is written. */
  lemma AnswerAgrees(env: Env, w: World, armed: Armed, clock: int, call: Call)
    requires Agrees(env, w, armed, clock) && clock == ClockAfter(clock, call)
    ensures PlanOf(env, w, call).answer == InMemoryStep(env, armed, call).1
  {
    if call.Consume? || call.Peek? {
      assert LiveArm(env, w, call.tab, clock) == LiveInMemory(armed, call.tab, clock);
    }
  }

  /** A call that writes no arms leaves the live arms of the in-memory store alone as well. */
  lemma QuietAgrees(env: Env, w: World, armed: Armed, clock: int, call: Call)
    requires Agrees(env, w, armed, clock) && clock == ClockAfter(clock, call)
    requires PlanOf(env, w, call).commit.None?
    ensures Agrees(env, w, InMemoryStep(env, armed, call).0, clock)
  {
    var armed' := InMemoryStep(env, armed, call).0;
    forall tab: nat ensures LiveArm(env, w, tab, clock) == LiveInMemory(armed', tab, clock) {
      assert LiveArm(env, w, tab, clock) == LiveInMemory(armed, tab, clock);
    }
  }

  lemma StepAgrees(env: Env, w: World, armed: Armed, clock: int, s: Step)
    requires Sound(env) && Possible(env, w, s) && clock <= ClockAfter(clock, s.call)
    requires Agrees(env, w, armed, clock)
    ensures Agrees(env, After(env, w, s), if Took(env, w, s) then InMemoryStep(env, armed, s.call).0 else armed,
                   ClockAfter(clock, s.call))
    ensures PlanOf(env, w, s.call).answer == InMemoryStep(env, armed, s.call).1
  {
    var now := ClockAfter(clock, s.call);
    LaterAgrees(env, w, armed, clock, now);
    AnswerAgrees(env, w, armed, now, s.call);
    var plan, armed' := PlanOf(env, w, s.call), InMemoryStep(env, armed, s.call).0;
    PlanShape(env, w, s.call, now);
    if plan.commit.None? {
      if s.returned {
        QuietAgrees(env, w, armed, now, s.call);
      }
      QuietCutAgrees(env, w, plan, s.cut, if s.returned then armed' else armed, now);
    } else if s.cut <= |plan.before| {
      EarlyCutAgrees(env, w, plan, s.cut, armed, now);
    } else {
      CommitAgrees(env, w, armed, now, s.call);
      CommitSetsArms(w, ApplyAll(w, plan.before), plan.commit.value);
      CutAgrees(env, w, plan, s.cut, Apply(ApplyAll(w, plan.before), plan.commit.value), armed', now);
    }
  }

  lemma QuietCutAgrees(env: Env, w: World, plan: Plan, cut: nat, armed: Armed, clock: int)
    requires Sound(env) && Agrees(env, w, armed, clock) && Shaped(env, w, plan, clock)
    requires plan.commit.None? && cut <= |plan.Effects()|
    ensures Agrees(env, ApplyAll(w, plan.Effects()[..cut]), armed, clock)
  {
    assert plan.Effects() == plan.Rest();
    HarmlessPrefix(env, w, armed, clock, plan.Rest(), cut);
  }

  lemma EarlyCutAgrees(env: Env, w: World, plan: Plan, cut: nat, armed: Armed, clock: int)
    requires Sound(env) && Agrees(env, w, armed, clock) && Shaped(env, w, plan, clock)
    requires cut <= |plan.before|
    ensures Agrees(env, ApplyAll(w, plan.Effects()[..cut]), armed, clock)
  {
    assert plan.Effects()[..cut] == plan.before[..cut];
    HarmlessPrefix(env, w, armed, clock, plan.before, cut);
  }

  lemma HarmlessPrefix(env: Env, w: World, armed: Armed, clock: int, es: seq<Effect>, n: nat)
    requires Sound(env) && Agrees(env, w, armed, clock) && n <= |es|
    requires forall e :: e in es ==> Harmless(env, w.arms, clock, e)
    ensures Agrees(env, ApplyAll(w, es[..n]), armed, clock)
  {
    HarmlessWrites(env, w, armed, clock, es[..n]);
  }

  /** Where a call stopped, when it stopped after writing the arms. */
  lemma CutWorld(w: World, plan: Plan, cut: nat)
    requires plan.commit.Some? && |plan.before| < cut <= |plan.Effects()|
    ensures ApplyAll(w, plan.Effects()[..cut]) ==
      ApplyAll(Apply(ApplyAll(w, plan.before), plan.commit.value), plan.Rest()[..cut - |plan.before| - 1])
  {
    var tail := plan.Rest()[..cut - |plan.before| - 1];
    assert plan.Effects()[..cut] == plan.before + ([plan.commit.value] + tail);
    ApplyAllSplit(w, plan.before, [plan.commit.value] + tail);
    assert ([plan.commit.value] + tail)[1..] == tail;
  }

  lemma CommitSetsArms(w: World, w1: World, e: Effect)
    requires Commits(e)
    ensures Apply(w, e).arms == Apply(w1, e).arms
  {
  }

  lemma CutAgrees(env: Env, w: World, plan: Plan, cut: nat, w2: World, armed: Armed, clock: int)
    requires plan.commit.Some? && |plan.before| < cut <= |plan.Effects()|
    requires w2 == Apply(ApplyAll(w, plan.before), plan.commit.value)
    requires Sound(env) && Agrees(env, w2, armed, clock) && Shaped(env, w, plan, clock)
    requires Apply(w, plan.commit.value).arms == w2.arms
    ensures Agrees(env, ApplyAll(w, plan.Effects()[..cut]), armed, clock)
  {
    var rest := plan.Rest();
    HarmlessPrefix(env, w2, armed, clock, rest, cut - |plan.before| - 1);
    CutWorld(w, plan, cut);
  }

  // ---- main results ----

  /** Every run of the durable store, cut short anywhere any number of times, gives its callers the
      answers of the in-memory store that performs exactly the calls that took effect. At the end,
      and so after every write, each persisted unexpired arm has its payload. */
  lemma {:induction false} RunRefinesInMemoryStore(env: Env, w: World, armed: Armed, clock: int, steps: seq<Step>)
    requires Sound(env) && PossibleRun(env, w, clock, steps) && Agrees(env, w, armed, clock)
    ensures Answers(env, w, clock, steps) == InMemoryAnswers(env, armed, Events(env, w, clock, steps))
    ensures Agrees(env, Final(env, w, clock, steps), InMemoryFinal(env, armed, Events(env, w, clock, steps)),
                   FinalClock(clock, steps))
    ensures Safe(Final(env, w, clock, steps), FinalClock(clock, steps))
    decreases |steps|
  {
    if steps != [] {
      var s := steps[0];
      StepAgrees(env, w, armed, clock, s);
      var armed' := if Took(env, w, s) then InMemoryStep(env, armed, s.call).0 else armed;
      var events := Events(env, w, clock, steps);
      assert events[1..] == Events(env, After(env, w, s), ClockAfter(clock, s.call), steps[1..]);
      RunRefinesInMemoryStore(env, After(env, w, s), armed', ClockAfter(clock, s.call), steps[1..]);
    }
  }

  const EMPTY := World(map[], map[], None)

  function Uninterrupted(calls: seq<Call>): seq<Event> {
    seq(|calls|, i requires 0 <= i < |calls| => Event(calls[i], true, true))
  }

  lemma UninterruptedFrom(calls: seq<Call>)
    requires calls != []
    ensures Uninterrupted(calls) == [Event(calls[0], true, true)] + Uninterrupted(calls[1..])
  {
  }

  lemma FirstEvent(env: Env, w: World, clock: int, steps: seq<Step>)
    requires steps != [] && PossibleRun(env, w, clock, steps) && steps[0].returned
    ensures Events(env, w, clock, steps) ==
            [Event(steps[0].call, true, true)] +
            Events(env, After(env, w, steps[0]), ClockAfter(clock, steps[0].call), steps[1..])
  {
  }

  lemma {:induction false} EventsOfUninterrupted(env: Env, w: World, clock: int, steps: seq<Step>, calls: seq<Call>)
    requires PossibleRun(env, w, clock, steps) && |steps| == |calls|
    requires forall i :: 0 <= i < |steps| ==> steps[i].call == calls[i] && steps[i].returned
    ensures Events(env, w, clock, steps) == Uninterrupted(calls)
    decreases |steps|
  {
    if steps != [] {
      EventsOfUninterrupted(env, After(env, w, steps[0]), ClockAfter(clock, steps[0].call), steps[1..], calls[1..]);
      FirstEvent(env, w, clock, steps);
      UninterruptedFrom(calls);
    }
  }

  /** Without interruptions the answers are those of the in-memory store on re-encoded snapshots, payload bytes
      included. */
  lemma DurableStoreAnswersLikeInMemoryStore(env: Env, clock: int, steps: seq<Step>, calls: seq<Call>)
    requires Sound(env) && PossibleRun(env, EMPTY, clock, steps) && |steps| == |calls|
    requires forall i :: 0 <= i < |steps| ==> steps[i].call == calls[i] && steps[i].returned
    ensures Answers(env, EMPTY, clock, steps) == InMemoryAnswers(env, map[], Uninterrupted(calls))
  {
    assert Agrees(env, EMPTY, map[], clock);
    EventsOfUninterrupted(env, EMPTY, clock, steps, calls);
    RunRefinesInMemoryStore(env, EMPTY, map[], clock, steps);
  }
}
