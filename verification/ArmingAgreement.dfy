/** When the durable store cannot be told from `ArmingStore` itself, which keeps a snapshot as it is given. */
module ArmingAgreement {
  import opened Options
  import opened InMemoryArming
  import opened DurableArming
  import opened ArmingRefinement

  ghost function LiteralStep(env: Env, armed: Armed, call: Call): (Armed, Answer) {
    match call
    case Arm(url, now, tab, snapshot) =>
      (armed[TabKey(tab) := NewEntry(env.normalize, env.ttl, url, now, Some(tab), snapshot)], Done)
    case _ => InMemoryStep(env, armed, call)
  }

  /** The step is what the class does. */
  method Perform(env: Env, store: ArmingStore, call: Call) returns (answer: Answer)
    requires store.ttl == env.ttl && store.normalize == env.normalize
    modifies store`armed
    ensures (store.armed, answer) == LiteralStep(env, old(store.armed), call)
  {
    match call
    case Arm(url, now, tab, snapshot) =>
      store.Arm(url, now, Some(tab), snapshot);
      return Done;
    case Consume(url, now, tab) =>
      var entry := store.ConsumeEntry(url, now, Some(tab));
      return Found(entry);
    case Peek(url, now, tab) =>
      var entry := store.Peek(url, now, Some(tab));
      return Found(entry);
    case Sweep(now) =>
      store.Sweep(now);
      return Done;
    case ClearTab(tab) =>
      store.Clear(Some(tab));
      return Done;
    case ClearAll(_) =>
      store.Clear(None);
      return Done;
  }

  /** The snapshot comes back from bytes as it was. */
  predicate SurvivesBytes(env: Env, snapshot: FillSnapshot) {
    Canonical(env, snapshot) == Some(snapshot)
  }

  /** That is so if it has no CV text, or if the text is what the encoder makes of the bytes that it decodes to. */
  lemma SurvivesExactly(env: Env, snapshot: FillSnapshot)
    ensures SurvivesBytes(env, snapshot) <==>
      (snapshot.cv.CvFile? ==>
        exists bytes :: env.decode(snapshot.cv.base64) == Some(bytes) && env.encode(bytes) == snapshot.cv.base64)
  {
    if snapshot.cv.CvFile? && env.decode(snapshot.cv.base64).Some? {
      var bytes := env.decode(snapshot.cv.base64).value;
      assert Canonical(env, snapshot).value.cv.base64 == env.encode(bytes);
    }
  }

  predicate Survives(env: Env, call: Call) {
    call.Arm? && call.snapshot.Some? ==> SurvivesBytes(env, call.snapshot.value)
  }

  lemma StepsAgreeExactly(env: Env, armed: Armed, call: Call)
    ensures InMemoryStep(env, armed, call) == LiteralStep(env, armed, call) <==> Survives(env, call)
  {
    if call.Arm? {
      var key := TabKey(call.tab);
      var literal := LiteralStep(env, armed, call);
      assert literal.0[key].snapshot == call.snapshot;
      var step := InMemoryStep(env, armed, call);
      assert step.1 == Done ==> key in step.0;
    }
  }

  ghost function LiteralAnswers(env: Env, armed: Armed, events: seq<Event>): seq<Option<Answer>>
    decreases |events|
  {
    if events == [] then [] else
    var next := LiteralStep(env, armed, events[0].call);
    [if events[0].returned then Some(next.1) else None] +
    LiteralAnswers(env, if events[0].took then next.0 else armed, events[1..])
  }

  lemma {:induction false} AnswersAgree(env: Env, armed: Armed, events: seq<Event>)
    requires forall i :: 0 <= i < |events| ==> Survives(env, events[i].call)
    ensures InMemoryAnswers(env, armed, events) == LiteralAnswers(env, armed, events)
    decreases |events|
  {
    if events != [] {
      StepsAgreeExactly(env, armed, events[0].call);
      AnswersAgree(env, if events[0].took then LiteralStep(env, armed, events[0].call).0 else armed, events[1..]);
    }
  }

  lemma {:induction false} EventsAreCalls(env: Env, w: World, clock: int, steps: seq<Step>)
    requires PossibleRun(env, w, clock, steps)
    ensures |Events(env, w, clock, steps)| == |steps|
    ensures forall i :: 0 <= i < |steps| ==> Events(env, w, clock, steps)[i].call == steps[i].call
    decreases |steps|
  {
    if steps != [] {
      EventsAreCalls(env, After(env, w, steps[0]), ClockAfter(clock, steps[0].call), steps[1..]);
    }
  }

  /** On every run that arms only snapshots that survive bytes, interruptions included, the answers are those of
      `ArmingStore` performing the calls that took effect. */
  lemma RunRefinesArmingStore(env: Env, clock: int, steps: seq<Step>)
    requires Sound(env) && PossibleRun(env, EMPTY, clock, steps)
    requires forall i :: 0 <= i < |steps| ==> Survives(env, steps[i].call)
    ensures Answers(env, EMPTY, clock, steps) == LiteralAnswers(env, map[], Events(env, EMPTY, clock, steps))
  {
    assert Agrees(env, EMPTY, map[], clock);
    RunRefinesInMemoryStore(env, EMPTY, map[], clock, steps);
    EventsAreCalls(env, EMPTY, clock, steps);
    AnswersAgree(env, map[], Events(env, EMPTY, clock, steps));
  }

  // ---- uninterrupted runs, exactly ----

  /** The clock does not run backwards. */
  predicate Timed(clock: int, calls: seq<Call>)
    decreases |calls|
  {
    calls == [] || (clock <= ClockAfter(clock, calls[0]) && Timed(ClockAfter(clock, calls[0]), calls[1..]))
  }

  /** Every call runs to its end. */
  ghost function CompleteSteps(env: Env, w: World, calls: seq<Call>): seq<Step>
    decreases |calls|
  {
    if calls == [] then [] else
    var s := Step(calls[0], |PlanOf(env, w, calls[0]).Effects()|, true);
    [s] + CompleteSteps(env, After(env, w, s), calls[1..])
  }

  lemma {:induction false} CompleteStepsRun(env: Env, w: World, clock: int, calls: seq<Call>)
    requires Timed(clock, calls)
    ensures var steps := CompleteSteps(env, w, calls);
      && PossibleRun(env, w, clock, steps) && |steps| == |calls|
      && forall i :: 0 <= i < |steps| ==> steps[i].call == calls[i] && steps[i].returned
    decreases |calls|
  {
    if calls != [] {
      var s := Step(calls[0], |PlanOf(env, w, calls[0]).Effects()|, true);
      CompleteStepsRun(env, After(env, w, s), ClockAfter(clock, calls[0]), calls[1..]);
    }
  }

  /** The durable store and `ArmingStore`, both new, give the same answers to these calls. */
  ghost predicate Alike(env: Env, clock: int, calls: seq<Call>)
    requires Timed(clock, calls)
  {
    CompleteStepsRun(env, EMPTY, clock, calls);
    Answers(env, EMPTY, clock, CompleteSteps(env, EMPTY, calls)) == LiteralAnswers(env, map[], Uninterrupted(calls))
  }

  lemma AlikeIfAllSurvive(env: Env, clock: int, calls: seq<Call>)
    requires Sound(env) && Timed(clock, calls)
    requires forall i :: 0 <= i < |calls| ==> Survives(env, calls[i])
    ensures Alike(env, clock, calls)
  {
    CompleteStepsRun(env, EMPTY, clock, calls);
    DurableStoreAnswersLikeInMemoryStore(env, clock, CompleteSteps(env, EMPTY, calls), calls);
    AnswersAgree(env, map[], Uninterrupted(calls));
  }

  /** An arm and the consume that collects it. */
  function ArmAndConsume(url: string, now: int, tab: nat, snapshot: FillSnapshot): seq<Call> {
    [Arm(url, now, tab, Some(snapshot)), Consume(url, now, tab)]
  }

  function Collected(env: Env, url: string, now: int, tab: nat, snapshot: Option<FillSnapshot>): Option<Answer> {
    Some(Found(Some(ArmedEntry(env.normalize(url), now + env.ttl, Some(tab), snapshot))))
  }

  lemma ArmAndConsumeAnswers(env: Env, url: string, now: int, tab: nat, snapshot: FillSnapshot)
    requires env.ttl > 0
    ensures var events := Uninterrupted(ArmAndConsume(url, now, tab, snapshot));
      var literal, inMemory := LiteralAnswers(env, map[], events), InMemoryAnswers(env, map[], events);
      && |literal| == |inMemory| == 2
      && literal == [Some(Done), Collected(env, url, now, tab, Some(snapshot))]
      && (Canonical(env, snapshot).None? ==> inMemory[0] == Some(Rejected))
      && (Canonical(env, snapshot).Some? ==> inMemory[1] == Collected(env, url, now, tab, Canonical(env, snapshot)))
  {
    var events := Uninterrupted(ArmAndConsume(url, now, tab, snapshot));
    var arm, consume := events[0].call, events[1].call;
    var later := events[1..];
    assert later[1..] == [];
    var literal, inMemory := LiteralStep(env, map[], arm).0, InMemoryStep(env, map[], arm).0;
    assert LiteralAnswers(env, literal, later) == [Some(LiteralStep(env, literal, consume).1)];
    assert InMemoryAnswers(env, inMemory, later) == [Some(InMemoryStep(env, inMemory, consume).1)];
  }

  /** Arming a snapshot and collecting it tells the two stores apart exactly if it does not survive bytes:
      the arm is rejected, or other text comes back. */
  lemma ArmAndConsumeTells(env: Env, url: string, now: int, tab: nat, snapshot: FillSnapshot)
    requires Sound(env) && env.ttl > 0
    ensures Timed(now, ArmAndConsume(url, now, tab, snapshot))
    ensures Alike(env, now, ArmAndConsume(url, now, tab, snapshot)) <==> SurvivesBytes(env, snapshot)
  {
    var calls := ArmAndConsume(url, now, tab, snapshot);
    assert Timed(now, calls[1..][1..]);
    assert Timed(now, calls[1..]);
    CompleteStepsRun(env, EMPTY, now, calls);
    DurableStoreAnswersLikeInMemoryStore(env, now, CompleteSteps(env, EMPTY, calls), calls);
    ArmAndConsumeAnswers(env, url, now, tab, snapshot);
    if SurvivesBytes(env, snapshot) {
      AlikeIfAllSurvive(env, now, calls);
    }
  }

  /** The message check lets any text through. One without its padding decodes, and comes back with it
      (sections 3.2 and 4 of RFC 4648). */
  lemma UnpaddedTextIsTold(env: Env, url: string, now: int, tab: nat, profile: string)
    requires Sound(env) && env.ttl > 0
    requires env.decode("Y3Y") == Some([99, 118]) && env.encode([99, 118]) == "Y3Y="
    ensures Timed(now, ArmAndConsume(url, now, tab, FillSnapshot(profile, CvFile("cv.pdf", "application/pdf", "Y3Y"))))
    ensures !Alike(env, now, ArmAndConsume(url, now, tab, FillSnapshot(profile, CvFile("cv.pdf", "application/pdf", "Y3Y"))))
  {
    var snapshot := FillSnapshot(profile, CvFile("cv.pdf", "application/pdf", "Y3Y"));
    ArmAndConsumeTells(env, url, now, tab, snapshot);
    assert |"Y3Y"| != |"Y3Y="|;
    assert Canonical(env, snapshot).value.cv.base64 == "Y3Y=";
  }

  ghost predicate ArmsOnly(calls: seq<Call>, snapshots: iset<FillSnapshot>) {
    forall i :: 0 <= i < |calls| && calls[i].Arm? && calls[i].snapshot.Some? ==> calls[i].snapshot.value in snapshots
  }

  ghost predicate AlwaysAlike(env: Env, snapshots: iset<FillSnapshot>) {
    forall clock, calls :: Timed(clock, calls) && ArmsOnly(calls, snapshots) ==> Alike(env, clock, calls)
  }

  /** For any set of snapshots: every sequence of calls that arms only these gets the same answers from both
      stores exactly when each of them survives bytes. */
  lemma StoresAreAlikeExactly(env: Env, snapshots: iset<FillSnapshot>)
    requires Sound(env) && env.ttl > 0
    ensures AlwaysAlike(env, snapshots) <==> forall s :: s in snapshots ==> SurvivesBytes(env, s)
  {
    if forall s :: s in snapshots ==> SurvivesBytes(env, s) {
      forall clock, calls | Timed(clock, calls) && ArmsOnly(calls, snapshots) ensures Alike(env, clock, calls) {
        AlikeIfAllSurvive(env, clock, calls);
      }
    } else {
      var s :| s in snapshots && !SurvivesBytes(env, s);
      ArmAndConsumeTells(env, "", 0, 0, s);
      assert ArmsOnly(ArmAndConsume("", 0, 0, s), snapshots);
    }
  }
}
