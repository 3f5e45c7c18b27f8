/** One-shot delivery, garbage and the expiry alarm. */
module ArmingLifecycle {
  import opened Options
  import opened InMemoryArming
  import opened DurableArming
  import opened ArmingRefinement
  import opened Sets

  // ---- what a call, cut anywhere, leaves in the arms ----

  lemma {:induction false} OtherWritesKeepArms(w: World, es: seq<Effect>)
    requires forall e :: e in es ==> !Commits(e)
    ensures ApplyAll(w, es).arms == w.arms
    decreases |es|
  {
    if es != [] {
      assert !Commits(es[0]);
      OtherWritesKeepArms(Apply(w, es[0]), es[1..]);
    }
  }

  lemma CutArms(w: World, plan: Plan, cut: nat)
    requires cut <= |plan.Effects()|
    requires forall e :: e in plan.before + plan.Rest() ==> !Commits(e)
    requires plan.commit.Some? ==> Commits(plan.commit.value)
    ensures ApplyAll(w, plan.Effects()[..cut]).arms ==
      if plan.commit.Some? && |plan.before| < cut then Apply(w, plan.commit.value).arms else w.arms
  {
    if plan.commit.Some? && |plan.before| < cut {
      CutWorld(w, plan, cut);
      OtherWritesKeepArms(w, plan.before);
      OtherWritesKeepArms(Apply(ApplyAll(w, plan.before), plan.commit.value), plan.Rest()[..cut - |plan.before| - 1]);
    } else if plan.commit.Some? {
      assert plan.Effects()[..cut] == plan.before[..cut];
      OtherWritesKeepArms(w, plan.before[..cut]);
    } else {
      assert plan.Effects() == plan.before + plan.Rest();
      OtherWritesKeepArms(w, plan.Effects()[..cut]);
    }
  }

  lemma StepArms(env: Env, w: World, s: Step)
    requires Possible(env, w, s)
    ensures var commit := PlanOf(env, w, s.call).commit;
      After(env, w, s).arms == if Took(env, w, s) && commit.Some? then Apply(w, commit.value).arms else w.arms
  {
    PlanShape(env, w, s.call, ClockAfter(0, s.call));
    CutArms(w, PlanOf(env, w, s.call), s.cut);
  }

  // ---- one-shot ----

  ghost predicate Moves(env: Env, w: World, s: Step, next: World) {
    Possible(env, w, s) && next == After(env, w, s)
  }

  /** The worlds of a run: `worlds[i]` is the one that step `i` finds. */
  ghost predicate IsTrace(env: Env, worlds: seq<World>, steps: seq<Step>) {
    |worlds| == |steps| + 1 && forall i :: 0 <= i < |steps| ==> Moves(env, worlds[i], steps[i], worlds[i + 1])
  }

  /** What the caller of a step gets. */
  ghost function AnswerOf(env: Env, w: World, s: Step): Option<Answer> {
    if s.returned then Some(PlanOf(env, w, s.call).answer) else None
  }

  lemma OneLater<T>(first: T, rest: seq<T>, i: nat)
    requires 0 < i <= |rest|
    ensures ([first] + rest)[i] == rest[i - 1]
  {
  }

  lemma TraceFrom(env: Env, w: World, s: Step, worlds: seq<World>, steps: seq<Step>)
    requires IsTrace(env, worlds, steps) && Moves(env, w, s, worlds[0])
    ensures IsTrace(env, [w] + worlds, [s] + steps)
  {
    var allWorlds, allSteps := [w] + worlds, [s] + steps;
    forall i | 0 <= i < |allSteps| ensures Moves(env, allWorlds[i], allSteps[i], allWorlds[i + 1]) {
      OneLater(w, worlds, i + 1);
      if i > 0 {
        var k := i - 1;
        OneLater(w, worlds, i);
        OneLater(s, steps, i);
        assert Moves(env, worlds[k], steps[k], worlds[k + 1]);
      }
    }
  }

  /** Every run has its trace, with the answers that reach the callers. */
  lemma {:induction false} RunHasTrace(env: Env, w: World, clock: int, steps: seq<Step>) returns (worlds: seq<World>)
    requires PossibleRun(env, w, clock, steps)
    ensures IsTrace(env, worlds, steps) && worlds[0] == w && worlds[|steps|] == Final(env, w, clock, steps)
    ensures |Answers(env, w, clock, steps)| == |steps|
    ensures forall i :: 0 <= i < |steps| ==> Answers(env, w, clock, steps)[i] == AnswerOf(env, worlds[i], steps[i])
    decreases |steps|
  {
    if steps == [] {
      worlds := [w];
    } else {
      var later := RunHasTrace(env, After(env, w, steps[0]), ClockAfter(clock, steps[0].call), steps[1..]);
      worlds := [w] + later;
      TraceFrom(env, w, steps[0], later, steps[1..]);
      assert [steps[0]] + steps[1..] == steps;
    }
  }

  /** The step hands an arm of the tab to its caller. */
  ghost predicate HandsOver(env: Env, w: World, s: Step, tab: nat) {
    var answer := AnswerOf(env, w, s);
    s.call.Consume? && s.call.tab == tab && answer.Some? && answer.value.Found? && answer.value.entry.Some?
  }

  /** The step persists an arm of the tab. */
  ghost predicate PersistsArm(env: Env, w: World, s: Step, tab: nat) {
    s.call.Arm? && s.call.tab == tab && Took(env, w, s) && PlanOf(env, w, s.call).commit.Some?
  }

  /** A hand-over finds the arm and removes it. */
  lemma HandOverRemoves(env: Env, w: World, s: Step, next: World, tab: nat)
    requires Moves(env, w, s, next) && HandsOver(env, w, s, tab)
    ensures tab in w.arms && tab !in next.arms
  {
    StepArms(env, w, s);
  }

  lemma CommitAddsOnlyArmed(env: Env, w: World, call: Call, tab: nat)
    requires PlanOf(env, w, call).commit.Some?
    requires tab !in w.arms && tab in Apply(w, PlanOf(env, w, call).commit.value).arms
    ensures call.Arm? && call.tab == tab
  {
    match call
    case Arm(_, now, other, _) =>
      assert PlanOf(env, w, call).commit.value.arms.Keys == RemoveExpired(w.arms, now).Keys + {other};
    case Consume(_, _, _) =>
    case Peek(_, _, _) =>
    case Sweep(_) =>
    case ClearTab(_) =>
    case ClearAll(_) =>
  }

  /** Only a persisted arm puts an arm under a tab. */
  lemma NewArmIsPersisted(env: Env, w: World, s: Step, next: World, tab: nat)
    requires Moves(env, w, s, next) && tab !in w.arms && tab in next.arms
    ensures PersistsArm(env, w, s, tab)
  {
    StepArms(env, w, s);
    CommitAddsOnlyArmed(env, w, s.call, tab);
  }

  /** From a world without an arm of the tab, a hand-over needs a persisted arm in between. */
  lemma {:induction false} HandOverNeedsArm(env: Env, worlds: seq<World>, steps: seq<Step>, i: nat, j: nat, tab: nat)
    returns (k: nat)
    requires IsTrace(env, worlds, steps) && i <= j < |steps|
    requires tab !in worlds[i].arms && HandsOver(env, worlds[j], steps[j], tab)
    ensures i <= k < j && PersistsArm(env, worlds[k], steps[k], tab)
    decreases j - i
  {
    HandOverRemoves(env, worlds[j], steps[j], worlds[j + 1], tab);
    if tab in worlds[i + 1].arms {
      NewArmIsPersisted(env, worlds[i], steps[i], worlds[i + 1], tab);
      k := i;
    } else {
      k := HandOverNeedsArm(env, worlds, steps, i + 1, j, tab);
    }
  }

  /** With interruptions allowed at every write, two hand-overs of a tab's arm are always separated
      by another persisted arm of that tab. */
  lemma EachArmIsHandedOverOnce(env: Env, worlds: seq<World>, steps: seq<Step>, i: nat, j: nat, tab: nat)
    returns (k: nat)
    requires IsTrace(env, worlds, steps) && i < j < |steps|
    requires HandsOver(env, worlds[i], steps[i], tab) && HandsOver(env, worlds[j], steps[j], tab)
    ensures i < k < j && PersistsArm(env, worlds[k], steps[k], tab)
  {
    HandOverRemoves(env, worlds[i], steps[i], worlds[i + 1], tab);
    k := HandOverNeedsArm(env, worlds, steps, i + 1, j, tab);
  }

  // ---- garbage and the alarm ----

  /** No payload is unreferenced, and the alarm is set to the earliest expiry. */
  ghost predicate Tidy(w: World) {
    (forall id :: id in w.payloads ==> id in PayloadIds(w.arms)) && IsMinExpiry(w.arms, w.alarm)
  }

  ghost predicate NoneExpired(w: World, now: int) {
    forall id :: id in w.payloads ==> now < w.payloads[id].expiresAt
  }

  ghost function Complete(env: Env, w: World, call: Call): World {
    ApplyAll(w, PlanOf(env, w, call).Effects())
  }

  lemma DeletesExtend(ids: seq<string>, last: string, keep: set<string>)
    ensures Deletes(ids + [last], keep) == if last in keep then Deletes(ids, keep) else Deletes(ids, keep) + [DeletePayload(last)]
  {
    assert (ids + [last])[..|ids|] == ids;
    assert Deletes(ids, keep) + [] == Deletes(ids, keep);
  }

  lemma {:induction false} DeletesRemove(w: World, ids: seq<string>, keep: set<string>)
    ensures var w' := ApplyAll(w, Deletes(ids, keep));
      && w'.arms == w.arms && w'.alarm == w.alarm
      && forall id :: id in w'.payloads <==> id in w.payloads && (id in ids ==> id in keep)
  {
    if ids != [] {
      var front, last := ids[..|ids| - 1], ids[|ids| - 1];
      assert ids == front + [last];
      DeletesRemove(w, front, keep);
      DeletesExtend(front, last, keep);
      if last !in keep {
        ApplyAllSplit(w, Deletes(front, keep), [DeletePayload(last)]);
        OneEffect(ApplyAll(w, Deletes(front, keep)), DeletePayload(last));
      }
    }
  }

  /** The tail shared by arm, consume, expired peek and sweep tidies up whatever it finds. */
  lemma CleanupTidies(w: World, candidates: seq<string>, now: int)
    ensures var w' := ApplyAll(w, Cleanup(w.arms, candidates, now) + [AlarmEffect(w.arms)]);
      w'.arms == w.arms && Tidy(w') && NoneExpired(w', now)
  {
    var deletes := Deletes(Distinct(candidates), PayloadIds(w.arms));
    var sweep, alarm := SweepPayloads(now, PayloadIds(w.arms)), AlarmEffect(w.arms);
    assert Cleanup(w.arms, candidates, now) + [alarm] == deletes + [sweep, alarm];
    ApplyAllSplit(w, deletes, [sweep, alarm]);
    DeletesRemove(w, Distinct(candidates), PayloadIds(w.arms));
    var w1 := ApplyAll(w, deletes);
    LastTwo(w1, sweep, alarm);
    AlarmIsMinExpiry(Apply(w1, sweep), w.arms);
  }

  lemma LastTwo(w: World, e: Effect, f: Effect)
    ensures ApplyAll(w, [e, f]) == Apply(Apply(w, e), f)
  {
    assert [e, f] == [e] + [f];
    ApplyAllSplit(w, [e], [f]);
    OneEffect(w, e);
    OneEffect(Apply(w, e), f);
  }

  lemma CommitThenCleanup(w: World, plan: Plan, arms: Arms, candidates: seq<string>, now: int)
    requires plan.commit == Some(SetArms(arms))
    requires plan.tail == Tidying(arms, candidates, now)
    ensures var w' := ApplyAll(w, plan.Effects()); w'.arms == arms && Tidy(w') && NoneExpired(w', now)
  {
    var es := plan.Effects();
    assert es[..|es|] == es;
    CutWorld(w, plan, |es|);
    assert plan.Rest()[..|plan.Rest()|] == plan.Rest();
    CleanupTidies(Apply(ApplyAll(w, plan.before), plan.commit.value), candidates, now);
  }

  /** A completed sweep, such as the one a starting worker issues, tidies any world: whatever an
      interruption left behind, expired arms and unreferenced payloads are gone and the alarm is right. */
  lemma SweepTidiesAnything(env: Env, w: World, now: int)
    ensures var w' := Complete(env, w, Sweep(now));
      && Tidy(w')
      && w'.arms == RemoveExpired(w.arms, now)
      && (forall tab :: tab in w'.arms ==> now < w'.arms[tab].expiresAt)
      && (forall id :: id in w'.payloads ==> now < w'.payloads[id].expiresAt)
  {
    CommitThenCleanup(w, PlanSweep(w, now), RemoveExpired(w.arms, now), Released(w.arms, now), now);
  }

  lemma DeletesThenAlarm(w: World, ids: seq<string>, keep: set<string>, arms: Arms)
    ensures var w' := ApplyAll(w, Deletes(ids, keep) + [AlarmEffect(arms)]);
      && w'.arms == w.arms && IsMinExpiry(arms, w'.alarm)
      && forall id :: id in w'.payloads <==> id in w.payloads && (id in ids ==> id in keep)
  {
    ApplyAllSplit(w, Deletes(ids, keep), [AlarmEffect(arms)]);
    DeletesRemove(w, ids, keep);
    var w1 := ApplyAll(w, Deletes(ids, keep));
    OneEffect(w1, AlarmEffect(arms));
    AlarmIsMinExpiry(w1, arms);
  }

  /** No payload is unreferenced. */
  ghost predicate NoGarbage(w: World) {
    forall id :: id in w.payloads ==> id in PayloadIds(w.arms)
  }

  lemma ReferencedBefore(arms: Arms, tab: nat, id: string)
    ensures id in PayloadIds(arms) <==>
      id in PayloadIds(arms - {tab}) || (tab in arms && id in EntryPayloadIds(arms[tab]))
  {
    var rest := arms - {tab};
    if other :| other in arms && id in EntryPayloadIds(arms[other]) {
      assert other != tab ==> other in rest && rest[other] == arms[other];
    }
    if other :| other in rest && id in EntryPayloadIds(rest[other]) {
      assert other in arms && arms[other] == rest[other];
    }
  }

  lemma DropWrites(w: World, arms: Arms, ids: seq<string>)
    ensures var w' := ApplyAll(w, [SetArms(arms)] + Dropping(arms, ids).Effects());
      && w'.arms == arms && IsMinExpiry(arms, w'.alarm)
      && forall id :: id in w'.payloads <==> id in w.payloads && (id in ids ==> id in PayloadIds(arms))
  {
    ApplyAllSplit(w, [SetArms(arms)], Dropping(arms, ids).Effects());
    OneEffect(w, SetArms(arms));
    DeletesThenAlarm(Apply(w, SetArms(arms)), Distinct(ids), PayloadIds(arms), arms);
  }

  lemma ClearTabEffects(w: World, tab: nat)
    ensures PlanClearTab(w, tab).Effects() ==
            [SetArms(w.arms - {tab})] +
            Dropping(w.arms - {tab}, if tab in w.arms then EntryPayloadIds(w.arms[tab]) else []).Effects()
  {
  }

  /** Only what was garbage before can be garbage after the tab's own payloads were dropped. */
  lemma DroppedIsTidy(w: World, next: World, tab: nat, ids: seq<string>)
    requires ids == (if tab in w.arms then EntryPayloadIds(w.arms[tab]) else [])
    requires next.arms == w.arms - {tab} && IsMinExpiry(next.arms, next.alarm)
    requires forall id :: id in next.payloads <==> id in w.payloads && (id in ids ==> id in PayloadIds(next.arms))
    ensures Tidy(next) <==> NoGarbage(w)
  {
    forall id ensures id in PayloadIds(w.arms) <==> id in PayloadIds(next.arms) || id in ids {
      ReferencedBefore(w.arms, tab, id);
    }
  }

  /** A clear of one tab sets the alarm right and drops the tab's own payload, but leaves older garbage. */
  lemma ClearTabTidiesExactly(env: Env, w: World, tab: nat)
    ensures Tidy(Complete(env, w, ClearTab(tab))) <==> NoGarbage(w)
  {
    var arms, ids := w.arms - {tab}, if tab in w.arms then EntryPayloadIds(w.arms[tab]) else [];
    ClearTabEffects(w, tab);
    DropWrites(w, arms, ids);
    DroppedIsTidy(w, ApplyAll(w, [SetArms(arms)] + Dropping(arms, ids).Effects()), tab, ids);
  }

  /** An arm that is stopped after its first write leaves a payload that nothing refers to. A clear of the tab
      keeps it. */
  lemma StoppedArmLeavesGarbage(env: Env, url: string, now: int, tab: nat, profile: string, cv: Cv, bytes: Bytes)
    returns (stopped: Step)
    requires cv.CvFile? && env.decode(cv.base64) == Some(bytes)
    ensures stopped == Step(Arm(url, now, tab, Some(FillSnapshot(profile, cv))), 1, false) && Possible(env, EMPTY, stopped)
    ensures var w := After(env, EMPTY, stopped);
      && w.arms == map[] && env.hash(bytes) in w.payloads
      && !Tidy(Complete(env, w, ClearTab(tab)))
      && Tidy(Complete(env, w, Sweep(now)))
  {
    stopped := Step(Arm(url, now, tab, Some(FillSnapshot(profile, cv))), 1, false);
    var put := Put(env.hash(bytes), bytes, now + env.ttl);
    var plan := PlanOf(env, EMPTY, stopped.call);
    assert plan.before == [put];
    assert plan.Effects()[..1] == [put];
    OneEffect(EMPTY, put);
    var w := After(env, EMPTY, stopped);
    assert env.hash(bytes) in w.payloads && env.hash(bytes) !in PayloadIds(w.arms);
    ClearTabTidiesExactly(env, w, tab);
    SweepTidiesAnything(env, w, now);
  }

  lemma ClearingWrites(w: World, ids: seq<string>, now: int)
    ensures ApplyAll(w, [RemoveArms, SweepPayloads(now, {})] + (Deletes(ids, {}) + [AlarmEffect(map[])])) == EMPTY
  {
    var head, tail := [RemoveArms, SweepPayloads(now, {})], Deletes(ids, {}) + [AlarmEffect(map[])];
    ApplyAllSplit(w, head, tail);
    LastTwo(w, RemoveArms, SweepPayloads(now, {}));
    var w2 := ApplyAll(w, head);
    assert w2.arms == map[] && w2.payloads == map[];
    DeletesThenAlarm(w2, ids, {}, map[]);
    assert ApplyAll(w2, tail).payloads == map[];
  }

  /** Clearing everything empties all three stores, from any world. */
  lemma ClearAllEmpties(env: Env, w: World, now: int)
    ensures Complete(env, w, ClearAll(now)) == EMPTY
  {
    var ids := Distinct(IdsOf(w.arms, Ascending(w.arms.Keys)));
    ClearingWrites(w, ids, now);
    assert PlanClearAll(w, now).Effects() ==
      [RemoveArms, SweepPayloads(now, {})] + (Deletes(ids, {}) + [AlarmEffect(map[])]);
  }

  /** The tab has an arm for the page. */
  predicate HasArm(env: Env, w: World, url: string, tab: nat) {
    tab in w.arms && w.arms[tab].url == env.normalize(url)
  }

  /** When a completed call leaves the stores tidy. One that writes the arms and cleans up always does, from
      any world; a clear of a tab and a peek at a live arm do unless a payload was unreferenced before, which
      takes a rejected write; a call that finds nothing to do, or is rejected, changes nothing. */
  ghost predicate LeavesTidy(env: Env, w: World, call: Call) {
    match call
    case Arm(_, _, _, snapshot) =>
      (snapshot.Some? && snapshot.value.cv.CvFile? && env.decode(snapshot.value.cv.base64).None?) ==> Tidy(w)
    case Consume(url, _, tab) => !HasArm(env, w, url, tab) ==> Tidy(w)
    case Peek(url, now, tab) =>
      if !HasArm(env, w, url, tab) then Tidy(w) else now < w.arms[tab].expiresAt ==> NoGarbage(w)
    case Sweep(_) => true
    case ClearTab(_) => NoGarbage(w)
    case ClearAll(_) => true
  }

  /** A peek at a live arm hands it out, leaves arms and payloads as they are and sets the alarm right. */
  lemma LivePeekSetsAlarm(env: Env, w: World, url: string, now: int, tab: nat)
    requires HasArm(env, w, url, tab) && now < w.arms[tab].expiresAt
    ensures var w' := Complete(env, w, Peek(url, now, tab));
      w'.arms == w.arms && w'.payloads == w.payloads && IsMinExpiry(w.arms, w'.alarm)
  {
    assert PlanOf(env, w, Peek(url, now, tab)).Effects() == [AlarmEffect(w.arms)];
    OneEffect(w, AlarmEffect(w.arms));
    AlarmIsMinExpiry(w, w.arms);
  }

  lemma CompletedTidiesExactly(env: Env, w: World, call: Call)
    ensures Tidy(Complete(env, w, call)) <==> LeavesTidy(env, w, call)
  {
    var plan := PlanOf(env, w, call);
    match call
    case Arm(url, now, tab, snapshot) =>
      if plan.commit.Some? {
        ArmTidies(env, w, call);
      }
    case Consume(url, now, tab) =>
      if plan.commit.Some? { CommitThenCleanup(w, plan, plan.commit.value.arms, EntryPayloadIds(w.arms[tab]), now); }
    case Peek(url, now, tab) =>
      if plan.commit.Some? {
        CommitThenCleanup(w, plan, plan.commit.value.arms, EntryPayloadIds(w.arms[tab]), now);
      } else if HasArm(env, w, url, tab) {
        LivePeekSetsAlarm(env, w, url, now, tab);
      }
    case Sweep(now) => SweepTidiesAnything(env, w, now);
    case ClearTab(tab) => ClearTabTidiesExactly(env, w, tab);
    case ClearAll(now) => ClearAllEmpties(env, w, now);
  }

  lemma ArmTidies(env: Env, w: World, call: Call)
    requires call.Arm? && PlanOf(env, w, call).commit.Some?
    ensures Tidy(Complete(env, w, call)) && NoneExpired(Complete(env, w, call), call.now)
    ensures Complete(env, w, call).arms == PlanOf(env, w, call).commit.value.arms
  {
    var plan, live := PlanOf(env, w, call), RemoveExpired(w.arms, call.now);
    CommitThenCleanup(w, plan, plan.commit.value.arms, Released(w.arms, call.now) + Replaced(live, call.tab), call.now);
  }

  /** A completed arm stores the new arm, drops exactly the expired ones besides, and leaves no expired payload. */
  lemma ArmStoresExactly(env: Env, w: World, url: string, now: int, tab: nat, snapshot: Option<FillSnapshot>)
    requires snapshot.Some? ==> StoredForm(env, snapshot.value).Some?
    ensures var w' := Complete(env, w, Arm(url, now, tab, snapshot));
      && tab in w'.arms && w'.arms[tab].url == env.normalize(url) && w'.arms[tab].expiresAt == now + env.ttl
      && (forall other :: other != tab ==> (other in w'.arms <==> other in w.arms && now < w.arms[other].expiresAt))
      && (forall other :: other != tab && other in w'.arms ==> w'.arms[other] == w.arms[other])
      && (forall id :: id in w'.payloads ==> now < w'.payloads[id].expiresAt)
  {
    ArmTidies(env, w, Arm(url, now, tab, snapshot));
  }

  /** Every completed call keeps the stores tidy. */
  lemma CompletedCallsKeepTidy(env: Env, w: World, call: Call)
    requires Tidy(w)
    ensures Tidy(Complete(env, w, call))
  {
    CompletedTidiesExactly(env, w, call);
  }

  /** The alarm goes off at each of `times`, never early, and each time the store is swept. */
  ghost predicate Fires(env: Env, w: World, times: seq<int>)
    decreases |times|
  {
    times == [] ||
    (w.alarm.Some? && w.alarm.value <= times[0] && Fires(env, Complete(env, w, Sweep(times[0])), times[1..]))
  }

  ghost function AfterFirings(env: Env, w: World, times: seq<int>): World
    decreases |times|
  {
    if times == [] then w else AfterFirings(env, Complete(env, w, Sweep(times[0])), times[1..])
  }

  lemma FiringShrinks(env: Env, w: World, now: int)
    requires Tidy(w) && w.alarm.Some? && w.alarm.value <= now
    ensures |Complete(env, w, Sweep(now)).arms| < |w.arms|
  {
    SweepTidiesAnything(env, w, now);
    var arms := Complete(env, w, Sweep(now)).arms;
    var tab :| tab in w.arms && w.arms[tab].expiresAt == w.alarm.value;
    assert arms.Keys <= w.arms.Keys - {tab};
    FewerKeys(arms.Keys, w.arms.Keys, tab);
    assert |arms.Keys| == |arms| && |w.arms.Keys| == |w.arms|;
  }

  lemma FewerKeys(small: set<nat>, large: set<nat>, tab: nat)
    requires tab in large && small <= large - {tab}
    ensures |small| < |large|
  {
    SubsetSize(small, large - {tab});
  }

  /** Each firing removes an arm, an alarm stays pending while arms are left, and as many firings as
      there are arms leave all three stores empty. */
  lemma {:induction false} AlarmDrainsStores(env: Env, w: World, times: seq<int>)
    requires Tidy(w) && Fires(env, w, times)
    ensures var w' := AfterFirings(env, w, times);
      && |w'.arms| + |times| <= |w.arms|
      && (w'.alarm.Some? <==> w'.arms != map[])
      && (|times| == |w.arms| ==> w' == EMPTY)
    decreases |times|
  {
    if times == [] {
      if |w.arms| == 0 {
        assert w.arms == map[];
        assert w.payloads == map[];
      }
    } else {
      SweepTidiesAnything(env, w, times[0]);
      FiringShrinks(env, w, times[0]);
      var w1 := Complete(env, w, Sweep(times[0]));
      AlarmDrainsStores(env, w1, times[1..]);
    }
  }
}
